/** Task programs (benchmarks/pagein_bench.cc): state machines the scheduler advances, that keep their place across
    steps. What the scheduler and other tasks do between and inside the steps is left open. */
module TaskPrograms {
  type Extent = nat

  datatype Stage = Nonresident | Loading | Resident | Evicting | Quarantined

  datatype Work = Ready | Waiting | Busy | Refused

  datatype Step = Yield | Wait | Finish(succeeded: bool)

  /** The catalog and the scheduler as one task sees them. */
  class World {
    // Each extent's stage, as the catalog describes it.
    var stages: map<Extent, Stage>
    // A failure the task has not taken yet.
    var failure: bool
    // The evictions, and the job, the task waits for.
    var evicting: set<Extent>
    var running: bool
    var clock: int
    // How often work was refused or put off, and a failure came up.
    ghost var refusals: nat
    ghost var putOffs: nat
    ghost var failures: nat

    constructor (stages: map<Extent, Stage>, clock: int)
      ensures this.stages == stages && this.clock == clock && !failure && evicting == {} && !running
    {
      this.stages, this.clock, failure, evicting, running := stages, clock, false, {}, false;
      refusals, putOffs, failures := 0, 0, 0;
    }

    method TakeFailure() returns (failed: bool)
      modifies this`failure
      ensures failed == old(failure) && !failure
    {
      failed := failure;
      failure := false;
    }

    /** An eviction: done at once, begun, or refused for now or for good. */
    method Evict(e: Extent) returns (w: Work)
      requires e in stages && stages[e] == Resident
      modifies this`stages, this`evicting, this`refusals, this`putOffs
      ensures refusals == old(refusals) + (if w.Refused? then 1 else 0) && putOffs == old(putOffs) + if w.Busy? then 1 else 0
      ensures w.Ready? ==> stages == old(stages)[e := Nonresident] && evicting == old(evicting)
      ensures w.Waiting? ==> stages == old(stages)[e := Evicting] && evicting == old(evicting) + {e}
      ensures w.Busy? || w.Refused? ==> stages == old(stages) && evicting == old(evicting)
    {
      w := *;
      if w.Ready? { stages := stages[e := Nonresident]; }
      if w.Waiting? { stages, evicting := stages[e := Evicting], evicting + {e}; }
      if w.Refused? { refusals := refusals + 1; }
      if w.Busy? { putOffs := putOffs + 1; }
    }

    /** The time between two steps: the extents' stages may become any others, and a failure may come up. A task that
        waits is advanced again once nothing it waits for is outstanding. */
    method Pass(step: Step, next: map<Extent, Stage>, fails: bool)
      requires !step.Finish? && (step.Yield? ==> evicting == {} && !running)
      requires next.Keys == stages.Keys
      modifies this
      ensures stages == next && failure == (old(failure) || fails)
      ensures refusals == old(refusals) && putOffs == old(putOffs) && failures == old(failures) + if fails then 1 else 0
      ensures evicting == {} && !running && old(clock) <= clock
    {
      stages, failure := next, failure || fails;
      evicting, running := {}, false;
      if fails { failures := failures + 1; }
      var _ := Now();
    }

    /** A steady clock. */
    method Now() returns (t: int)
      modifies this`clock
      ensures t == clock && old(clock) <= clock
    {
      t := *;
      if t < clock { t := clock; }
      clock := t;
    }

    /** Materializing a closure: done once all of it is resident, begun, or refused for now or for good. */
    method Materialize(closure: set<Extent>) returns (w: Work)
      modifies this`refusals, this`putOffs
      ensures refusals == old(refusals) + (if w.Refused? then 1 else 0) && putOffs == old(putOffs) + if w.Busy? then 1 else 0
      ensures w.Ready? ==> AllResident(closure)
    {
      w := *;
      if w.Ready? && !forall e | e in closure :: e in stages && stages[e] == Resident { w := Waiting; }
      if w.Refused? { refusals := refusals + 1; }
      if w.Busy? { putOffs := putOffs + 1; }
    }

    ghost predicate AllResident(closure: set<Extent>)
      reads this
    {
      forall e | e in closure :: e in stages && stages[e] == Resident
    }

    /** A launch over a closure: begun with all of it resident, or refused for now or for good. */
    method SubmitLaunch(closure: set<Extent>) returns (w: Work)
      requires !running
      modifies this`running, this`refusals, this`putOffs
      ensures refusals == old(refusals) + (if w.Refused? then 1 else 0) && putOffs == old(putOffs) + if w.Busy? then 1 else 0
      ensures !w.Ready? && (running <==> w.Waiting?) && (running ==> AllResident(closure))
    {
      w := *;
      if w.Ready? || !forall e | e in closure :: e in stages && stages[e] == Resident { w := Busy; }
      running := w.Waiting?;
      if w.Refused? { refusals := refusals + 1; }
      if w.Busy? { putOffs := putOffs + 1; }
    }
  }

  /** What the scheduler and the other tasks do between the steps of a run: the stages then, and whether a failure comes
      up. */
  type Environment = (nat, map<Extent, Stage>) -> (map<Extent, Stage>, bool)

  /** No extent comes or goes. */
  ghost predicate Keeps(between: Environment) {
    forall k, stages {:trigger between(k, stages)} :: between(k, stages).0.Keys == stages.Keys
  }

  /** And none is loaded. One whose eviction failed may be resident again, and then the failure is the task's to take. */
  ghost predicate LoadsNothing(between: Environment) {
    forall k, stages {:trigger between(k, stages)} ::
      var (next, fails) := between(k, stages);
      next.Keys == stages.Keys && (!fails ==> forall e | e in stages && next[e] == Resident :: stages[e] == Resident)
  }

  // ------------------------------------------------------------------------------- evicting

  /** A task that evicts the resident ones of some extents and is done once they are gone. */
  class EvictProgram {
    const extents: seq<Extent>
    var next: nat

    constructor (extents: seq<Extent>)
      ensures this.extents == extents && next == 0
    {
      this.extents, next := extents, 0;
    }

    /** Each extent passed is no longer resident, unless a failure is still to be taken. */
    ghost predicate Passed(w: World)
      reads this, w
    {
      && next <= |extents| && (forall i | 0 <= i < |extents| :: extents[i] in w.stages)
      && (!w.failure ==> forall i | 0 <= i < next :: w.stages[extents[i]] != Resident)
    }

    method Advance(w: World) returns (step: Step)
      requires Passed(w) && w.evicting == {} && !w.running
      modifies this`next, w`stages, w`failure, w`evicting, w`refusals, w`putOffs
      ensures step == Finish(false) <==> old(w.failure) || old(w.refusals) < w.refusals
      ensures !step.Finish? ==> (step.Wait? <==> w.evicting != {}) && (next == |extents| || old(w.putOffs) < w.putOffs)
      ensures step.Yield? ==> old(w.putOffs) < w.putOffs
      ensures old(w.refusals) <= w.refusals
      ensures w.stages.Keys == old(w.stages).Keys && old(next) <= next
      ensures !step.Finish? ==> Passed(w) && !w.failure
      ensures step.Yield? ==> w.evicting == {}
      ensures step == Finish(true) ==>
                !w.failure && w.evicting == {} && forall i | 0 <= i < |extents| :: w.stages[extents[i]] != Resident
    {
      var failed := w.TakeFailure();
      if failed { return Finish(false); }
      var waiting := false;
      while next < |extents|
        invariant Passed(w) && !w.failure && w.stages.Keys == old(w.stages).Keys && old(next) <= next
        invariant waiting <==> w.evicting != {}
        invariant !old(w.failure) && w.refusals == old(w.refusals) && w.putOffs == old(w.putOffs)
      {
        var extent := extents[next];
        if w.stages[extent] != Resident {
          next := next + 1;
          continue;
        }
        var evicted := w.Evict(extent);
        if evicted.Busy? { return if waiting then Wait else Yield; }
        if evicted.Refused? { return Finish(false); }
        waiting := waiting || evicted.Waiting?;
        next := next + 1;
      }
      if waiting { return Wait; }
      return Finish(true);
    }
  }

  /** Evicting over a whole run, whatever happens between its steps short of a load: it succeeds only with every extent
      listed no longer resident and nothing it began outstanding. */
  method RunEvict(w: World, extents: seq<Extent>, rounds: nat, between: Environment) returns (ended: bool, succeeded: bool)
    requires !w.failure && w.evicting == {} && !w.running && forall i | 0 <= i < |extents| :: extents[i] in w.stages
    requires LoadsNothing(between)
    modifies w
    ensures succeeded ==> ended && w.evicting == {} && w.stages.Keys == old(w.stages).Keys
    ensures succeeded ==> forall i | 0 <= i < |extents| :: extents[i] in w.stages && w.stages[extents[i]] != Resident
    ensures ended && !succeeded ==> old(w.refusals) < w.refusals || old(w.failures) < w.failures
  {
    var program := new EvictProgram(extents);
    for round := 0 to rounds
      invariant program.extents == extents && fresh(program)
      invariant program.Passed(w) && w.evicting == {} && !w.running && w.stages.Keys == old(w.stages).Keys
      invariant old(w.refusals) <= w.refusals && old(w.failures) <= w.failures && (w.failure ==> old(w.failures) < w.failures)
    {
      var step := program.Advance(w);
      if step.Finish? { return true, step.succeeded; }
      var (next, fails) := between(round, w.stages);
      w.Pass(step, next, fails);
    }
    return false, false;
  }

  // -------------------------------------------------------------------------------- loading

  /** One step of a task that asks for a closure until it has all of it. */
  method AdvanceLoad(w: World, closure: set<Extent>) returns (step: Step)
    modifies w`failure, w`refusals, w`putOffs
    ensures step == Finish(true) ==> !old(w.failure) && w.AllResident(closure)
    ensures step == Finish(false) <==> old(w.failure) || old(w.refusals) < w.refusals
    ensures step.Yield? <==> old(w.putOffs) < w.putOffs
    ensures old(w.refusals) <= w.refusals
    ensures !w.failure
  {
    var failed := w.TakeFailure();
    if failed { return Finish(false); }
    var ready := w.Materialize(closure);
    match ready
    case Busy => return Yield;
    case Refused => return Finish(false);
    case Waiting => return Wait;
    case Ready => return Finish(true);
  }

  /** Loading over a whole run, whatever happens between its steps: it succeeds only with the whole closure resident, and
      never once a failure has come up. */
  method RunLoad(w: World, closure: set<Extent>, rounds: nat, between: Environment) returns (ended: bool, succeeded: bool)
    requires w.evicting == {} && !w.running && Keeps(between)
    modifies w
    ensures succeeded ==> ended && w.AllResident(closure) && w.stages.Keys == old(w.stages).Keys
    ensures succeeded ==> !old(w.failure) && !w.failure
    ensures ended && !succeeded ==> old(w.failure) || old(w.refusals) < w.refusals || old(w.failures) < w.failures
  {
    for round := 0 to rounds
      invariant w.evicting == {} && !w.running && w.stages.Keys == old(w.stages).Keys
      invariant old(w.failure) ==> round == 0 && w.failure
      invariant old(w.refusals) <= w.refusals && old(w.failures) <= w.failures
      invariant w.failure ==> old(w.failure) || old(w.failures) < w.failures
    {
      var step := AdvanceLoad(w, closure);
      if step.Finish? { return true, step.succeeded; }
      var (next, fails) := between(round, w.stages);
      w.Pass(step, next, fails);
    }
    return false, false;
  }

  // ------------------------------------------------------------------------------- decoding

  /** Starts and ends in turn, each no earlier than the one before: no two steps overlap. */
  ghost predicate InTurn(starts: seq<int>, ends: seq<int>) {
    && |ends| <= |starts| <= |ends| + 1
    && (forall i | 0 <= i < |ends| :: starts[i] <= ends[i])
    && (forall i | 0 < i < |starts| :: ends[i - 1] <= starts[i])
  }

  // The last time recorded is no later than now.
  ghost predicate Until(starts: seq<int>, ends: seq<int>, now: int) {
    (starts != [] ==> starts[|starts| - 1] <= now) && (ends != [] ==> ends[|ends| - 1] <= now)
  }

  lemma NothingYet()
    ensures InTurn([], [])
  {
  }

  lemma EndedAt(starts: seq<int>, ends: seq<int>, before: int, now: int)
    requires InTurn(starts, ends) && Until(starts, ends, before) && before <= now && |starts| == |ends| + 1
    ensures InTurn(starts, ends + [now]) && Until(starts, ends + [now], now)
  {
  }

  lemma StartedAt(starts: seq<int>, ends: seq<int>, before: int, now: int)
    requires InTurn(starts, ends) && Until(starts, ends, before) && before <= now && |starts| == |ends|
    ensures InTurn(starts + [now], ends) && Until(starts + [now], ends, now)
  {
  }

  /** The decode loop: one device job at a time over the weights, the next once the last is done. */
  class DecodeProgram {
    const steps: nat
    const weights: set<Extent>
    var ready: bool
    var submitted: bool
    var starts: seq<int>
    var ends: seq<int>

    constructor (weights: set<Extent>, steps: nat)
      ensures this.weights == weights && this.steps == steps && !ready && !submitted && starts == [] && ends == []
    {
      this.weights, this.steps := weights, steps;
      ready, submitted, starts, ends := false, false, [], [];
    }

    ghost predicate Valid(w: World)
      reads this, w
    {
      && InTurn(starts, ends) && Until(starts, ends, w.clock) && |starts| <= steps
      && |starts| == |ends| + (if submitted then 1 else 0) && (submitted ==> ready)
    }

    // The task's wake after a step.
    method EndStep(w: World)
      requires Valid(w) && submitted
      modifies this`ends, this`submitted, w`clock
      ensures Valid(w) && !submitted
    {
      hide InTurn, Until;
      ghost var before := w.clock;
      var now := w.Now();
      EndedAt(starts, ends, before, now);
      ends := ends + [now];
      submitted := false;
    }

    // The next step.
    method Launch(w: World) returns (step: Step)
      requires Valid(w) && !submitted && ready && |ends| < steps && !w.running
      modifies this`starts, this`submitted, w`clock, w`running, w`refusals, w`putOffs
      ensures step == Finish(false) <==> old(w.refusals) < w.refusals
      ensures step.Yield? <==> old(w.putOffs) < w.putOffs
      ensures ends == old(ends) && old(w.refusals) <= w.refusals
      ensures Valid(w) && step != Finish(true) && (w.running <==> submitted) && (submitted <==> step.Wait?)
      ensures submitted ==> w.AllResident(weights)
    {
      hide InTurn, Until;
      var work := w.SubmitLaunch(weights);
      if work.Busy? { return Yield; }
      if work.Refused? { return Finish(false); }
      ghost var before := w.clock;
      var now := w.Now();
      StartedAt(starts, ends, before, now);
      starts := starts + [now];
      submitted := true;
      return Wait;
    }

    method Advance(w: World) returns (step: Step)
      requires Valid(w) && !w.running
      modifies this, w`failure, w`clock, w`running, w`refusals, w`putOffs
      ensures step == Finish(false) <==> old(w.failure) || old(w.refusals) < w.refusals
      ensures step.Yield? <==> old(w.putOffs) < w.putOffs
      ensures step == Finish(true) <==> !old(w.failure) && ready && steps <= |ends|
      ensures !w.failure
      ensures !old(w.failure) && old(submitted) ==> |ends| == |old(ends)| + 1
      ensures old(w.refusals) <= w.refusals
      ensures w.stages == old(w.stages) && w.evicting == old(w.evicting)
      ensures Valid(w) && (w.running ==> submitted && step.Wait? && w.AllResident(weights))
      ensures !step.Finish? ==> (w.running <==> submitted)
      ensures step == Finish(true) ==> |starts| == |ends| == steps && !w.running
    {
      hide InTurn, Until;
      var failed := w.TakeFailure();
      if failed { return Finish(false); }
      if !ready {
        var made := w.Materialize(weights);
        if made.Busy? { return Yield; }
        if made.Refused? { return Finish(false); }
        if made.Waiting? { return Wait; }
        ready := true;
      }
      if submitted { EndStep(w); }
      if steps <= |ends| { return Finish(true); }
      step := Launch(w);
    }
  }

  /** Decoding over a whole run, whatever is loaded or evicted between its steps: no step overlaps another, and success
      means as many steps as asked for. */
  method RunDecode(w: World, weights: set<Extent>, steps: nat, rounds: nat, between: Environment)
    returns (ended: bool, succeeded: bool, starts: seq<int>, ends: seq<int>)
    requires w.evicting == {} && !w.running && Keeps(between)
    modifies w
    ensures InTurn(starts, ends)
    ensures succeeded ==> ended && |starts| == |ends| == steps
    ensures ended && !succeeded ==> old(w.failure) || old(w.refusals) < w.refusals || old(w.failures) < w.failures
  {
    hide InTurn;
    NothingYet();
    var program := new DecodeProgram(weights, steps);
    for round := 0 to rounds
      invariant program.steps == steps && fresh(program) && program.Valid(w) && w.evicting == {} && !w.running
      invariant old(w.refusals) <= w.refusals && old(w.failures) <= w.failures
      invariant w.failure ==> old(w.failure) || old(w.failures) < w.failures
    {
      var step := program.Advance(w);
      if step.Finish? { return true, step.succeeded, program.starts, program.ends; }
      var (next, fails) := between(round, w.stages);
      w.Pass(step, next, fails);
    }
    return false, false, program.starts, program.ends;
  }
}
