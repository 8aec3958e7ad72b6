/** The checks of speculation on one runner (benchmarks/qwen38_spec.cc, the greedy and the forced check): request after
    request, each from a cleared state, and what one leaves against what the other leaves. */
module Checks {
  import opened Results
  import opened LiveState
  import opened Speculation
  import opened Lossless
  import opened Harness
  import LockStep
  import AcceptanceByPosition

  /** How the jobs of a request end: its prefill's, its steps' and its readings of the state. */
  datatype Request = Request(prefill: nat -> Outcome, steps: nat -> Outcome, fetches: nat -> Outcome)

  /** A runner that is fit for a request. */
  ghost predicate Ready(runner: Runner, e: Engine)
    reads runner
  {
    runner.Valid() && Drives(e, runner.m, runner.maxRows)
  }

  /** A prompt's prefill, and speculation after it. */
  method Respond(runner: Runner, e: Engine, c: Chooser, f: Forcing, prompt: seq<Token>, count: nat, maxRows: nat,
                 fingerprint: bool, jobs: Request)
    returns (r: Result<Generation>, states: seq<Option<Device>>)
    requires ValidEngine(e) && ValidForcing(f) && Ready(runner, e) && prompt != [] && 1 <= maxRows && 1 <= count
    modifies runner
    ensures Ready(runner, e)
    ensures r.Ok? ==> r == Speculated(e, c, f, prompt, count, e.target(prompt))
    ensures r.Ok? ==>
        && 1 <= |r.value.tokens| && !runner.quarantined
        && Device(runner.memory, runner.recurrent) == DeviceOf(runner.m, prompt + r.value.tokens[..|r.value.tokens| - 1])
    ensures r.Ok? && fingerprint ==>
        Fingerprinted(runner.m, prompt + r.value.tokens, r.value.steps, states, |r.value.steps|)
    ensures r.Err? ==> || !Prefills(runner, prompt, maxRows, jobs.prefill) || Deep(e, f)
                       || SnapshotShort(runner.m, runner.maxRows, runner.capacity, runner.snapshotBytes)
                       || var whole := Speculated(e, c, f, prompt, count, e.target(prompt));
                          whole.Err? || JobFailed(|whole.value.steps|, fingerprint, true, jobs.steps, jobs.fetches)
  {
    hide runner.Valid, Speculated, DeviceOf, Fingerprinted, Deep, SnapshotShort, JobFailed, Prefills;
    states := [];
    var first := Prefill(runner, prompt, maxRows, jobs.prefill);
    if first.Err? { return Err(first.error), states; }
    r, states := Speculate(runner, e, c, f, prompt, count, first.value, fingerprint, true, jobs.steps, jobs.fetches);
  }

  /** The greedy check: a plain generation and a speculative one. Every token of the one is the other's, and with as many
      tokens the device is left in the same state. */
  method PlainAndSpeculative(runner: Runner, e: Engine, f: Forcing, prompt: seq<Token>, count: nat, maxRows: nat,
                             plainly: Request, fast: Request)
    returns (r: Result<(seq<Token>, Device, Generation, Device)>)
    requires ValidEngine(e) && ValidForcing(f) && Ready(runner, e) && prompt != [] && 1 <= maxRows && 1 <= count
    modifies runner
    ensures Ready(runner, e)
    ensures r.Ok? ==>
        var (tokens, state, g, after) := r.value;
        && |tokens| == count && Decoding(e, Greedy, prompt, tokens)
        && 1 <= |g.tokens| <= count && g.tokens == tokens[..|g.tokens|]
        && (f.control.None? && count <= f.maxSteps + 1 ==> g.tokens == tokens)
        && (g.tokens == tokens ==> after == state)
    ensures r.Err? ==>
        || !Prefills(runner, prompt, maxRows, plainly.prefill) || !Prefills(runner, prompt, maxRows, fast.prefill)
        || |prompt| + count > e.context + 1 || (exists i: nat :: 1 <= i < count && !plainly.steps(i).Done?)
        || !plainly.fetches(0).Done? || Deep(e, f)
        || SnapshotShort(runner.m, runner.maxRows, runner.capacity, runner.snapshotBytes)
        || var whole := Speculated(e, Greedy, f, prompt, count, e.target(prompt));
           whole.Err? || JobFailed(|whole.value.steps|, false, true, fast.steps, fast.fetches)
  {
    hide runner.Valid, Speculated, DeviceOf, Fingerprinted, Deep, SnapshotShort, JobFailed, Prefills, ValidEngine, ValidForcing,
         Decoding;
    var plain := Plain(runner, e, prompt, count, maxRows, plainly.prefill, plainly.steps);
    if plain.Err? { return Err(plain.error); }
    var state := ReadState(runner, plainly.fetches(0));
    if state.Err? { return Err(state.error); }
    var g, _ := Respond(runner, e, Greedy, f, prompt, count, maxRows, false, fast);
    if g.Err? { return Err(g.error); }
    GreedyCoherent();
    SpeculationLossless(e, Greedy, f, prompt, count, plain.value.0);
    return Ok((plain.value.0, state.value, g.value, Device(runner.memory, runner.recurrent)));
  }

  lemma GreedyCoherent()
    ensures Coherent(Greedy)
  {
  }

  /** The control of a run. */
  function ControlOf(f: Forcing, steps: seq<Step>): Forcing {
    Forcing(None, Some(steps), false, f.maxSteps)
  }

  // A run's steps can be repeated, and are not too deep for it.
  lemma Repeatable(e: Engine, c: Chooser, f: Forcing, prompt: seq<Token>, count: nat, first: Logits)
    requires ValidEngine(e) && ValidForcing(f) && Coherent(c) && f.control.None? && 1 <= count
    requires Speculated(e, c, f, prompt, count, first).Ok?
    ensures var g := ControlOf(f, Speculated(e, c, f, prompt, count, first).value.steps);
            ValidForcing(g) && !Deep(e, g)
  {
    hide Run;
    var s := Start(c, f, prompt, first);
    RunAccounted(e, c, f, count, prompt, s);
    AcceptanceByPosition.StepsFit(e, c, f, count, s);
    var end := Run(e, c, f, count, s).value;
    assert forall i | 0 <= i < |end.out.steps| :: StepInBounds(e, end.out.steps[i]) && AcceptanceByPosition.Fits(end.out.steps[i], e.draftRows);
  }

  /** The forced check: a run with drafts forced wrong, and its control. The tokens are the same, the steps alike, and the
      device's state the same after every step. The control fails only if a job of its own does. */
  method ForcedAndControl(runner: Runner, e: Engine, c: Chooser, f: Forcing, prompt: seq<Token>, count: nat, maxRows: nat,
                          forced: Request, repeated: Request)
    returns (r: Result<(Generation, seq<Option<Device>>, Generation, seq<Option<Device>>)>)
    requires ValidEngine(e) && ValidForcing(f) && Coherent(c) && f.control.None? && Ready(runner, e)
    requires prompt != [] && 1 <= maxRows && 1 <= count <= f.maxSteps
    modifies runner
    ensures Ready(runner, e)
    ensures r.Ok? ==>
        var (run, states, control, others) := r.value;
        && Ok(run) == Speculated(e, c, f, prompt, count, e.target(prompt)) && control.tokens == run.tokens
        && |control.steps| == |run.steps| == |states|
        && (forall i | 0 <= i < |run.steps| :: LockStep.Alike(run.steps[i], control.steps[i]))
        && (forall i | 0 <= i < |states| :: states[i].Some?) && others == states
    ensures r.Err? ==>
        || !Prefills(runner, prompt, maxRows, forced.prefill) || !Prefills(runner, prompt, maxRows, repeated.prefill)
        || SnapshotShort(runner.m, runner.maxRows, runner.capacity, runner.snapshotBytes)
        || var whole := Speculated(e, c, f, prompt, count, e.target(prompt));
           || whole.Err? || JobFailed(|whole.value.steps|, true, true, forced.steps, forced.fetches)
           || JobFailed(|whole.value.steps|, true, true, repeated.steps, repeated.fetches)
  {
    hide runner.Valid, Speculated, DeviceOf, Fingerprinted, Deep, SnapshotShort, JobFailed, Prefills, ValidEngine, ValidForcing,
         Coherent;
    NotDeep(e, f);
    var run, states := Respond(runner, e, c, f, prompt, count, maxRows, true, forced);
    if run.Err? { return Err(run.error); }
    Repeatable(e, c, f, prompt, count, e.target(prompt));
    var g := ControlOf(f, run.value.steps);
    LockStep.ForcedRunsMatch(e, c, f, g, prompt, count, e.target(prompt));
    var control, others := Respond(runner, e, c, g, prompt, count, maxRows, true, repeated);
    if control.Err? { return Err(control.error); }
    SameStates(runner.m, prompt + run.value.tokens, run.value.steps, control.value.steps, states, others);
    return Ok((run.value, states, control.value, others));
  }

  lemma NotDeep(e: Engine, f: Forcing)
    requires f.control.None?
    ensures !Deep(e, f)
  {
  }

  // Steps alike leave the same states.
  lemma SameStates(m: Model, history: seq<Token>, a: seq<Step>, b: seq<Step>, states: seq<Option<Device>>,
                   others: seq<Option<Device>>)
    requires Fingerprinted(m, history, a, states, |a|) && Fingerprinted(m, history, b, others, |b|)
    requires |a| == |b| && forall i | 0 <= i < |a| :: LockStep.Alike(a[i], b[i])
    ensures |states| == |a| && states == others && forall i | 0 <= i < |states| :: states[i].Some?
  {
    hide DeviceOf;
    forall i | 0 <= i < |a| ensures EndOf(a[i]) == EndOf(b[i]) { assert LockStep.Alike(a[i], b[i]); }
  }
}
