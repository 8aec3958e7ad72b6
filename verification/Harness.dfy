/** The harness's generations (benchmarks/qwen38_spec.cc) on a runner whose device state is updated in
    place: plain decoding, a verify's judgement, and speculation. Each is proved against the values it
    should give and the device state it should leave. */
module Harness {
  import opened Results
  import opened LiveState
  import opened Speculation
  import opened Lossless
  import LockStep

  /** The runner computes the engine's target, within its context and depth. */
  ghost predicate Drives(e: Engine, m: Model, maxRows: nat) {
    m.logits == e.target && m.context == e.context && maxRows == e.draftRows + 1
  }

  /** The jobs of a prompt's chunks from a place on, each with the number of its first token and one, all run. */
  ghost predicate ChunksRun(jobs: nat -> Outcome, at: nat, n: nat, maxRows: nat)
    requires 1 <= maxRows
    decreases n - at
  {
    at >= n || (jobs(at + 1).Done? && ChunksRun(jobs, at + maxRows, n, maxRows))
  }

  /** The prompt fits, and its clear and its chunks run. */
  ghost predicate Prefills(runner: Runner, prompt: seq<Token>, maxRows: nat, jobs: nat -> Outcome)
    requires 1 <= maxRows
  {
    |prompt| <= runner.m.context && jobs(0).Done? && ChunksRun(jobs, 0, |prompt|, maxRows)
  }

  /** A prompt's rows in chunks of at most `maxRows`: its last row's logits (none for no prompt). How
      each job ends is `jobs`'s to say. */
  method Prefill(runner: Runner, prompt: seq<Token>, maxRows: nat, jobs: nat -> Outcome) returns (r: Result<Logits>)
    requires runner.Valid() && 1 <= maxRows
    modifies runner
    ensures runner.Valid()
    ensures r.Ok? ==> !runner.quarantined && runner.verifyRows == 0 && runner.held == prompt
    ensures r.Ok? ==> r.value == if prompt == [] then [] else runner.m.logits(prompt)
    ensures r.Ok? <==> Prefills(runner, prompt, maxRows, jobs)
    ensures r.Ok? ==> |prompt| <= runner.m.context
  {
    hide runner.Valid;
    var cleared := runner.Clear(jobs(0));
    if cleared.Err? { return Err(cleared.error); }
    var last: Logits := [];
    var at := 0;
    while at < |prompt|
      invariant 0 <= at <= |prompt|
      invariant runner.Valid() && !runner.quarantined && runner.verifyRows == 0 && runner.held == prompt[..at]
      invariant last == if at == 0 then [] else runner.m.logits(prompt[..at])
      invariant jobs(0).Done? && (at < |prompt| || |prompt| <= runner.m.context)
      invariant ChunksRun(jobs, 0, |prompt|, maxRows) == ChunksRun(jobs, at, |prompt|, maxRows)
      invariant at == |prompt| ==> ChunksRun(jobs, at, |prompt|, maxRows)
    {
      var n := if maxRows < |prompt| - at then maxRows else |prompt| - at;
      assert prompt[..at + n][..at] == prompt[..at];
      var row := runner.Chunk(prompt[..at + n], at, jobs(at + 1));
      if row.Err? { return Err(row.error); }
      last := row.value;
      at := at + n;
    }
    assert prompt[..|prompt|] == prompt;
    return Ok(last);
  }

  // Each token's row is the target's on the tokens before it.
  ghost predicate RowsOf(e: Engine, prompt: seq<Token>, tokens: seq<Token>, logits: seq<Logits>) {
    |logits| == |tokens| && forall i | 0 <= i < |logits| :: logits[i] == e.target(prompt + tokens[..i])
  }

  lemma DecodedFirst(e: Engine, prompt: seq<Token>)
    ensures var row := e.target(prompt); Decoding(e, Greedy, prompt, [Argmax(row)]) && RowsOf(e, prompt, [Argmax(row)], [row])
  {
    var row := e.target(prompt);
    assert prompt + [Argmax(row)][..0] == prompt;
  }

  // One token more.
  lemma DecodedNext(e: Engine, prompt: seq<Token>, tokens: seq<Token>, logits: seq<Logits>, row: Logits)
    requires Decoding(e, Greedy, prompt, tokens) && RowsOf(e, prompt, tokens, logits) && row == e.target(prompt + tokens)
    ensures Decoding(e, Greedy, prompt, tokens + [Argmax(row)]) && RowsOf(e, prompt, tokens + [Argmax(row)], logits + [row])
  {
    hide Argmax;
    var more := tokens + [Argmax(row)];
    forall i | 0 <= i < |more| ensures more[..i] == if i < |tokens| then tokens[..i] else tokens {}
  }

  /** Plain greedy decoding, one row at a time: every token the target's argmax on its own prefix, and
      the device left with the state of all but the last. */
  method Plain(runner: Runner, e: Engine, prompt: seq<Token>, count: nat, maxRows: nat, jobs: nat -> Outcome,
               steps: nat -> Outcome)
    returns (r: Result<(seq<Token>, seq<Logits>)>)
    requires runner.Valid() && Drives(e, runner.m, runner.maxRows)
    requires prompt != [] && 1 <= maxRows
    modifies runner
    ensures runner.Valid()
    ensures r.Ok? ==>
        && |r.value.0| == |r.value.1| == (if count == 0 then 1 else count)
        && Decoding(e, Greedy, prompt, r.value.0)
        && RowsOf(e, prompt, r.value.0, r.value.1)
        && !runner.quarantined && runner.verifyRows == 0 && runner.held == prompt + r.value.0[..|r.value.0| - 1]
    ensures r.Ok? <==> && Prefills(runner, prompt, maxRows, jobs) && |prompt| + count <= e.context + 1
                       && forall i | 1 <= i < count :: steps(i).Done?
  {
    hide runner.Valid, Prefills, Argmax, Decoding, RowsOf;
    var last := Prefill(runner, prompt, maxRows, jobs);
    if last.Err? { return Err(last.error); }
    var tokens: seq<Token>, logits := [Argmax(last.value)], [last.value];
    var history := prompt;
    DecodedFirst(e, prompt);
    assert prompt + tokens[..0] == prompt;
    while |tokens| < count
      invariant 1 <= |tokens| == |logits| <= (if count == 0 then 1 else count)
      invariant |tokens| == 1 || |prompt| + |tokens| <= e.context + 1
      invariant forall i | 1 <= i < |tokens| :: steps(i).Done?
      invariant history == prompt + tokens[..|tokens| - 1]
      invariant Decoding(e, Greedy, prompt, tokens) && RowsOf(e, prompt, tokens, logits)
      invariant runner.Valid() && !runner.quarantined && runner.verifyRows == 0 && runner.held == history
    {
      ghost var before := tokens;
      history := history + [tokens[|tokens| - 1]];
      assert history == prompt + tokens;
      assert history[..|history| - 1] == prompt + tokens[..|tokens| - 1];
      var row := runner.Chunk(history, |history| - 1, steps(|tokens|));
      if row.Err? { return Err(row.error); }
      DecodedNext(e, prompt, tokens, logits, row.value);
      tokens := tokens + [Argmax(row.value)];
      logits := logits + [row.value];
      assert tokens[..|tokens| - 1] == before;
    }
    return Ok((tokens, logits));
  }

  /** How many drafts the chooser takes, in order, and the token it puts behind them. */
  method Judge(c: Chooser, rows: seq<Logits>, drafts: seq<Token>, pos: nat) returns (r: Result<(nat, Token)>)
    requires |rows| == |drafts| + 1
    ensures r == Judgement(c, rows, drafts, pos, 0)
    ensures r.Ok? ==> Judges(c, rows, drafts, pos, r.value.0, r.value.1)
    ensures r.Err? <==> exists n :: 0 <= n <= |drafts| && Refuses(c, rows, drafts, pos, n)
  {
    JudgementIs(c, rows, drafts, pos, 0);
    if Judgement(c, rows, drafts, pos, 0).Ok? {
      ghost var (n, token) := Judgement(c, rows, drafts, pos, 0).value;
      forall k: nat ensures !Refuses(c, rows, drafts, pos, k) { JudgesOnce(c, rows, drafts, pos, n, token, k, token); }
    }
    hide Judges, Refuses, Argmax;
    var m, next := 0, -1;
    while m < |drafts|
      invariant m <= |drafts| && next == -1
      invariant Judgement(c, rows, drafts, pos, 0) == Judgement(c, rows, drafts, pos, m)
    {
      if c.Greedy? {
        var want := Argmax(rows[m]);
        if want != drafts[m] {
          next := want;
          break;
        }
      } else {
        var verdict := c.verdict(rows[m], drafts[m], pos + m + 1);
        if verdict.None? { return Err("a draft's verdict"); }
        if !verdict.value.accepted {
          next := verdict.value.token;
          break;
        }
      }
      m := m + 1;
    }
    if next < 0 {
      if c.Greedy? {
        next := Argmax(rows[m]);
      } else {
        var token := c.sample(rows[m], pos + m + 1);
        if token.None? { return Err("a sample"); }
        next := token.value;
      }
    }
    return Ok((m, next));
  }

  /** The adaptive window: the longest row of drafts the drafter is sure enough of, and at least one. */
  method Window(e: Engine, drafted: Drafted) returns (drafts: seq<Token>)
    ensures var keep := Windowed(drafted.probabilities, |drafted.tokens|, e.window, 1);
            drafts == if e.window > 0.0 then drafted.tokens[..if keep < |drafted.tokens| then keep else |drafted.tokens|]
                      else drafted.tokens
    ensures drafts <= drafted.tokens && (e.window <= 0.0 ==> drafts == drafted.tokens)
    ensures 0.0 < e.window ==>
              var (tokens, p) := (drafted.tokens, drafted.probabilities);
              && (tokens != [] ==> drafts != [])
              && (1 < |drafts| ==> |drafts| <= |p|) && (forall i | 1 <= i < |drafts| :: e.window <= p[i])
              && (0 < |drafts| < |tokens| && |drafts| < |p| ==> p[|drafts|] < e.window)
  {
    WindowedIs(drafted.probabilities, |drafted.tokens|, e.window, 1);
    drafts := drafted.tokens;
    if e.window > 0.0 {
      var keep := 1;
      while keep < |drafts| && keep < |drafted.probabilities| && drafted.probabilities[keep] >= e.window
        invariant Windowed(drafted.probabilities, |drafts|, e.window, 1)
                  == Windowed(drafted.probabilities, |drafts|, e.window, keep)
      {
        keep := keep + 1;
      }
      assert keep == Windowed(drafted.probabilities, |drafts|, e.window, 1);
      drafts := drafts[..if keep < |drafts| then keep else |drafts|];
    }
  }

  /** A control's drafts: those on record, but for a forced one that was rejected. That one is another token still, and
      never the verify's own. */
  method Replace(e: Engine, other: Step) returns (drafts: seq<Token>)
    requires 1 <= e.vocab && ValidControl(other)
    ensures drafts == Replayed(e, other) && |drafts| == |other.drafts|
    ensures forall i | 0 <= i < |drafts| && i != other.forced :: drafts[i] == other.drafts[i]
    ensures 0 <= other.forced ==>
              var (d, after) := (other.drafts[other.forced], After(e, other.drafts[other.forced]));
              drafts[other.forced] == if other.forced + 1 < other.kept then d
                                      else if after == other.next then After(e, after) else after
  {
    hide After;
    drafts := other.drafts;
    if other.forced >= 0 && other.kept <= other.forced + 1 {
      var d := After(e, drafts[other.forced]);
      if d == other.next { d := After(e, d); }
      drafts := drafts[other.forced := d];
    }
  }

  /** A step's drafts: the drafter's, within the adaptive window, or a control's. */
  method Propose(e: Engine, f: Forcing, index: nat, history: seq<Token>) returns (r: Option<seq<Token>>)
    requires ValidEngine(e) && ValidForcing(f)
    ensures r == Offered(e, f, index, history)
    ensures f.control.None? ==>
              && r.Some? && r.value <= e.drafter(history).tokens
              && (e.window <= 0.0 ==> r.value == e.drafter(history).tokens)
              && (0.0 < e.window ==>
                    var (tokens, p) := (e.drafter(history).tokens, e.drafter(history).probabilities);
                    && (tokens != [] ==> r.value != [])
                    && (1 < |r.value| ==> |r.value| <= |p|) && (forall i | 1 <= i < |r.value| :: e.window <= p[i])
                    && (0 < |r.value| < |tokens| && |r.value| < |p| ==> p[|r.value|] < e.window))
    ensures f.control.Some? ==> (r.Some? <==> index < |f.control.value|)
    ensures f.control.Some? && r.Some? ==>
              var other := f.control.value[index];
              && |r.value| == |other.drafts|
              && (forall i | 0 <= i < |r.value| && i != other.forced :: r.value[i] == other.drafts[i])
              && (0 <= other.forced ==>
                    var (d, after) := (other.drafts[other.forced], After(e, other.drafts[other.forced]));
                    r.value[other.forced] == if other.forced + 1 < other.kept then d
                                             else if after == other.next then After(e, after) else after)
  {
    hide After, Windowed, Replayed;
    if f.control.None? {
      var drafts := Window(e, e.drafter(history));
      return Some(drafts);
    }
    if index >= |f.control.value| { return None; }
    var drafts := Replace(e, f.control.value[index]);
    return Some(drafts);
  }

  /** Records a judged verify: its kept tokens, one by one, with their rows when kept, and the step. */
  method Record(s: State, drafts: seq<Token>, rows: seq<Logits>, forced: int, m: nat, next: Token, logits: bool)
    returns (r: State)
    requires m <= |drafts| < |rows|
    ensures r == Kept(s, drafts, rows, forced, m, next, logits)
  {
    var tokens, kept, history := s.out.tokens, s.out.logits, s.history;
    for i := 0 to m + 1
      invariant tokens == s.out.tokens + (drafts[..m] + [next])[..i]
      invariant history == s.history + (drafts[..m] + [next])[..i]
      invariant kept == if logits then s.out.logits + rows[..i] else s.out.logits
    {
      var token := if i < m then drafts[i] else next;
      tokens := tokens + [token];
      if logits { kept := kept + [rows[i]]; }
      history := history + [token];
    }
    var step := Step(s.pos, |drafts| + 1, m + 1, forced, next, drafts);
    r := State(s.pos + m + 1, history,
               Generation(tokens, kept, s.out.steps + [step], s.out.drafted + |drafts|, s.out.accepted + m,
                          s.out.verifies + 1));
  }

  /** The verify's drafts: within the tokens left and the context, the forced one made wrong. */
  method Limit(e: Engine, f: Forcing, count: nat, s: State, offered: seq<Token>) returns (drafts: seq<Token>, forced: int)
    requires ValidEngine(e) && |s.out.tokens| < count && s.pos < e.context
    ensures (drafts, forced) == Verified(e, f, count, s, offered)
    ensures |drafts| <= |offered| && |drafts| < count - |s.out.tokens| && |drafts| < e.context - s.pos
    ensures |drafts| == |offered| || |drafts| + 1 == count - |s.out.tokens| || |drafts| + 1 == e.context - s.pos
    ensures forall i | 0 <= i < |drafts| :: drafts[i] == if i == forced then After(e, offered[i]) else offered[i]
    ensures f.wrong.None? ==> forced == -1
    ensures f.wrong.Some? ==>
              var asked := f.wrong.value(|s.out.steps|, s.pos, |drafts| + 1);
              forced == if 0 <= asked < |drafts| then asked else -1
  {
    hide After;
    var rows := Least(|offered| + 1, count - |s.out.tokens|, e.context - s.pos);
    drafts, forced := offered[..rows - 1], -1;
    if f.wrong.Some? {
      forced := f.wrong.value(|s.out.steps|, s.pos, rows);
      if forced >= 0 && forced < |drafts| {
        drafts := drafts[forced := After(e, drafts[forced])];
      } else {
        forced := -1;
      }
    }
  }

  /** A control to repeat has a turn with more drafts than the runner verifies. */
  ghost predicate Deep(e: Engine, f: Forcing) {
    f.control.Some? && exists i :: 0 <= i < |f.control.value| && |f.control.value[i].drafts| > e.draftRows
  }

  // What is offered is within the drafter's depth, unless a control is not.
  lemma DraftedAtMost(e: Engine, f: Forcing, index: nat, history: seq<Token>)
    requires ValidEngine(e) && ValidForcing(f)
    ensures 1 <= e.draftRows
    ensures Offered(e, f, index, history).Some? ==> |Offered(e, f, index, history).value| <= e.draftRows || Deep(e, f)
  {
  }

  // A turn records one step, which ends where the next begins.
  ghost predicate Adds(s: State, t: State) {
    && |t.out.steps| == |s.out.steps| + 1 && s.out.steps == t.out.steps[..|s.out.steps|]
    && EndOf(t.out.steps[|s.out.steps|]) == t.pos
  }

  /** Where a step leaves the position: past the rows kept. */
  function EndOf(step: Step): nat {
    step.pos + step.kept
  }

  // A kept verify extends the tokens and the history alike, and the history before its anchor is what
  // was held and the rows kept.
  lemma KeptShape(s: State, drafts: seq<Token>, rows: seq<Logits>, forced: int, m: nat, next: Token, logits: bool)
    requires |s.history| == s.pos + 1 && m <= |drafts| < |rows|
    ensures var t := Kept(s, drafts, rows, forced, m, next, logits);
            && |t.history| == t.pos + 1 && s.out.tokens <= t.out.tokens
            && t.history == s.history + t.out.tokens[|s.out.tokens|..]
            && t.history[..t.pos] == s.history[..s.pos] + (s.history + drafts)[s.pos..][..m + 1]
            && Adds(s, t)
  {
    var t, anchor := Kept(s, drafts, rows, forced, m, next, logits), [s.history[s.pos]];
    assert t.out.tokens[|s.out.tokens|..] == drafts[..m] + [next];
    assert t.history[..t.pos] == s.history + drafts[..m];
    assert s.history == s.history[..s.pos] + anchor;
    assert (s.history + drafts)[s.pos..] == anchor + drafts;
    assert (anchor + drafts)[..m + 1] == anchor + drafts[..m];
  }

  /** The verify of a step's drafts, its judgement and its acceptance: the runner then stands for the
      rows kept. */
  method VerifyAndAccept(runner: Runner, e: Engine, c: Chooser, s: State, drafts: seq<Token>, job: Outcome)
    returns (r: Result<(seq<Logits>, nat, Token)>)
    requires runner.Valid() && Drives(e, runner.m, runner.maxRows)
    requires |s.history| == s.pos + 1
    requires !runner.quarantined && runner.verifyRows == 0 && runner.held == s.history[..s.pos]
    modifies runner
    ensures runner.Valid()
    ensures r.Ok? ==> !runner.quarantined && runner.verifyRows == 0
    ensures r.Ok? ==> r.value.0 == Rows(e, s.history + drafts, s.pos) && Judged(e, c, s, drafts) == Ok((r.value.1, r.value.2))
    ensures r.Ok? ==> runner.held == s.history[..s.pos] + (s.history + drafts)[s.pos..][..r.value.1 + 1]
    ensures r.Err? ==> || Judged(e, c, s, drafts).Err? || !job.Done? || |s.history| + |drafts| > e.context
                       || |drafts| > e.draftRows
                       || !Fits(runner.m, AllSaves(runner.m, s.pos, |drafts| + 1), runner.capacity, runner.snapshotBytes)
  {
    hide runner.Valid, AllSaves, Fits;
    var input := s.history + drafts;
    assert input[..s.pos] == s.history[..s.pos];
    var rows := runner.Verify(input, s.pos, job);
    if rows.Err? { return Err(rows.error); }
    assert rows.value == Rows(e, input, s.pos);
    var judged := Judge(c, rows.value, drafts, s.pos);
    if judged.Err? { return Err(judged.error); }
    var accepted := runner.Accept(judged.value.0 + 1);
    assert accepted.Ok?; // between one row and all of them
    return Ok((rows.value, judged.value.0, judged.value.1));
  }

  /** The rest of a turn, once the drafts are chosen: verify, judge, accept and record. */
  method Settle(runner: Runner, e: Engine, c: Chooser, s: State, drafts: seq<Token>, forced: int, logits: bool, job: Outcome)
    returns (r: Result<State>)
    requires runner.Valid() && Drives(e, runner.m, runner.maxRows) && |s.history| == s.pos + 1
    requires !runner.quarantined && runner.verifyRows == 0 && runner.held == s.history[..s.pos]
    modifies runner
    ensures runner.Valid()
    ensures r.Ok? ==> !runner.quarantined && runner.verifyRows == 0
    ensures r.Ok? ==> Speculation.Settled(e, c, s, drafts, forced, logits) == Advanced(r.value)
    ensures r.Ok? ==> |r.value.history| == r.value.pos + 1 && runner.held == r.value.history[..r.value.pos]
    ensures r.Ok? ==> s.out.tokens <= r.value.out.tokens && r.value.history == s.history + r.value.out.tokens[|s.out.tokens|..]
    ensures r.Ok? ==> Adds(s, r.value)
    ensures r.Err? ==> || Speculation.Settled(e, c, s, drafts, forced, logits).Failed? || !job.Done?
                       || |s.history| + |drafts| > e.context
                       || |drafts| > e.draftRows
                       || !Fits(runner.m, AllSaves(runner.m, s.pos, |drafts| + 1), runner.capacity, runner.snapshotBytes)
  {
    hide runner.Valid, Kept, Judged, AllSaves, Fits, Adds;
    var verdict := VerifyAndAccept(runner, e, c, s, drafts, job);
    if verdict.Err? { return Err(verdict.error); }
    var (rows, m, next) := verdict.value;
    KeptShape(s, drafts, rows, forced, m, next, logits);
    var t := Record(s, drafts, rows, forced, m, next, logits);
    return Ok(t);
  }

  /** One turn of speculation: draft, verify, judge, accept. The runner then stands for the history
      before the new anchor. */
  method Turn(runner: Runner, e: Engine, c: Chooser, f: Forcing, count: nat, s: State, job: Outcome)
    returns (r: Result<Option<State>>)
    requires ValidEngine(e) && ValidForcing(f) && runner.Valid() && Drives(e, runner.m, runner.maxRows)
    requires |s.history| == s.pos + 1 && |s.out.tokens| < count
    requires !runner.quarantined && runner.verifyRows == 0 && runner.held == s.history[..s.pos]
    modifies runner
    ensures runner.Valid()
    ensures r.Ok? ==> !runner.quarantined && runner.verifyRows == 0
    ensures r.Ok? ==> Advance(e, c, f, count, s) == if r.value.Some? then Advanced(r.value.value) else Stopped
    ensures r.Ok? ==> var t := if r.value.Some? then r.value.value else s;
                      && |t.history| == t.pos + 1 && runner.held == t.history[..t.pos]
                      && s.out.tokens <= t.out.tokens && t.history == s.history + t.out.tokens[|s.out.tokens|..]
    ensures r.Ok? && r.value.Some? ==> Adds(s, r.value.value)
    ensures r.Err? ==> || Advance(e, c, f, count, s).Failed? || (Advance(e, c, f, count, s).Advanced? && !job.Done?)
                       || Deep(e, f) || SnapshotShort(runner.m, runner.maxRows, runner.capacity, runner.snapshotBytes)
  {
    DraftedAtMost(e, f, |s.out.steps|, s.history);
    hide runner.Valid, Offered, Verified, ValidEngine, ValidForcing, Speculation.Settled, AllSaves, Fits, Deep, Adds;
    if s.pos + e.draftRows > e.context { return Err("the drafts would pass the context"); }
    var offered := Propose(e, f, |s.out.steps|, s.history);
    if offered.None? { return Ok(None); }
    var drafts, forced := Limit(e, f, count, s, offered.value);
    var t := Settle(runner, e, c, s, drafts, forced, f.logits || c.Sampler?, job);
    if t.Err? { return Err(t.error); }
    return Ok(Some(t.value));
  }

  /** The device's state: its cache and its recurrent state. */
  datatype Device = Device(cache: map<Loc, Word>, recurrent: Word)

  /** The state that decoding some tokens one by one leaves. */
  function DeviceOf(m: Model, prefix: seq<Token>): Device {
    Device(map l | l in Locs(m) :: At(m, l, prefix), LiveState.Recurrent(m, prefix))
  }

  lemma HeldDevice(m: Model, memory: map<Loc, Word>, recurrent: Word, prefix: seq<Token>)
    requires LiveState.Holds(m, memory, prefix) && recurrent == LiveState.Recurrent(m, prefix)
    ensures Device(memory, recurrent) == DeviceOf(m, prefix)
  {
  }

  /** Reads the device's state, which first runs what is owed. */
  method ReadState(runner: Runner, job: Outcome) returns (r: Result<Device>)
    requires runner.Valid() && !runner.quarantined && runner.verifyRows == 0
    modifies runner
    ensures runner.Valid() && runner.held == old(runner.held) && runner.verifyRows == 0
    ensures r.Ok? ==> !runner.quarantined && r.value == Device(runner.memory, runner.recurrent)
    ensures r.Ok? ==> r.value == DeviceOf(runner.m, runner.held)
    ensures r.Err? ==> !job.Done?
  {
    hide runner.Valid, DeviceOf, LiveState.Holds, LiveState.Recurrent;
    var settled := runner.Rollback(job);
    if settled.Err? { return Err(settled.error); }
    if !job.Done? { return Err("reading the state"); }
    HeldDevice(runner.m, runner.memory, runner.recurrent, runner.held);
    return Ok(Device(runner.memory, runner.recurrent));
  }

  /** A turn, and what is read of the state after it: nothing after the last, if the run is not to be settled. */
  method Proceed(runner: Runner, e: Engine, c: Chooser, f: Forcing, count: nat, s: State, fingerprint: bool, settle: bool,
                 job: Outcome, fetch: Outcome)
    returns (r: Result<Option<(State, Option<Device>)>>)
    requires ValidEngine(e) && ValidForcing(f) && runner.Valid() && Drives(e, runner.m, runner.maxRows)
    requires |s.history| == s.pos + 1 && |s.out.tokens| < count
    requires !runner.quarantined && runner.verifyRows == 0 && runner.held == s.history[..s.pos]
    modifies runner
    ensures runner.Valid()
    ensures r.Ok? ==> !runner.quarantined && runner.verifyRows == 0
    ensures r.Ok? ==> Advance(e, c, f, count, s) == if r.value.Some? then Advanced(r.value.value.0) else Stopped
    ensures r.Ok? && r.value.None? ==> runner.held == s.history[..s.pos]
    ensures r.Ok? && r.value.Some? ==>
        var (t, state) := r.value.value;
        && |t.history| == t.pos + 1 && runner.held == t.history[..t.pos]
        && s.out.tokens <= t.out.tokens && t.history == s.history + t.out.tokens[|s.out.tokens|..] && Adds(s, t)
        && (state.Some? <==> fingerprint && (settle || Goes(f, count, t)))
        && (state.Some? ==> state.value == DeviceOf(runner.m, t.history[..t.pos]))
    ensures r.Err? ==>
        || Advance(e, c, f, count, s).Failed? || Deep(e, f)
        || SnapshotShort(runner.m, runner.maxRows, runner.capacity, runner.snapshotBytes)
        || (Advance(e, c, f, count, s).Advanced? && (!job.Done? || (fingerprint && !fetch.Done?)))
  {
    hide Advance, DeviceOf, runner.Valid, SnapshotShort, Deep, Adds, ValidEngine, ValidForcing;
    var turn := Turn(runner, e, c, f, count, s, job);
    if turn.Err? { return Err(turn.error); }
    if turn.value.None? { return Ok(None); }
    var t := turn.value.value;
    var last := |t.out.tokens| >= count || |t.out.steps| >= f.maxSteps;
    if fingerprint && (settle || !last) {
      var read := ReadState(runner, fetch);
      if read.Err? { return Err(read.error); }
      return Ok(Some((t, Some(read.value))));
    }
    return Ok(Some((t, None)));
  }

  /** The states read after the steps of a run: each is that of the tokens the step left held. The last is read only if
      the run is to be settled. */
  ghost predicate Fingerprinted(m: Model, history: seq<Token>, steps: seq<Step>, states: seq<Option<Device>>, n: nat) {
    && |states| == |steps| && n <= |steps|
    && (forall i | 0 <= i < |steps| :: EndOf(steps[i]) <= |history|)
    && (forall i | 0 <= i < n :: states[i] == Some(DeviceOf(m, history[..EndOf(steps[i])])))
  }

  lemma FingerprintedMore(m: Model, s: State, t: State, states: seq<Option<Device>>, state: Option<Device>, n: nat)
    requires Fingerprinted(m, s.history, s.out.steps, states, n) && s.history <= t.history && Adds(s, t) && t.pos <= |t.history|
    ensures |t.out.steps| == |s.out.steps| + 1 && Fingerprinted(m, t.history, t.out.steps, states + [state], n)
    ensures n == |s.out.steps| && state == Some(DeviceOf(m, t.history[..t.pos])) ==>
              Fingerprinted(m, t.history, t.out.steps, states + [state], n + 1)
  {
    hide DeviceOf;
    forall i | 0 <= i < |s.out.steps|
      ensures t.out.steps[i] == s.out.steps[i]
      ensures s.history[..EndOf(s.out.steps[i])] == t.history[..EndOf(s.out.steps[i])]
    {
      assert t.out.steps[..|s.out.steps|][i] == t.out.steps[i];
    }
  }

  /** A job of a run that took some steps did not run: a step's verify, a step's reading of the state, or the settling. */
  ghost predicate JobFailed(steps: nat, fingerprint: bool, settle: bool, jobs: nat -> Outcome, fetches: nat -> Outcome) {
    || (exists i: nat :: i < steps && (!jobs(i).Done? || (fingerprint && !fetches(i).Done?)))
    || (settle && !fetches(steps).Done?)
  }

  lemma JobAt(steps: nat, fingerprint: bool, settle: bool, jobs: nat -> Outcome, fetches: nat -> Outcome, i: nat)
    requires i < steps && (!jobs(i).Done? || (fingerprint && !fetches(i).Done?))
    ensures JobFailed(steps, fingerprint, settle, jobs, fetches)
  {
  }

  lemma TurnFailed(whole: Result<Generation>, step: Progress, i: nat, fingerprint: bool, settle: bool, jobs: nat -> Outcome,
                   fetches: nat -> Outcome)
    requires step.Advanced? && whole.Ok? ==> i < |whole.value.steps|
    ensures step.Advanced? && whole.Ok? && (!jobs(i).Done? || (fingerprint && !fetches(i).Done?)) ==>
              JobFailed(|whole.value.steps|, fingerprint, settle, jobs, fetches)
  {
    if step.Advanced? && whole.Ok? && (!jobs(i).Done? || (fingerprint && !fetches(i).Done?)) {
      JobAt(|whole.value.steps|, fingerprint, settle, jobs, fetches, i);
    }
  }

  lemma SettlingFailed(steps: nat, fingerprint: bool, jobs: nat -> Outcome, fetches: nat -> Outcome)
    requires !fetches(steps).Done?
    ensures JobFailed(steps, fingerprint, true, jobs, fetches)
  {
  }

  lemma NoneTaken(m: Model, history: seq<Token>)
    ensures Fingerprinted(m, history, [], [], 0)
  {
  }

  lemma Fewer(m: Model, history: seq<Token>, steps: seq<Step>, states: seq<Option<Device>>, n: nat, k: nat)
    requires Fingerprinted(m, history, steps, states, n) && k <= n
    ensures Fingerprinted(m, history, steps, states, k)
  {
  }

  // How far along its run a state of the loop is.
  lemma StepsReached(e: Engine, c: Chooser, f: Forcing, prompt: seq<Token>, count: nat, first: Logits, s: State)
    requires ValidEngine(e) && ValidForcing(f) && |s.history| == s.pos + 1
    requires Run(e, c, f, count, Start(c, f, prompt, first)) == Run(e, c, f, count, s)
    ensures var g := Speculated(e, c, f, prompt, count, first);
            && (g.Ok? ==> |s.out.steps| <= |g.value.steps|)
            && (!Goes(f, count, s) ==> g == Ok(Trimmed(s.out, count)))
    ensures Goes(f, count, s) ==>
            var g, step := Speculated(e, c, f, prompt, count, first), Advance(e, c, f, count, s);
            && (step.Failed? ==> g.Err?)
            && (step.Stopped? ==> g == Ok(Trimmed(s.out, count)))
            && (step.Advanced? ==> Run(e, c, f, count, s) == Run(e, c, f, count, step.state))
            && (step.Advanced? && g.Ok? ==> |s.out.steps| < |g.value.steps|)
  {
    hide Advance, Start;
    LockStep.StepsAppended(e, c, f, count, s);
    if Goes(f, count, s) && Advance(e, c, f, count, s).Advanced? {
      LockStep.AdvanceRecords(e, c, f, count, s);
      LockStep.StepsAppended(e, c, f, count, Advance(e, c, f, count, s).state);
    }
  }

  /** The loop: to the end of the run that `Speculated` describes, the runner standing for the tokens before the anchor. */
  method Loop(runner: Runner, e: Engine, c: Chooser, f: Forcing, prompt: seq<Token>, count: nat, first: Logits,
              fingerprint: bool, settle: bool, jobs: nat -> Outcome, fetches: nat -> Outcome)
    returns (r: Result<State>, states: seq<Option<Device>>)
    requires ValidEngine(e) && ValidForcing(f) && runner.Valid() && Drives(e, runner.m, runner.maxRows)
    requires !runner.quarantined && runner.verifyRows == 0 && runner.held == prompt
    modifies runner
    ensures runner.Valid()
    ensures r.Ok? ==> !runner.quarantined && runner.verifyRows == 0
    ensures r.Ok? ==> Speculated(e, c, f, prompt, count, first) == Ok(Trimmed(r.value.out, count))
    ensures r.Ok? ==> 1 <= |r.value.out.tokens| && (1 <= count ==> |r.value.out.tokens| <= count)
    ensures r.Ok? ==> runner.held == prompt + r.value.out.tokens[..|r.value.out.tokens| - 1]
    ensures r.Ok? && fingerprint ==>
              var (out, n) := (r.value.out, |r.value.out.steps|);
              Fingerprinted(runner.m, prompt + out.tokens, out.steps, states, if settle || n == 0 then n else n - 1)
    ensures r.Err? ==> || Speculated(e, c, f, prompt, count, first).Err? || Deep(e, f)
                       || SnapshotShort(runner.m, runner.maxRows, runner.capacity, runner.snapshotBytes)
                       || JobFailed(|Speculated(e, c, f, prompt, count, first).value.steps|, fingerprint, settle, jobs, fetches)
  {
    hide Advance, DeviceOf, runner.Valid, SnapshotShort, Deep, Adds, Fingerprinted, JobFailed, Run, Speculated;
    var s := Start(c, f, prompt, first);
    states := [];
    assert s.history[..s.pos] == prompt;
    hide Start, ValidEngine, ValidForcing, Drives, Choose;
    NoneTaken(runner.m, s.history);
    ghost var n := 0;
    while |s.out.tokens| < count && |s.out.steps| < f.maxSteps
      invariant |s.history| == s.pos + 1 && s.history == prompt + s.out.tokens
      invariant 1 <= |s.out.tokens| && (1 <= count ==> |s.out.tokens| <= count)
      invariant Run(e, c, f, count, Start(c, f, prompt, first)) == Run(e, c, f, count, s)
      invariant runner.Valid() && !runner.quarantined && runner.verifyRows == 0 && runner.held == s.history[..s.pos]
      invariant Fingerprinted(runner.m, s.history, s.out.steps, states, n)
      invariant fingerprint && (settle || Goes(f, count, s)) ==> n == |s.out.steps|
      invariant fingerprint ==> |s.out.steps| <= n + 1
      decreases count - |s.out.tokens|
    {
      StepsReached(e, c, f, prompt, count, first, s);
      ghost var taken := n;
      var index := |s.out.steps|;
      var turn := Proceed(runner, e, c, f, count, s, fingerprint, settle, jobs(index), fetches(index));
      if turn.Err? {
        TurnFailed(Speculated(e, c, f, prompt, count, first), Advance(e, c, f, count, s), index, fingerprint, settle, jobs, fetches);
        return Err(turn.error), states;
      }
      if turn.value.None? { break; }
      var (next, state) := turn.value.value;
      if state.Some? { n := n + 1; }
      FingerprintedMore(runner.m, s, next, states, state, taken);
      s, states := next, states + [state];
    }
    StepsReached(e, c, f, prompt, count, first, s);
    assert s.history[..s.pos] == prompt + s.out.tokens[..|s.out.tokens| - 1];
    if fingerprint {
      ghost var steps := |s.out.steps|;
      Fewer(runner.m, s.history, s.out.steps, states, n, if settle || steps == 0 then steps else steps - 1);
    }
    return Ok(s), states;
  }

  /** Speculation on the runner: the generation `Speculated` describes, and the device left with the
      state of the prompt and every token but the last, as plain decoding leaves it; settled, in memory
      and not only owed. What is read of the state after a step is that of the tokens held then. */
  method Speculate(runner: Runner, e: Engine, c: Chooser, f: Forcing, prompt: seq<Token>, count: nat, first: Logits,
                   fingerprint: bool, settle: bool, jobs: nat -> Outcome, fetches: nat -> Outcome)
    returns (r: Result<Generation>, states: seq<Option<Device>>)
    requires ValidEngine(e) && ValidForcing(f) && runner.Valid() && Drives(e, runner.m, runner.maxRows)
    requires !runner.quarantined && runner.verifyRows == 0 && runner.held == prompt
    modifies runner
    ensures runner.Valid()
    ensures r.Ok? ==> r == Speculated(e, c, f, prompt, count, first)
    ensures r.Err? ==> || Speculated(e, c, f, prompt, count, first).Err? || Deep(e, f)
                       || SnapshotShort(runner.m, runner.maxRows, runner.capacity, runner.snapshotBytes)
                       || JobFailed(|Speculated(e, c, f, prompt, count, first).value.steps|, fingerprint, settle, jobs, fetches)
    ensures r.Ok? && 1 <= count ==>
        1 <= |r.value.tokens| && runner.held == prompt + r.value.tokens[..|r.value.tokens| - 1]
    ensures r.Ok? && 1 <= count && fingerprint ==>
        var n := |r.value.steps|;
        Fingerprinted(runner.m, prompt + r.value.tokens, r.value.steps, states, if settle || n == 0 then n else n - 1)
    ensures r.Ok? && settle ==>
        !runner.quarantined && Device(runner.memory, runner.recurrent) == DeviceOf(runner.m, runner.held)
  {
    hide Advance, DeviceOf, runner.Valid, SnapshotShort, Deep, Fingerprinted, JobFailed, Run, Speculated, ValidEngine,
         ValidForcing, Drives, Start, LiveState.Holds, LiveState.Recurrent;
    var end;
    end, states := Loop(runner, e, c, f, prompt, count, first, fingerprint, settle, jobs, fetches);
    if end.Err? { return Err(end.error), states; }
    var s := end.value;
    if settle {
      var settled := runner.Rollback(fetches(|s.out.steps|));
      if settled.Err? {
        SettlingFailed(|s.out.steps|, fingerprint, jobs, fetches);
        return Err(settled.error), states;
      }
      HeldDevice(runner.m, runner.memory, runner.recurrent, runner.held);
    }
    return Ok(Trimmed(s.out, count)), states;
  }
}
