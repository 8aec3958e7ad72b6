/** A speculative run stopped after any number of steps and resumed from its anchor is the uncut run
    (benchmarks/qwen38_spec.cc, the swap check). */
module CutResume {
  import opened Results
  import opened Speculation
  import opened Lossless

  /** The two halves put together, the anchor both hold once. */
  function Joined(before: Generation, after: Generation): Generation
    requires before.tokens != [] && before.logits != []
  {
    Generation(
      before.tokens[..|before.tokens| - 1] + after.tokens,
      before.logits[..|before.logits| - 1] + after.logits,
      before.steps + after.steps,
      before.drafted + after.drafted,
      before.accepted + after.accepted,
      before.verifies + after.verifies)
  }

  function JoinedState(before: Generation, s: State): State
    requires before.tokens != [] && before.logits != []
  {
    s.(out := Joined(before, s.out))
  }

  /** The resumed run forces, at each of its steps, what the uncut run forces `done` steps later. */
  ghost predicate Resumes(f: Forcing, g: Forcing, done: nat) {
    && f.control.None? && g.control.None? && f.logits && g.logits
    && (g.wrong.None? <==> f.wrong.None?)
    && (f.wrong.Some? ==> forall i: nat, pos: nat, rows: nat ::
          g.wrong.value(i, pos, rows) == f.wrong.value(i + done, pos, rows))
  }

  /** The runs' limits on steps stop them together: the resumed run may take as many steps as are left of the uncut
      run's, or neither limit is below the tokens asked for and so neither is reached. */
  predicate SameLimit(f: Forcing, g: Forcing, done: nat, count: nat, rest: int) {
    g.maxSteps + done == f.maxSteps || (count <= f.maxSteps && rest <= g.maxSteps)
  }

  // A step keeps a token at least.
  predicate FewerSteps(g: Generation) {
    |g.steps| < |g.tokens|
  }

  lemma AdvanceSteps(e: Engine, c: Chooser, f: Forcing, count: nat, s: State)
    requires ValidEngine(e) && ValidForcing(f)
    requires |s.history| == s.pos + 1 && |s.out.tokens| < count && FewerSteps(s.out)
    ensures var r := Advance(e, c, f, count, s); r.Advanced? ==> FewerSteps(r.state.out)
  {
    hide ValidEngine, ValidForcing, Offered, Judged, Verified;
  }

  lemma {:induction false} RunSteps(e: Engine, c: Chooser, f: Forcing, count: nat, s: State)
    requires ValidEngine(e) && ValidForcing(f) && |s.history| == s.pos + 1 && FewerSteps(s.out)
    ensures var r := Run(e, c, f, count, s); r.Ok? ==> FewerSteps(r.value.out)
    decreases count - |s.out.tokens|
  {
    hide ValidEngine, ValidForcing, Advance;
    if Goes(f, count, s) {
      AdvanceSteps(e, c, f, count, s);
      var r := Advance(e, c, f, count, s);
      if r.Advanced? { RunSteps(e, c, f, count, r.state); }
    }
  }

  // Both runs go on or neither does.
  lemma SameGoes(f: Forcing, g: Forcing, count: nat, before: Generation, s: State)
    requires before.tokens != [] && before.logits != [] && |before.tokens| <= count
    requires FewerSteps(before) && FewerSteps(s.out)
    requires SameLimit(f, g, |before.steps|, count, count - |before.tokens| + 1)
    ensures Goes(f, count, JoinedState(before, s)) <==> Goes(g, count - |before.tokens| + 1, s)
  {
  }

  // The drafts verified depend on the tokens left and the steps done, which agree.
  lemma SameVerified(e: Engine, f: Forcing, g: Forcing, count: nat, rest: nat, done: nat, a: State, b: State, offered: seq<Token>)
    requires ValidEngine(e) && Resumes(f, g, done)
    requires a.pos == b.pos < e.context && |a.out.steps| == |b.out.steps| + done
    requires 0 < count - |a.out.tokens| == rest - |b.out.tokens|
    ensures Verified(e, f, count, a, offered) == Verified(e, g, rest, b, offered)
  {
  }

  lemma SameOffered(e: Engine, f: Forcing, g: Forcing, i: nat, j: nat, history: seq<Token>)
    requires ValidEngine(e) && f.control.None? && g.control.None?
    ensures Offered(e, f, i, history) == Offered(e, g, j, history) && Offered(e, f, i, history).Some?
  {
  }

  /** A turn of the resumed run is the turn of the uncut run from the joined state. */
  lemma AdvanceJoined(e: Engine, c: Chooser, f: Forcing, g: Forcing, count: nat, before: Generation, s: State)
    requires ValidEngine(e) && ValidForcing(f) && ValidForcing(g)
    requires before.tokens != [] && before.logits != [] && Resumes(f, g, |before.steps|)
    requires |s.history| == s.pos + 1 && |before.tokens| - 1 + |s.out.tokens| < count
    ensures var r := Advance(e, c, g, count - |before.tokens| + 1, s);
            Advance(e, c, f, count, JoinedState(before, s))
            == if r.Advanced? then Advanced(JoinedState(before, r.state)) else r
  {
    assert 1 <= e.draftRows && f.control.None? && g.control.None? && f.logits && g.logits;
    var joined, rest := JoinedState(before, s), count - |before.tokens| + 1;
    assert joined.pos == s.pos && joined.history == s.history;
    assert |joined.out.steps| == |before.steps| + |s.out.steps|;
    assert |joined.out.tokens| == |before.tokens| - 1 + |s.out.tokens|;
    hide ValidEngine, ValidForcing, Resumes, Verified, Offered, Settled, JoinedState;
    SameOffered(e, f, g, |joined.out.steps|, |s.out.steps|, s.history);
    var offered := Offered(e, g, |s.out.steps|, s.history);
    if s.pos + e.draftRows <= e.context {
      SameVerified(e, f, g, count, rest, |before.steps|, joined, s, offered.value);
      var (drafts, forced) := Verified(e, g, rest, s, offered.value);
      SettledJoined(e, c, before, s, drafts, forced);
    }
  }

  // What a verify settles does not depend on how the tokens before its history were made.
  lemma SettledJoined(e: Engine, c: Chooser, before: Generation, s: State, drafts: seq<Token>, forced: int)
    requires before.tokens != [] && before.logits != [] && |s.history| == s.pos + 1
    ensures var r := Settled(e, c, s, drafts, forced, true);
            Settled(e, c, JoinedState(before, s), drafts, forced, true)
            == if r.Advanced? then Advanced(JoinedState(before, r.state)) else r
  {
    hide Kept, JoinedState, Judged, Rows;
    assert JoinedState(before, s).history == s.history && JoinedState(before, s).pos == s.pos by { JoinedPlace(before, s); }
    SameJudged(e, c, s, JoinedState(before, s), drafts);
    var judged := Judged(e, c, s, drafts);
    if judged.Ok? {
      KeptJoined(before, s, drafts, Rows(e, s.history + drafts, s.pos), forced, judged.value.0, judged.value.1);
    }
  }

  lemma JoinedPlace(before: Generation, s: State)
    requires before.tokens != [] && before.logits != []
    ensures JoinedState(before, s).history == s.history && JoinedState(before, s).pos == s.pos
  {
  }

  lemma KeptJoined(before: Generation, s: State, drafts: seq<Token>, rows: seq<Logits>, forced: int, m: nat, next: Token)
    requires before.tokens != [] && before.logits != [] && m <= |drafts| < |rows|
    ensures Kept(JoinedState(before, s), drafts, rows, forced, m, next, true)
            == JoinedState(before, Kept(s, drafts, rows, forced, m, next, true))
  {
    Associates(before.tokens[..|before.tokens| - 1], s.out.tokens, drafts[..m] + [next]);
    Associates(before.logits[..|before.logits| - 1], s.out.logits, rows[..m + 1]);
    Associates(before.steps, s.out.steps, [Step(s.pos, |drafts| + 1, m + 1, forced, next, drafts)]);
  }

  lemma Associates<T>(a: seq<T>, b: seq<T>, c: seq<T>)
    ensures (a + b) + c == a + (b + c)
  {
  }

  lemma {:induction false} RunJoined(e: Engine, c: Chooser, f: Forcing, g: Forcing, count: nat, before: Generation, s: State)
    requires ValidEngine(e) && ValidForcing(f) && ValidForcing(g)
    requires before.tokens != [] && before.logits != [] && Resumes(f, g, |before.steps|)
    requires |s.history| == s.pos + 1 && |before.tokens| <= count && FewerSteps(before) && FewerSteps(s.out)
    requires SameLimit(f, g, |before.steps|, count, count - |before.tokens| + 1)
    ensures var r := Run(e, c, g, count - |before.tokens| + 1, s);
            Run(e, c, f, count, JoinedState(before, s)) == if r.Ok? then Ok(JoinedState(before, r.value)) else Err(r.error)
    decreases count - |s.out.tokens|
  {
    hide ValidEngine, ValidForcing, Resumes, SameLimit, FewerSteps, Advance;
    SameGoes(f, g, count, before, s);
    JoinedPlace(before, s);
    if Goes(g, count - |before.tokens| + 1, s) {
      AdvanceJoined(e, c, f, g, count, before, s);
      AdvanceSteps(e, c, g, count - |before.tokens| + 1, s);
      var r := Advance(e, c, g, count - |before.tokens| + 1, s);
      if r.Advanced? { RunJoined(e, c, f, g, count, before, r.state); }
    }
  }

  // Going on from where a run was cut gives the uncut run.
  lemma {:induction false} RunCut(e: Engine, c: Chooser, f: Forcing, cut: Forcing, count: nat, s: State)
    requires ValidEngine(e) && ValidForcing(f) && f.control.None?
    requires cut == f.(maxSteps := cut.maxSteps) && cut.maxSteps <= f.maxSteps
    requires |s.history| == s.pos + 1
    ensures var r := Run(e, c, cut, count, s); r.Ok? ==> |r.value.history| == r.value.pos + 1
    ensures var r := Run(e, c, cut, count, s);
            Run(e, c, f, count, s) == if r.Ok? then Run(e, c, f, count, r.value) else Err(r.error)
    decreases count - |s.out.tokens|
  {
    if Goes(cut, count, s) {
      var r := Advance(e, c, cut, count, s);
      assert r == Advance(e, c, f, count, s);
      if r.Advanced? { RunCut(e, c, f, cut, count, r.state); }
    }
  }

  // A run that keeps its logits has one row per token, the row the token was chosen from.
  ghost predicate Aligned(e: Engine, prompt: seq<Token>, g: Generation) {
    && |g.logits| == |g.tokens|
    && (forall i | 0 <= i < |g.tokens| :: g.logits[i] == e.target(prompt + g.tokens[..i]))
  }

  lemma KeptAligned(e: Engine, c: Chooser, prompt: seq<Token>, s: State, drafts: seq<Token>, forced: int, m: nat, next: Token)
    requires Faithful(e, c, prompt, s) && Aligned(e, prompt, s.out) && m <= |drafts|
    ensures Aligned(e, prompt, Kept(s, drafts, Rows(e, s.history + drafts, s.pos), forced, m, next, true).out)
  {
    var rows := Rows(e, s.history + drafts, s.pos);
    var g := Kept(s, drafts, rows, forced, m, next, true).out;
    forall i | 0 <= i < |g.tokens| ensures g.logits[i] == e.target(prompt + g.tokens[..i]) {
      if i < |s.out.tokens| {
        assert g.tokens[..i] == s.out.tokens[..i];
      } else {
        var j := i - |s.out.tokens|;
        assert g.logits[i] == rows[j];
        assert (s.history + drafts)[..s.pos + j + 1] == prompt + g.tokens[..i];
      }
    }
  }

  /** Every token of a run that keeps its logits stands beside the row it was chosen from. */
  lemma {:induction false} RunAligned(e: Engine, c: Chooser, f: Forcing, count: nat, prompt: seq<Token>, s: State)
    requires ValidEngine(e) && ValidForcing(f) && Coherent(c) && f.logits
    requires Faithful(e, c, prompt, s) && Aligned(e, prompt, s.out)
    ensures var r := Run(e, c, f, count, s); r.Ok? ==> Aligned(e, prompt, r.value.out)
    decreases count - |s.out.tokens|
  {
    if Goes(f, count, s) {
      AdvanceFaithful(e, c, f, count, prompt, s);
      var r := Advance(e, c, f, count, s);
      if r.Advanced? {
        var (drafts, forced) := Verified(e, f, count, s, Offered(e, f, |s.out.steps|, s.history).value);
        var judged := Judged(e, c, s, drafts);
        KeptAligned(e, c, prompt, s, drafts, forced, judged.value.0, judged.value.1);
        RunAligned(e, c, f, count, prompt, r.state);
      }
    }
  }

  /** The run resumed from a cut one: after the prompt and all its tokens but the anchor, with the
      anchor's own logits, for the tokens left and the anchor. */
  function Resumed(e: Engine, c: Chooser, g: Forcing, prompt: seq<Token>, count: nat, before: Generation): Result<Generation>
    requires ValidEngine(e) && ValidForcing(g)
    requires 1 <= |before.tokens| == |before.logits| <= count
  {
    var n := |before.tokens|;
    Speculated(e, c, g, prompt + before.tokens[..n - 1], count - n + 1, before.logits[n - 1])
  }

  /** Cut and resume composes: stop a run after any number of steps and resume it, the forcing moved
      on by the steps done. The two halves joined are the uncut run: its tokens, logits, steps and
      counters, or its failure. */
  lemma CutAndResumed(e: Engine, c: Chooser, f: Forcing, g: Forcing, prompt: seq<Token>, count: nat, steps: nat)
    requires ValidEngine(e) && ValidForcing(f) && ValidForcing(g) && Coherent(c)
    requires 1 <= count && steps <= f.maxSteps
    requires var before := Speculated(e, c, f.(maxSteps := steps), prompt, count, e.target(prompt));
             && before.Ok? && Resumes(f, g, |before.value.steps|)
             && SameLimit(f, g, |before.value.steps|, count, count - |before.value.tokens| + 1)
    ensures var before := Speculated(e, c, f.(maxSteps := steps), prompt, count, e.target(prompt)).value;
            1 <= |before.tokens| == |before.logits| <= count &&
            var after := Resumed(e, c, g, prompt, count, before);
            Speculated(e, c, f, prompt, count, e.target(prompt))
            == if after.Ok? then Ok(Joined(before, after.value)) else Err(after.error)
  {
    assert ValidForcing(f.(maxSteps := steps)) && g.logits;
    hide Run, Faithful, Aligned, Coherent, ValidEngine, ValidForcing, Joined, SameLimit;
    var end := CutState(e, c, f, prompt, count, steps);
    FromCut(e, c, f, g, prompt, count, end);
  }

  // From the cut on, the uncut run and the resumed one joined to what was cut.
  lemma FromCut(e: Engine, c: Chooser, f: Forcing, g: Forcing, prompt: seq<Token>, count: nat, end: State)
    requires ValidEngine(e) && ValidForcing(f) && ValidForcing(g) && Coherent(c) && Resumes(f, g, |end.out.steps|)
    requires |end.history| == end.pos + 1 && 1 <= |end.out.tokens| == |end.out.logits| <= count
    requires Faithful(e, c, prompt, end) && Aligned(e, prompt, end.out) && FewerSteps(end.out)
    requires SameLimit(f, g, |end.out.steps|, count, count - |end.out.tokens| + 1)
    ensures Trimmed(end.out, count) == end.out
    ensures var full := Run(e, c, f, count, end);
            var after := Resumed(e, c, g, prompt, count, end.out);
            && (full.Ok? <==> after.Ok?) && (full.Err? ==> full.error == after.error)
            && (full.Ok? ==> Trimmed(full.value.out, count) == Joined(end.out, after.value))
  {
    hide *;
    var n := |end.out.tokens|;
    var context, row := prompt + end.out.tokens[..n - 1], end.out.logits[n - 1];
    KeepsLogits(f, g, |end.out.steps|);
    AnchorRow(e, prompt, end.out);
    AnchorResumed(e, c, g, prompt, end);
    var again := Start(c, g, context, row);
    StartSteps(c, g, context, row);
    RunJoined(e, c, f, g, count, end.out, again);
    ResumedLengths(e, c, g, context, count - n + 1);
    ResumedIs(e, c, g, prompt, count, end.out);
    var r := Run(e, c, g, count - n + 1, again);
    JoinedUntrimmed(end.out, if r.Ok? then r.value.out else Generation([], [], [], 0, 0, 0), count);
    JoinedOut(end.out, if r.Ok? then r.value else again);
  }

  lemma KeepsLogits(f: Forcing, g: Forcing, done: nat)
    requires Resumes(f, g, done)
    ensures g.logits
  {
  }

  lemma AnchorRow(e: Engine, prompt: seq<Token>, g: Generation)
    requires Aligned(e, prompt, g) && g.tokens != []
    ensures |g.logits| == |g.tokens| && var n := |g.tokens|; g.logits[n - 1] == e.target(prompt + g.tokens[..n - 1])
  {
  }

  lemma StartSteps(c: Chooser, g: Forcing, context: seq<Token>, row: Logits)
    ensures var s := Start(c, g, context, row); |s.history| == s.pos + 1 && FewerSteps(s.out)
  {
  }

  lemma ResumedIs(e: Engine, c: Chooser, g: Forcing, prompt: seq<Token>, count: nat, before: Generation)
    requires ValidEngine(e) && ValidForcing(g)
    requires 1 <= |before.tokens| == |before.logits| <= count
    ensures var n := |before.tokens|;
            var start := Start(c, g, prompt + before.tokens[..n - 1], before.logits[n - 1]);
            && |start.history| == start.pos + 1
            && var r := Run(e, c, g, count - n + 1, start);
            Resumed(e, c, g, prompt, count, before) == if r.Ok? then Ok(Trimmed(r.value.out, count - n + 1)) else Err(r.error)
  {
    hide Run, ValidEngine, ValidForcing, Trimmed;
  }

  lemma JoinedOut(before: Generation, s: State)
    requires before.tokens != [] && before.logits != []
    ensures JoinedState(before, s).out == Joined(before, s.out)
  {
  }

  // Where the cut run stopped.
  lemma CutState(e: Engine, c: Chooser, f: Forcing, prompt: seq<Token>, count: nat, steps: nat) returns (end: State)
    requires ValidEngine(e) && ValidForcing(f) && Coherent(c)
    requires 1 <= count && steps <= f.maxSteps && f.control.None? && f.logits
    requires Run(e, c, f.(maxSteps := steps), count, Start(c, f, prompt, e.target(prompt))).Ok?
    ensures Run(e, c, f.(maxSteps := steps), count, Start(c, f, prompt, e.target(prompt))) == Ok(end)
    ensures |end.history| == end.pos + 1 && 1 <= |end.out.tokens| == |end.out.logits| <= count
    ensures Faithful(e, c, prompt, end) && Aligned(e, prompt, end.out) && FewerSteps(end.out)
    ensures var n := |end.out.tokens|; end.out.logits[n - 1] == e.target(prompt + end.out.tokens[..n - 1])
    ensures Run(e, c, f, count, Start(c, f, prompt, e.target(prompt))) == Run(e, c, f, count, end)
  {
    assert ValidForcing(f.(maxSteps := steps));
    hide Run, Coherent, ValidEngine, ValidForcing;
    var cut := f.(maxSteps := steps);
    var s := Start(c, f, prompt, e.target(prompt));
    end := Run(e, c, cut, count, s).value;
    assert prompt + s.out.tokens[..0] == prompt;
    RunCut(e, c, f, cut, count, s);
    RunFaithful(e, c, cut, count, prompt, s);
    RunLength(e, c, cut, count, s);
    RunSteps(e, c, cut, count, s);
    RunAligned(e, c, cut, count, prompt, s);
  }

  // The resumed run starts where the cut one ended.
  lemma AnchorResumed(e: Engine, c: Chooser, g: Forcing, prompt: seq<Token>, end: State)
    requires g.logits && Faithful(e, c, prompt, end) && Aligned(e, prompt, end.out)
    ensures var n := |end.out.tokens|;
            JoinedState(end.out, Start(c, g, prompt + end.out.tokens[..n - 1], end.out.logits[n - 1])) == end
  {
    var n := |end.out.tokens|;
    var context, anchor := prompt + end.out.tokens[..n - 1], end.out.tokens[n - 1];
    assert anchor == Choose(c, end.out.logits[n - 1], |context|);
    assert |end.out.logits| == n;
    hide Faithful, Aligned, Decoding, Choose;
    LastApart(end.out.tokens);
    LastApart(end.out.logits);
    assert context + [anchor] == prompt + end.out.tokens;
    assert end.out.steps + [] == end.out.steps;
  }

  lemma LastApart<T>(s: seq<T>)
    requires s != []
    ensures s[..|s| - 1] + [s[|s| - 1]] == s
  {
  }

  lemma NothingTrimmed(g: Generation, count: nat)
    requires |g.tokens| <= count && |g.logits| <= count
    ensures Trimmed(g, count) == g
  {
  }

  lemma JoinedUntrimmed(before: Generation, after: Generation, count: nat)
    requires 1 <= |before.tokens| == |before.logits| <= count
    requires |after.tokens| <= count - |before.tokens| + 1 && |after.logits| == |after.tokens|
    ensures Trimmed(before, count) == before && Trimmed(after, count - |before.tokens| + 1) == after
    ensures Trimmed(Joined(before, after), count) == Joined(before, after)
  {
    NothingTrimmed(before, count);
    NothingTrimmed(after, count - |before.tokens| + 1);
    NothingTrimmed(Joined(before, after), count);
  }

  // A run resumed from an anchor stays within its count, a row per token.
  lemma ResumedLengths(e: Engine, c: Chooser, g: Forcing, context: seq<Token>, rest: nat)
    requires ValidEngine(e) && ValidForcing(g) && Coherent(c) && g.logits && 1 <= rest
    ensures var r := Run(e, c, g, rest, Start(c, g, context, e.target(context)));
            r.Ok? ==> |r.value.out.logits| == |r.value.out.tokens| <= rest
  {
    var s := Start(c, g, context, e.target(context));
    assert context + s.out.tokens[..0] == context;
    RunLength(e, c, g, rest, s);
    RunAligned(e, c, g, rest, context, s);
  }
}
