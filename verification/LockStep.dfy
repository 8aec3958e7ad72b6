/** A run with forced rejections and its control stay in lock step (benchmarks/qwen38_spec.cc, the
    forced check): the control repeats the drafts on record, another token in the place of each one that was
    spoiled and rejected, and still takes the same steps. */
module LockStep {
  import opened Arithmetic
  import opened Results
  import opened Speculation
  import opened Lossless

  /** Two steps that the target saw alike: the same place, rows, verdict and next token. */
  ghost predicate Alike(a: Step, b: Step) {
    a.pos == b.pos && a.rows == b.rows && a.kept == b.kept && a.next == b.next
  }

  ghost predicate Locked(a: State, b: State) {
    && a.pos == b.pos && a.history == b.history && a.out.tokens == b.out.tokens
    && |a.out.steps| == |b.out.steps|
    && (forall i | 0 <= i < |a.out.steps| :: Alike(a.out.steps[i], b.out.steps[i]))
  }

  /** Drafts that agree with another list up to its verdict, and are still wrong where it was
      rejected, get the same verdict. */
  lemma SameJudgement(e: Engine, c: Chooser, s: State, a: seq<Token>, b: seq<Token>)
    requires Coherent(c) && |s.history| == s.pos + 1 && |a| == |b|
    requires var (m, next) := JudgedOf(e, c, s, a); a[..m] == b[..m] && (m < |b| ==> b[m] != next)
    ensures Judged(e, c, s, b).Ok? && Judged(e, c, s, b).value == JudgedOf(e, c, s, a)
  {
    hide Judgement, Coherent, Rows;
    var rowsA, rowsB := Rows(e, s.history + a, s.pos), Rows(e, s.history + b, s.pos);
    JudgedLongest(c, rowsA, a, s.pos, 0);
    JudgedLongest(c, rowsB, b, s.pos, 0);
    var (m, next) := JudgedOf(e, c, s, a);
    var (n, other) := Judged(e, c, s, b).value;
    forall i | 0 <= i <= m ensures rowsA[i] == rowsB[i] {
      SameRow(e, s, a, b, m, i);
    }
  }

  lemma SameRow(e: Engine, s: State, a: seq<Token>, b: seq<Token>, m: nat, i: nat)
    requires |s.history| == s.pos + 1 && i <= m <= |a| == |b| && a[..m] == b[..m]
    ensures Rows(e, s.history + a, s.pos)[i] == Rows(e, s.history + b, s.pos)[i]
  {
    assert a[..i] == a[..m][..i] == b[..m][..i] == b[..i];
    assert (s.history + a)[..s.pos + i + 1] == s.history + a[..i];
    assert (s.history + b)[..s.pos + i + 1] == s.history + b[..i];
  }

  // A coherent judgement, which always succeeds.
  function JudgedOf(e: Engine, c: Chooser, s: State, drafts: seq<Token>): (r: (nat, Token))
    requires |s.history| == s.pos + 1
    ensures r.0 <= |drafts|
  {
    var judged := Judged(e, c, s, drafts);
    if judged.Ok? then judged.value else (0, 0)
  }

  // The next token ID wraps at the vocabulary.
  lemma AfterWraps(e: Engine, d: Token)
    requires 1 <= e.vocab <= 0x8000_0000
    ensures 0 <= After(e, d) < e.vocab
    ensures 0 <= d < e.vocab ==> After(e, d) == if d + 1 == e.vocab then 0 else d + 1
  {
    if 0 <= d < e.vocab {
      if d + 1 == e.vocab { Remainder(d + 1, e.vocab, 1, 0); } else { Remainder(d + 1, e.vocab, 0, d + 1); }
    }
  }

  /** The token a control puts in place of a forced draft `d` that the verify rejected for `next`
      is wrong too. It is another token than `d` exactly when the vocabulary has a third. */
  lemma WrongDifferently(e: Engine, d: Token, next: Token)
    requires 1 <= e.vocab <= 0x8000_0000 && 0 <= d < e.vocab && 0 <= next && d != next
    ensures var other := if After(e, d) == next then After(e, After(e, d)) else After(e, d);
            other != next && (next < e.vocab ==> (other != d <==> 3 <= e.vocab))
  {
    AfterWraps(e, d);
    AfterWraps(e, After(e, d));
  }

  // -------------------------------------------------------------------------- the runs

  // A run only appends steps.
  lemma {:induction false} StepsAppended(e: Engine, c: Chooser, f: Forcing, count: nat, s: State)
    requires ValidEngine(e) && ValidForcing(f) && |s.history| == s.pos + 1
    ensures var r := Run(e, c, f, count, s); r.Ok? ==> s.out.steps <= r.value.out.steps
    decreases count - |s.out.tokens|
  {
    if Goes(f, count, s) {
      var r := Advance(e, c, f, count, s);
      if r.Advanced? { StepsAppended(e, c, f, count, r.state); }
    }
  }

  // The step a turn records.
  ghost predicate Records(e: Engine, c: Chooser, s: State, step: Step) {
    && |s.history| == s.pos + 1
    && var judged := JudgedOf(e, c, s, step.drafts);
       && step == Step(s.pos, |step.drafts| + 1, judged.0 + 1, step.forced, judged.1, step.drafts)
       && -1 <= step.forced < |step.drafts|
       && (step.forced >= 0 ==> 0 <= step.drafts[step.forced] < e.vocab)
  }

  lemma AdvanceRecords(e: Engine, c: Chooser, f: Forcing, count: nat, s: State)
    requires ValidEngine(e) && ValidForcing(f)
    requires |s.history| == s.pos + 1 && |s.out.tokens| < count
    requires Advance(e, c, f, count, s).Advanced?
    ensures var t := Advance(e, c, f, count, s).state;
            var step := t.out.steps[|s.out.steps|];
            && t.out.steps == s.out.steps + [step] && Records(e, c, s, step)
            && |s.out.tokens| + |step.drafts| + 1 <= count && s.pos + |step.drafts| + 1 <= e.context
            && s.pos + e.draftRows <= e.context
            && t == Kept(s, step.drafts, Rows(e, s.history + step.drafts, s.pos), step.forced, step.kept - 1, step.next,
                         f.logits || c.Sampler?)
  {
    hide Rows, Judgement, ValidForcing, Offered;
    var offered := Offered(e, f, |s.out.steps|, s.history).value;
    var rows := Least(|offered| + 1, count - |s.out.tokens|, e.context - s.pos);
    var (drafts, forced) := Verified(e, f, count, s, offered);
    if forced >= 0 {
      assert drafts[forced] == After(e, offered[..rows - 1][forced]);
      AfterWraps(e, offered[..rows - 1][forced]);
    }
  }

  // The control's drafts for a recorded step get the recorded verdict.
  lemma ReplayedAlike(e: Engine, c: Chooser, s: State, step: Step)
    requires ValidEngine(e) && Coherent(c) && Records(e, c, s, step)
    ensures var drafts := Replayed(e, step);
            && Judged(e, c, s, drafts).Ok? && Judged(e, c, s, drafts).value == JudgedOf(e, c, s, step.drafts)
            && drafts[..step.kept - 1] == step.drafts[..step.kept - 1]
  {
    hide Judgement;
    var (m, next) := JudgedOf(e, c, s, step.drafts);
    JudgedLongest(c, Rows(e, s.history + step.drafts, s.pos), step.drafts, s.pos, 0);
    Chosen(c, Rows(e, s.history + step.drafts, s.pos)[m], s.pos + m + 1);
    if step.forced == m { WrongDifferently(e, step.drafts[m], next); }
    SameJudgement(e, c, s, step.drafts, Replayed(e, step));
  }

  lemma Chosen(c: Chooser, row: Logits, at: nat)
    requires Coherent(c)
    ensures 0 <= Choose(c, row, at)
  {
    if c.Sampler? { assert CoherentAt(c, row, 0, at); }
  }

  // A control's drafts are verified as recorded: the limits cut nothing and nothing is forced.
  lemma ControlVerified(e: Engine, g: Forcing, count: nat, s: State, drafts: seq<Token>)
    requires ValidEngine(e) && g.wrong.None?
    requires |s.out.tokens| + |drafts| + 1 <= count && s.pos + |drafts| + 1 <= e.context
    ensures Verified(e, g, count, s, drafts) == (drafts, -1)
  {
    assert drafts[..|drafts|] == drafts;
  }

  // A turn of the run and the turn of its control that follows it.
  lemma AdvanceLocked(e: Engine, c: Chooser, f: Forcing, g: Forcing, count: nat, a: State, b: State, next: State, step: Step)
    requires ValidEngine(e) && ValidForcing(f) && ValidForcing(g) && Coherent(c)
    requires |a.history| == a.pos + 1 && |a.out.tokens| < count && Locked(a, b)
    requires Advance(e, c, f, count, a) == Advanced(next) && step == next.out.steps[|a.out.steps|]
    requires g.wrong.None? && g.control.Some? && |a.out.steps| < |g.control.value|
    requires g.control.value[|a.out.steps|] == step
    ensures var t := Advance(e, c, g, count, b); t.Advanced? && Locked(next, t.state)
  {
    hide Judged, Verified, Replayed, Coherent, JudgedOf, ValidForcing, Kept, Rows;
    AdvanceRecords(e, c, f, count, a);
    ReplayedAlike(e, c, a, step);
    var drafts := Replayed(e, step);
    ControlVerified(e, g, count, b, drafts);
    SameJudged(e, c, a, b, drafts);
    KeptLocked(a, b, step.drafts, drafts, Rows(e, a.history + step.drafts, a.pos), Rows(e, b.history + drafts, b.pos),
               step.forced, step.kept - 1, step.next, f.logits || c.Sampler?, g.logits || c.Sampler?);
  }

  lemma KeptLocked(a: State, b: State, draftsA: seq<Token>, draftsB: seq<Token>, rowsA: seq<Logits>, rowsB: seq<Logits>,
                   forced: int, m: nat, next: Token, logitsA: bool, logitsB: bool)
    requires Locked(a, b) && m <= |draftsA| == |draftsB| && draftsA[..m] == draftsB[..m]
    requires |draftsA| < |rowsA| && |draftsA| < |rowsB|
    ensures Locked(Kept(a, draftsA, rowsA, forced, m, next, logitsA), Kept(b, draftsB, rowsB, -1, m, next, logitsB))
  {
  }

  /** The forced run and its control stay in lock step, for every target, drafter, window and
      forcing: the control succeeds, keeps the same tokens, and each of its steps has the same
      place, rows, verdict and next token. Only a run cut short where its next drafts would pass
      the context has a control that fails. */
  lemma {:induction false} ControlLocked(e: Engine, c: Chooser, f: Forcing, g: Forcing, count: nat, a: State, b: State,
                                         end: State)
    requires ValidEngine(e) && ValidForcing(f) && ValidForcing(g) && Coherent(c) && f.control.None?
    requires |a.history| == a.pos + 1 && Locked(a, b)
    requires Run(e, c, f, count, a) == Ok(end)
    requires g.wrong.None? && g.control == Some(end.out.steps) && |end.out.steps| < g.maxSteps
    ensures var r := Run(e, c, g, count, b);
            && (r.Ok? <==> count <= |end.out.tokens| || end.pos + e.draftRows <= e.context)
            && (r.Ok? ==> Locked(end, r.value))
    decreases count - |a.out.tokens|
  {
    if Goes(f, count, a) {
      var next := Advance(e, c, f, count, a).state;
      StepsAppended(e, c, f, count, a);
      StepsAppended(e, c, f, count, next);
      AdvanceRecords(e, c, f, count, a);
      AdvanceLocked(e, c, f, g, count, a, b, next, end.out.steps[|a.out.steps|]);
      ControlLocked(e, c, f, g, count, next, Advance(e, c, g, count, b).state, end);
    }
  }

  /** An engine that drafts nothing, with room for one token after a prompt of one. */
  function Narrow(): Engine {
    Engine(_ => [0.0, 0.0, 0.0], _ => Drafted([], []), 1, 2, 3, 0.0)
  }

  /** Such a run: cut after its one step it ends, and its control, asked for another, fails. */
  lemma ControlFails()
    ensures ValidEngine(Narrow())
    ensures var cut := Forcing(None, None, false, 1);
            var run := Speculated(Narrow(), Greedy, cut, [0], 3, [0.0, 0.0, 0.0]);
            && run.Ok? && |run.value.tokens| == 2 && ValidForcing(Forcing(None, Some(run.value.steps), false, 3))
            && Speculated(Narrow(), Greedy, Forcing(None, Some(run.value.steps), false, 3), [0], 3, [0.0, 0.0, 0.0]).Err?
  {
    var e, cut, first := Narrow(), Forcing(None, None, false, 1), [0.0, 0.0, 0.0];
    var a := Start(Greedy, cut, [0], first);
    assert Offered(e, cut, 0, a.history) == Some([]);
    assert Verified(e, cut, 3, a, []) == ([], -1);
    var b := Advance(e, Greedy, cut, 3, a).state;
    assert b.pos == 2 && |b.out.tokens| == 2 && |b.out.steps| == 1;
    assert Run(e, Greedy, cut, 3, b) == Ok(b);
    assert Run(e, Greedy, cut, 3, a) == Ok(b);
    AdvanceRecords(e, Greedy, cut, 3, a);
    var g := Forcing(None, Some(b.out.steps), false, 3);
    assert ValidForcing(g);
    hide Run, Advance;
    ControlLocked(e, Greedy, cut, g, 3, a, Start(Greedy, g, [0], first), b);
  }

  /** A whole forced generation and its control, as the check runs them. */
  lemma ForcedRunsMatch(e: Engine, c: Chooser, f: Forcing, g: Forcing, prompt: seq<Token>, count: nat, first: Logits)
    requires ValidEngine(e) && ValidForcing(f) && ValidForcing(g) && Coherent(c) && f.control.None?
    requires 1 <= count <= f.maxSteps + 1 && count <= g.maxSteps
    requires var forced := Speculated(e, c, f, prompt, count, first);
             forced.Ok? && g.wrong.None? && g.control == Some(forced.value.steps)
    ensures var forced := Speculated(e, c, f, prompt, count, first).value;
            var control := Speculated(e, c, g, prompt, count, first);
            && control.Ok? && control.value.tokens == forced.tokens
            && |control.value.steps| == |forced.steps|
            && (forall i | 0 <= i < |forced.steps| :: Alike(forced.steps[i], control.value.steps[i]))
  {
    var s := Start(c, f, prompt, first);
    var end := Run(e, c, f, count, s).value;
    RunLength(e, c, f, count, s);
    RunAccounted(e, c, f, count, prompt, s);
    AcceptsCounted(e, end.out.steps);
    ControlLocked(e, c, f, g, count, s, Start(c, g, prompt, first), end);
    RunLength(e, c, g, count, Start(c, g, prompt, first));
  }

  lemma {:induction false} AcceptsCounted(e: Engine, steps: seq<Step>)
    requires forall i | 0 <= i < |steps| :: StepInBounds(e, steps[i])
    ensures 0 <= Accepts(steps)
  {
    if steps != [] { AcceptsCounted(e, steps[..|steps| - 1]); }
  }
}
