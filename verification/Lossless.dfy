/** Speculation yields what plain decoding yields (benchmarks/qwen38_spec.cc). */
module Lossless {
  import opened Results
  import opened Speculation

  /** Every token is the target's choice on its own prefix: the reference that plain decoding,
      a teacher-forced check and speculation are all held to. */
  ghost predicate Decoding(e: Engine, c: Chooser, prompt: seq<Token>, tokens: seq<Token>) {
    forall i | 0 <= i < |tokens| :: tokens[i] == Choose(c, e.target(prompt + tokens[..i]), |prompt| + i)
  }

  /** The reference determines the tokens: of two decodings of a prompt, the shorter is a prefix
      of the longer. */
  lemma {:induction false} DecodingUnique(e: Engine, c: Chooser, prompt: seq<Token>, a: seq<Token>, b: seq<Token>)
    requires Decoding(e, c, prompt, a) && Decoding(e, c, prompt, b) && |a| <= |b|
    ensures a == b[..|a|]
  {
    if a != [] {
      var n := |a| - 1;
      forall i | 0 <= i < n ensures a[..n][i] == Choose(c, e.target(prompt + a[..n][..i]), |prompt| + i) {
        assert a[..n][..i] == a[..i];
      }
      DecodingUnique(e, c, prompt, a[..n], b);
      assert a[..n] == b[..n];
      assert a[n] == b[n];
    }
  }

  // -------------------------------------------------------------------- one judgement

  /** A coherent chooser accepts exactly the longest prefix of drafts it would itself have
      chosen, row by row, and gives its own choice after them. */
  lemma {:induction false} JudgedLongest(c: Chooser, rows: seq<Logits>, drafts: seq<Token>, pos: nat, m: nat)
    requires Coherent(c) && |rows| == |drafts| + 1 && m <= |drafts|
    ensures Judgement(c, rows, drafts, pos, m).Ok?
    ensures var (n, next) := Judgement(c, rows, drafts, pos, m).value;
            && (forall i | m <= i < n :: drafts[i] == Choose(c, rows[i], pos + i + 1))
            && next == Choose(c, rows[n], pos + n + 1)
            && (n < |drafts| ==> drafts[n] != next)
    decreases |drafts| - m
  {
    if c.Sampler? {
      assert CoherentAt(c, rows[m], if m < |drafts| then drafts[m] else 0, pos + m + 1);
    }
    if m < |drafts| && drafts[m] == Choose(c, rows[m], pos + m + 1) {
      JudgedLongest(c, rows, drafts, pos, m + 1);
    }
  }

  // A judgement is of the history and the drafts, and of nothing else in the state.
  lemma SameJudged(e: Engine, c: Chooser, a: State, b: State, drafts: seq<Token>)
    requires |a.history| == a.pos + 1 && a.pos == b.pos && a.history == b.history
    ensures Judged(e, c, a, drafts) == Judged(e, c, b, drafts)
  {
  }

  // ------------------------------------------------------------------------- the loop

  /** What every turn keeps: the history is the prompt and then all that was generated, its last
      token at `pos`, and every token is the target's choice on its own prefix. */
  ghost predicate Faithful(e: Engine, c: Chooser, prompt: seq<Token>, s: State) {
    && s.out.tokens != []
    && s.history == prompt + s.out.tokens
    && s.pos + 1 == |s.history|
    && Decoding(e, c, prompt, s.out.tokens)
  }

  // Extending a decoding by accepted drafts and the next choice.
  lemma DecodingExtended(e: Engine, c: Chooser, prompt: seq<Token>, tokens: seq<Token>, more: seq<Token>)
    requires Decoding(e, c, prompt, tokens)
    requires forall j | 0 <= j < |more| ::
        more[j] == Choose(c, e.target(prompt + tokens + more[..j]), |prompt| + |tokens| + j)
    ensures Decoding(e, c, prompt, tokens + more)
  {
    var all := tokens + more;
    forall i | 0 <= i < |all| ensures all[i] == Choose(c, e.target(prompt + all[..i]), |prompt| + i) {
      if i < |tokens| {
        assert all[..i] == tokens[..i];
      } else {
        var j := i - |tokens|;
        assert prompt + all[..i] == prompt + tokens + more[..j];
        assert more[j] == Choose(c, e.target(prompt + tokens + more[..j]), |prompt| + |tokens| + j);
      }
    }
  }

  // What a coherent judgement keeps of any drafts is the target's choices after the history.
  lemma JudgedChoices(e: Engine, c: Chooser, s: State, drafts: seq<Token>)
    requires Coherent(c) && |s.history| == s.pos + 1
    ensures Judged(e, c, s, drafts).Ok?
    ensures var (m, next) := Judged(e, c, s, drafts).value;
            var more := drafts[..m] + [next];
            forall j | 0 <= j < |more| :: more[j] == Choose(c, e.target(s.history + more[..j]), s.pos + 1 + j)
  {
    hide Judgement, Coherent;
    JudgedLongest(c, Rows(e, s.history + drafts, s.pos), drafts, s.pos, 0);
    var (m, next) := Judged(e, c, s, drafts).value;
    var more := drafts[..m] + [next];
    forall j | 0 <= j < |more| ensures more[j] == Choose(c, e.target(s.history + more[..j]), s.pos + 1 + j) {
      assert (s.history + drafts)[..s.pos + j + 1] == s.history + more[..j];
    }
  }

  // Whatever drafts are verified, what a coherent judgement keeps of them extends the decoding.
  lemma KeptFaithful(e: Engine, c: Chooser, prompt: seq<Token>, s: State, drafts: seq<Token>, forced: int, logits: bool)
    requires Coherent(c) && Faithful(e, c, prompt, s)
    ensures Judged(e, c, s, drafts).Ok?
    ensures var (m, next) := Judged(e, c, s, drafts).value;
            Faithful(e, c, prompt, Kept(s, drafts, Rows(e, s.history + drafts, s.pos), forced, m, next, logits))
  {
    hide Judged, Decoding, Coherent;
    JudgedChoices(e, c, s, drafts);
    var (m, next) := Judged(e, c, s, drafts).value;
    var more := drafts[..m] + [next];
    DecodingExtended(e, c, prompt, s.out.tokens, more);
    assert s.history + more == prompt + (s.out.tokens + more);
  }

  lemma AdvanceFaithful(e: Engine, c: Chooser, f: Forcing, count: nat, prompt: seq<Token>, s: State)
    requires ValidEngine(e) && ValidForcing(f) && Coherent(c)
    requires Faithful(e, c, prompt, s) && |s.out.tokens| < count
    ensures var r := Advance(e, c, f, count, s);
            && (r.Advanced? ==> Faithful(e, c, prompt, r.state))
            && (r.Failed? ==> s.pos + e.draftRows > e.context)
  {
    hide Judged, Kept, Verified, Decoding;
    var offered := Offered(e, f, |s.out.steps|, s.history);
    if s.pos + e.draftRows <= e.context && offered.Some? {
      var (drafts, forced) := Verified(e, f, count, s, offered.value);
      KeptFaithful(e, c, prompt, s, drafts, forced, f.logits || c.Sampler?);
    }
  }

  lemma {:induction false} RunFaithful(e: Engine, c: Chooser, f: Forcing, count: nat, prompt: seq<Token>, s: State)
    requires ValidEngine(e) && ValidForcing(f) && Coherent(c) && Faithful(e, c, prompt, s)
    ensures var r := Run(e, c, f, count, s);
            r.Ok? ==> Faithful(e, c, prompt, r.value) && |s.out.tokens| <= |r.value.out.tokens|
    decreases count - |s.out.tokens|
  {
    if Goes(f, count, s) {
      AdvanceFaithful(e, c, f, count, prompt, s);
      var r := Advance(e, c, f, count, s);
      if r.Advanced? { RunFaithful(e, c, f, count, prompt, r.state); }
    }
  }

  // How far a run goes: never past `count`, and exactly to it unless it is stopped.
  lemma {:induction false} RunLength(e: Engine, c: Chooser, f: Forcing, count: nat, s: State)
    requires ValidEngine(e) && ValidForcing(f)
    requires |s.history| == s.pos + 1 && |s.out.tokens| <= count
    ensures var r := Run(e, c, f, count, s);
            && (r.Ok? ==> |r.value.out.tokens| <= count && |s.out.steps| <= |r.value.out.steps|)
            && (r.Ok? && f.control.None? && |s.out.steps| + count <= f.maxSteps + |s.out.tokens| ==>
                  |r.value.out.tokens| == count)
    decreases count - |s.out.tokens|
  {
    if Goes(f, count, s) {
      var r := Advance(e, c, f, count, s);
      if r.Advanced? { RunLength(e, c, f, count, r.state); }
    }
  }

  /** Greedy speculation is lossless. For every target, drafter, window, forcing and control, and
      every coherent chooser, a generation of `count` tokens that succeeds is a prefix of what
      plain decoding gives, and all of it unless the run was stopped. */
  lemma SpeculationLossless(e: Engine, c: Chooser, f: Forcing, prompt: seq<Token>, count: nat, plain: seq<Token>)
    requires ValidEngine(e) && ValidForcing(f) && Coherent(c)
    requires 1 <= count == |plain| && Decoding(e, c, prompt, plain)
    requires Speculated(e, c, f, prompt, count, e.target(prompt)).Ok?
    ensures var g := Speculated(e, c, f, prompt, count, e.target(prompt)).value;
            && 1 <= |g.tokens| <= count && g.tokens == plain[..|g.tokens|]
            && (f.control.None? && count <= f.maxSteps + 1 ==> g.tokens == plain)
  {
    var s := Start(c, f, prompt, e.target(prompt));
    assert prompt + s.out.tokens[..0] == prompt;
    RunFaithful(e, c, f, count, prompt, s);
    RunLength(e, c, f, count, s);
    var end := Run(e, c, f, count, s).value;
    DecodingUnique(e, c, prompt, end.out.tokens, plain);
  }

  /** Asked for no tokens, speculation gives none where plain decoding still gives one: the two
      agree exactly when at least one token is asked for. */
  lemma LosslessIffAsked(e: Engine, c: Chooser, f: Forcing, prompt: seq<Token>, count: nat, plain: seq<Token>)
    requires ValidEngine(e) && ValidForcing(f) && Coherent(c) && f.control.None? && count <= f.maxSteps + 1
    requires |plain| == (if count == 0 then 1 else count) && Decoding(e, c, prompt, plain)
    requires Speculated(e, c, f, prompt, count, e.target(prompt)).Ok?
    ensures Speculated(e, c, f, prompt, count, e.target(prompt)).value.tokens == plain <==> 1 <= count
  {
    if 1 <= count { SpeculationLossless(e, c, f, prompt, count, plain); }
  }

  // ------------------------------------------------------------------------ accounting

  function Drafts(steps: seq<Step>): int {
    if steps == [] then 0 else Drafts(steps[..|steps| - 1]) + steps[|steps| - 1].rows - 1
  }

  function Accepts(steps: seq<Step>): int {
    if steps == [] then 0 else Accepts(steps[..|steps| - 1]) + steps[|steps| - 1].kept - 1
  }

  /** A step keeps at least its anchor's row and no more than its rows, within the context and
      the drafter's depth, and starts where the step before it ended. */
  ghost predicate StepInBounds(e: Engine, step: Step) {
    && 1 <= step.kept <= step.rows == |step.drafts| + 1
    && step.pos + step.rows <= e.context && step.pos + e.draftRows <= e.context
    && -1 <= step.forced < |step.drafts|
  }

  // The step after step `i`, or the state after the last, is where step `i` ended.
  ghost predicate Follows(steps: seq<Step>, pos: nat, i: nat)
    requires i < |steps|
  {
    (if i + 1 < |steps| then steps[i + 1].pos else pos) == steps[i].pos + steps[i].kept
  }

  /** The counters agree with the steps recorded, and every token but the first was kept by one
      verify: an accepted draft or the verify's own. */
  ghost predicate Accounted(e: Engine, prompt: seq<Token>, s: State) {
    var g := s.out;
    && s.pos + 1 == |prompt| + |g.tokens|
    && g.verifies == |g.steps| && g.drafted == Drafts(g.steps) && g.accepted == Accepts(g.steps)
    && |g.tokens| == 1 + g.accepted + g.verifies
    && (forall i | 0 <= i < |g.steps| :: StepInBounds(e, g.steps[i]))
    && (forall i | 0 <= i < |g.steps| :: Follows(g.steps, s.pos, i))
    && (g.steps != [] ==> g.steps[0].pos == |prompt|)
  }

  lemma KeptAccounted(e: Engine, prompt: seq<Token>, s: State, drafts: seq<Token>, rows: seq<Logits>, forced: int,
                      m: nat, next: Token, logits: bool)
    requires Accounted(e, prompt, s) && m <= |drafts| < |rows| && -1 <= forced < |drafts|
    requires s.pos + |drafts| + 1 <= e.context && s.pos + e.draftRows <= e.context
    ensures Accounted(e, prompt, Kept(s, drafts, rows, forced, m, next, logits))
  {
    var n := |s.out.steps|;
    var g := Kept(s, drafts, rows, forced, m, next, logits).out;
    assert g.steps[..n] == s.out.steps;
    var pos := s.pos + m + 1;
    forall i | 0 <= i < |g.steps| ensures Follows(g.steps, pos, i) {
      if i < n { assert Follows(s.out.steps, s.pos, i); }
    }
  }

  lemma AdvanceAccounted(e: Engine, c: Chooser, f: Forcing, count: nat, prompt: seq<Token>, s: State)
    requires ValidEngine(e) && ValidForcing(f)
    requires |s.history| == s.pos + 1 && |s.out.tokens| < count && Accounted(e, prompt, s)
    ensures var r := Advance(e, c, f, count, s); r.Advanced? ==> Accounted(e, prompt, r.state)
  {
    hide Judged, Kept, Verified, Accounted;
    var offered := Offered(e, f, |s.out.steps|, s.history);
    if s.pos + e.draftRows <= e.context && offered.Some? {
      var (drafts, forced) := Verified(e, f, count, s, offered.value);
      var judged := Judged(e, c, s, drafts);
      if judged.Ok? {
        KeptAccounted(e, prompt, s, drafts, Rows(e, s.history + drafts, s.pos), forced, judged.value.0, judged.value.1,
                      f.logits || c.Sampler?);
      }
    }
  }

  /** Through every run, whatever the chooser, the counters and the steps agree and no step
      passes the context. */
  lemma {:induction false} RunAccounted(e: Engine, c: Chooser, f: Forcing, count: nat, prompt: seq<Token>, s: State)
    requires ValidEngine(e) && ValidForcing(f)
    requires |s.history| == s.pos + 1 && Accounted(e, prompt, s)
    ensures var r := Run(e, c, f, count, s); r.Ok? ==> Accounted(e, prompt, r.value)
    decreases count - |s.out.tokens|
  {
    if Goes(f, count, s) {
      AdvanceAccounted(e, c, f, count, prompt, s);
      var r := Advance(e, c, f, count, s);
      if r.Advanced? { RunAccounted(e, c, f, count, prompt, r.state); }
    }
  }

  /** A coherent run fails only for want of context: with room for the drafts of the last token's
      anchor it always succeeds. */
  lemma {:induction false} RunFits(e: Engine, c: Chooser, f: Forcing, count: nat, prompt: seq<Token>, s: State)
    requires ValidEngine(e) && ValidForcing(f) && Coherent(c) && Faithful(e, c, prompt, s)
    requires |prompt| + count - 2 + e.draftRows <= e.context
    ensures Run(e, c, f, count, s).Ok?
    decreases count - |s.out.tokens|
  {
    if Goes(f, count, s) {
      AdvanceFaithful(e, c, f, count, prompt, s);
      var r := Advance(e, c, f, count, s);
      if r.Advanced? { RunFits(e, c, f, count, prompt, r.state); }
    }
  }
}
