/** Speculation with a sampler (benchmarks/qwen38_spec.cc, with src/execution/sampling.cc): the sampler's verdicts on
    drafts, through whole runs. Each token is drawn by two uniform numbers of its own position, and whatever was drafted
    there, the numbers that give a candidate are a part of all of them as large as the candidate's part of the weight. */
module SampledSpeculation {
  import opened Results
  import opened Speculation
  import opened Lossless
  import S = SpeculativeSampling

  /** The sampler: argmax at temperature 0, and otherwise the candidates it keeps of a row (none if it refuses), with the
      two uniform numbers it has for each position of a sequence. */
  datatype Sampling = Sampling(zero: bool, kept: Logits -> Option<seq<S.Candidate>>, accept: nat -> real, draw: nat -> real)

  ghost predicate ValidSampling(s: Sampling) {
    && (forall row :: s.kept(row).Some? ==> S.Valid(s.kept(row).value) && HasWeight(s.kept(row).value))
    && (forall at :: 0.0 <= s.accept(at) < 1.0 && 0.0 <= s.draw(at) < 1.0)
  }

  ghost predicate HasWeight(c: seq<S.Candidate>) {
    exists k :: 0 <= k < |c| && 0.0 < c[k].value
  }

  /** The verdict on a draft, and a token sampled, each at its position. */
  function SamplerOf(s: Sampling): Chooser {
    Sampler(
      (row: Logits, draft: Token, at: nat) =>
        if s.zero then Some(Verdict(Argmax(row) == draft, Argmax(row)))
        else if s.kept(row).None? then None
        else
          var v := S.Verdict(s.kept(row).value, draft, s.accept(at), s.draw(at));
          Some(Verdict(v.accepted, v.token)),
      (row: Logits, at: nat) =>
        if s.zero then Some(Argmax(row))
        else if s.kept(row).None? then None
        else Some(Plain(s.kept(row).value, s.draw(at))))
  }

  /** A plain draw. */
  function Plain(c: seq<S.Candidate>, u: real): Token {
    S.Drawn(c, S.Target(u, S.Weight(c, |c|, -1)), -1, 0, -1)
  }

  /** At temperature 0 the sampler only accepts what it would choose, so that speculation is lossless token by token. */
  lemma ZeroCoherent(s: Sampling)
    requires s.zero
    ensures Coherent(SamplerOf(s))
    ensures forall row, at: nat :: Choose(SamplerOf(s), row, at) == Argmax(row)
  {
    var c := SamplerOf(s);
    forall row: Logits, draft: Token, at: nat ensures CoherentAt(c, row, draft, at) { ZeroAt(s, row, draft, at); }
  }

  lemma ZeroAt(s: Sampling, row: Logits, draft: Token, at: nat)
    requires s.zero
    ensures SamplerOf(s).Sampler? && CoherentAt(SamplerOf(s), row, draft, at)
  {
    hide Argmax, S.Verdict, Plain;
    assert 0 <= Argmax(row);
  }

  // ---------------------------------------------------------------------------- one token

  /** Pairs of uniform numbers: the first in one interval, the second in another. */
  datatype Rectangle = Rectangle(accept: S.Interval, draw: S.Interval) {
    predicate Has(a: real, u: real) {
      accept.Has(a) && draw.Has(u)
    }

    function Area(): real {
      accept.Length() * draw.Length()
    }
  }

  const UNIT := S.Interval(0.0, 1.0)

  /** The pairs that give candidate `k`: if it was drafted, those that accept it; if another was, those that reject that
      one and draw `k` from the rest; if none was, those that draw it. */
  function Giving(c: seq<S.Candidate>, draft: Option<Token>, k: nat): Rectangle
    requires k < |c| && S.Weight(c, |c|, -1) != 0.0
    requires draft.Some? && c[k].id != draft.value ==> S.Weight(c, |c|, draft.value) != 0.0
  {
    if draft.None? then Rectangle(UNIT, S.Share(c, -1, k))
    else
      var p := S.WeightOf(c, draft.value) / S.Weight(c, |c|, -1);
      if c[k].id == draft.value then Rectangle(S.Interval(0.0, p), UNIT)
      else Rectangle(S.Interval(p, 1.0), S.Share(c, draft.value, k))
  }

  /** Whatever was drafted, that is a part of the unit square as large as the candidate's part of the weight. */
  lemma GivingArea(c: seq<S.Candidate>, draft: Option<Token>, k: nat)
    requires S.Valid(c) && k < |c| && 0.0 < c[k].value
    ensures 0.0 < S.Weight(c, |c|, -1)
    ensures draft.Some? && c[k].id != draft.value ==> 0.0 < S.Weight(c, |c|, draft.value)
    ensures Giving(c, draft, k).Area() == c[k].value / S.Weight(c, |c|, -1)
  {
    hide S.Weight, S.WeightOf, S.Share;
    var d := if draft.Some? then draft.value else -1;
    S.VerdictDistribution(c, d, k);
    S.ShareHas(c, 0.0, -1, k);
  }

  /** A token of a history was given by the numbers of its position: it is a candidate of its row that has weight, and it
      is any one such candidate if and only if those numbers are among the pairs that give that one. */
  ghost predicate Given(s: Sampling, e: Engine, history: seq<Token>, at: nat, draft: Option<Token>) {
    && at < |history| && s.kept(e.target(history[..at])).Some?
    && GivenBy(s.kept(e.target(history[..at])).value, draft, s.accept(at), s.draw(at), history[at])
  }

  ghost predicate GivenBy(c: seq<S.Candidate>, draft: Option<Token>, a: real, u: real, token: Token) {
    && S.Weight(c, |c|, -1) != 0.0 && (exists k :: 0 <= k < |c| && 0.0 < c[k].value && token == c[k].id)
    && forall k: nat {:trigger c[k]} | k < |c| && 0.0 < c[k].value ::
         && (draft.Some? && c[k].id != draft.value ==> S.Weight(c, |c|, draft.value) != 0.0)
         && (token == c[k].id <==> Giving(c, draft, k).Has(a, u))
  }

  lemma VerdictGiven(c: seq<S.Candidate>, draft: Token, a: real, u: real)
    requires S.Valid(c) && HasWeight(c) && 0.0 <= a < 1.0 && 0.0 <= u < 1.0
    ensures GivenBy(c, Some(draft), a, u, S.Verdict(c, draft, a, u).token)
  {
    hide S.Weight, S.WeightOf, S.Share, S.Verdict, S.Valid;
    var some :| 0 <= some < |c| && 0.0 < c[some].value;
    S.AcceptedIs(c, draft, a, u, some);
    forall k: nat | k < |c| && 0.0 < c[k].value
      ensures c[k].id != draft ==> S.Weight(c, |c|, draft) != 0.0
      ensures S.Verdict(c, draft, a, u).token == c[k].id <==> Giving(c, Some(draft), k).Has(a, u)
    {
      S.VerdictGives(c, draft, a, u, k);
    }
  }

  lemma PlainGiven(c: seq<S.Candidate>, a: real, u: real)
    requires S.Valid(c) && HasWeight(c) && 0.0 <= a < 1.0 && 0.0 <= u < 1.0
    ensures GivenBy(c, None, a, u, Plain(c, u)) && 0 <= Plain(c, u)
  {
    var some :| 0 <= some < |c| && 0.0 < c[some].value;
    S.Totals(c, -1, some);
    hide S.Weight, S.WeightOf, S.Share, S.Drawn, S.Target;
    var total := S.Weight(c, |c|, -1);
    S.Scaled(u, total);
    var j := S.NeverSkipped(c, S.Target(u, total), -1);
    forall k: nat | k < |c| && 0.0 < c[k].value
      ensures Plain(c, u) == c[k].id <==> Giving(c, None, k).Has(a, u)
    {
      S.DrawInterval(c, u, -1, k);
    }
  }

  // ------------------------------------------------------------------------------ a step

  // What a step keeps, token by token.
  lemma KeptGiven(s: Sampling, rows: seq<Logits>, drafts: seq<Token>, pos: nat, n: nat, next: Token, i: nat)
    requires ValidSampling(s) && !s.zero && |rows| == |drafts| + 1 && Judges(SamplerOf(s), rows, drafts, pos, n, next) && i <= n
    ensures s.kept(rows[i]).Some?
    ensures GivenBy(s.kept(rows[i]).value, if i < |drafts| then Some(drafts[i]) else None, s.accept(pos + i + 1),
                    s.draw(pos + i + 1), if i < n then drafts[i] else next)
  {
    assert i < n ==> Passes(SamplerOf(s), rows[i], drafts[i], pos + i + 1);
    assert s.kept(rows[i]).Some?;
    var c, a, u := s.kept(rows[i]).value, s.accept(pos + i + 1), s.draw(pos + i + 1);
    assert S.Valid(c) && HasWeight(c);
    hide GivenBy, S.Drawn, S.Verdict, S.Weight;
    if i < |drafts| {
      VerdictGiven(c, drafts[i], a, u);
      var k :| 0 <= k < |c| && 0.0 < c[k].value;
      S.AcceptedIs(c, drafts[i], a, u, k);
    } else {
      PlainGiven(c, a, u);
    }
  }

  /** Each token a step keeps is given by the numbers of its own position, on the row of the tokens before it, against
      what was drafted there. */
  lemma StepGiven(s: Sampling, e: Engine, st: State, drafts: seq<Token>, i: nat)
    requires ValidSampling(s) && !s.zero && |st.history| == st.pos + 1 && Judged(e, SamplerOf(s), st, drafts).Ok?
    requires i <= Judged(e, SamplerOf(s), st, drafts).value.0
    ensures var (n, next) := Judged(e, SamplerOf(s), st, drafts).value;
            Given(s, e, st.history + drafts[..n] + [next], st.pos + 1 + i, if i < |drafts| then Some(drafts[i]) else None)
  {
    hide SamplerOf, ValidSampling, Judgement, Judges, GivenBy, Passes, Argmax;
    var rows := Rows(e, st.history + drafts, st.pos);
    var (n, next) := Judged(e, SamplerOf(s), st, drafts).value;
    JudgementIs(SamplerOf(s), rows, drafts, st.pos, 0);
    KeptGiven(s, rows, drafts, st.pos, n, next, i);
    hide Rows;
    var all := st.history + drafts[..n] + [next];
    assert rows[i] == e.target((st.history + drafts)[..st.pos + i + 1]);
    assert (st.history + drafts)[..st.pos + i + 1] == all[..st.pos + 1 + i];
    assert all[st.pos + 1 + i] == if i < n then drafts[i] else next;
  }

  // ------------------------------------------------------------------------------- a run

  /** What was drafted for each token of a run: nothing for the first, and for the one behind a step's last draft. */
  function DraftedFor(steps: seq<Step>): seq<Option<Token>> {
    if steps == [] then [None]
    else DraftedFor(steps[..|steps| - 1]) + StepDrafts(steps[|steps| - 1])
  }

  function StepDrafts(step: Step): seq<Option<Token>> {
    seq(step.kept, i requires 0 <= i => if i < |step.drafts| then Some(step.drafts[i]) else None)
  }

  /** Every token of a run was given by the numbers of its position; the first one, if the sampler took the prompt's row. */
  ghost predicate AllGiven(s: Sampling, e: Engine, prompt: seq<Token>, st: State) {
    && st.history == prompt + st.out.tokens && |st.history| == st.pos + 1 && 1 <= |st.out.tokens|
    && |DraftedFor(st.out.steps)| == |st.out.tokens|
    && forall i | 0 <= i < |st.out.tokens| && (0 < i || s.kept(e.target(prompt)).Some?) ::
         Given(s, e, st.history, |prompt| + i, DraftedFor(st.out.steps)[i])
  }

  lemma GivenStill(s: Sampling, e: Engine, history: seq<Token>, more: seq<Token>, at: nat, draft: Option<Token>)
    requires Given(s, e, history, at, draft)
    ensures Given(s, e, history + more, at, draft)
  {
    hide GivenBy;
    assert (history + more)[..at] == history[..at];
  }

  lemma StartGiven(s: Sampling, e: Engine, f: Forcing, prompt: seq<Token>)
    requires ValidSampling(s) && !s.zero
    ensures AllGiven(s, e, prompt, Start(SamplerOf(s), f, prompt, e.target(prompt)))
  {
    var row := e.target(prompt);
    var st := Start(SamplerOf(s), f, prompt, row);
    if s.kept(row).Some? {
      PlainGiven(s.kept(row).value, s.accept(|prompt|), s.draw(|prompt|));
      assert st.history[..|prompt|] == prompt;
    }
  }

  lemma KeptAllGiven(s: Sampling, e: Engine, prompt: seq<Token>, st: State, drafts: seq<Token>, forced: int, logits: bool)
    requires ValidSampling(s) && !s.zero && AllGiven(s, e, prompt, st) && Judged(e, SamplerOf(s), st, drafts).Ok?
    ensures var (n, next) := Judged(e, SamplerOf(s), st, drafts).value;
            AllGiven(s, e, prompt, Kept(st, drafts, Rows(e, st.history + drafts, st.pos), forced, n, next, logits))
  {
    hide Judged, Given, ValidSampling, SamplerOf;
    var (n, next) := Judged(e, SamplerOf(s), st, drafts).value;
    var t := Kept(st, drafts, Rows(e, st.history + drafts, st.pos), forced, n, next, logits);
    var more := drafts[..n] + [next];
    assert t.history == st.history + more == st.history + drafts[..n] + [next];
    assert t.out.steps[..|st.out.steps|] == st.out.steps;
    forall i | 0 <= i < |t.out.tokens| && (0 < i || s.kept(e.target(prompt)).Some?)
      ensures Given(s, e, t.history, |prompt| + i, DraftedFor(t.out.steps)[i])
    {
      if i < |st.out.tokens| {
        GivenStill(s, e, st.history, more, |prompt| + i, DraftedFor(st.out.steps)[i]);
      } else {
        StepGiven(s, e, st, drafts, i - |st.out.tokens|);
      }
    }
  }

  lemma AdvanceGiven(s: Sampling, e: Engine, f: Forcing, count: nat, prompt: seq<Token>, st: State)
    requires ValidEngine(e) && ValidForcing(f) && ValidSampling(s) && !s.zero
    requires AllGiven(s, e, prompt, st) && |st.out.tokens| < count
    ensures var r := Advance(e, SamplerOf(s), f, count, st); r.Advanced? ==> AllGiven(s, e, prompt, r.state)
  {
    hide Judged, Kept, Verified, AllGiven, ValidSampling, SamplerOf;
    assert |st.history| == st.pos + 1 by { Shaped(s, e, prompt, st); }
    var c := SamplerOf(s);
    var offered := Offered(e, f, |st.out.steps|, st.history);
    if st.pos + e.draftRows <= e.context && offered.Some? {
      var (drafts, forced) := Verified(e, f, count, st, offered.value);
      if Judged(e, c, st, drafts).Ok? { KeptAllGiven(s, e, prompt, st, drafts, forced, f.logits || c.Sampler?); }
    }
  }

  lemma Shaped(s: Sampling, e: Engine, prompt: seq<Token>, st: State)
    requires AllGiven(s, e, prompt, st)
    ensures |st.history| == st.pos + 1
  {
  }

  lemma {:induction false} RunGiven(s: Sampling, e: Engine, f: Forcing, count: nat, prompt: seq<Token>, st: State)
    requires ValidEngine(e) && ValidForcing(f) && ValidSampling(s) && !s.zero && AllGiven(s, e, prompt, st)
    ensures |st.history| == st.pos + 1
    ensures var r := Run(e, SamplerOf(s), f, count, st); r.Ok? ==> AllGiven(s, e, prompt, r.value)
    decreases count - |st.out.tokens|
  {
    hide AllGiven, ValidSampling, SamplerOf, Advance;
    Shaped(s, e, prompt, st);
    if Goes(f, count, st) {
      AdvanceGiven(s, e, f, count, prompt, st);
      var r := Advance(e, SamplerOf(s), f, count, st);
      if r.Advanced? { RunGiven(s, e, f, count, prompt, r.state); }
    }
  }

  /** Sampled speculation keeps the target's distribution. Through a whole generation, for every target, drafter, window
      and forcing, each token is a candidate of the row of the tokens before it, given by the two numbers of its own
      position: any one candidate by exactly the pairs `Giving` it, which are as large a part of all pairs as its weight
      is of the candidates' (`GivingArea`), whatever was drafted there. */
  lemma SampledLossless(s: Sampling, e: Engine, f: Forcing, prompt: seq<Token>, count: nat, i: nat)
    requires ValidEngine(e) && ValidForcing(f) && ValidSampling(s) && !s.zero && 1 <= count
    requires Speculated(e, SamplerOf(s), f, prompt, count, e.target(prompt)).Ok?
    ensures var g := Speculated(e, SamplerOf(s), f, prompt, count, e.target(prompt)).value;
            && |DraftedFor(g.steps)| == |g.tokens|
            && (i < |g.tokens| && (0 < i || s.kept(e.target(prompt)).Some?) ==>
                  Given(s, e, prompt + g.tokens, |prompt| + i, DraftedFor(g.steps)[i]))
  {
    var st := Start(SamplerOf(s), f, prompt, e.target(prompt));
    StartGiven(s, e, f, prompt);
    RunGiven(s, e, f, count, prompt, st);
    RunLength(e, SamplerOf(s), f, count, st);
    hide Given, ValidSampling, SamplerOf, Run;
  }
}
