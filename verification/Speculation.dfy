/** Speculative decoding (benchmarks/qwen38_spec.cc): a drafter proposes tokens, one batched
    verify of the target judges them, the agreeing prefix is kept and the loop moves on.

    The target is a function of the tokens a row follows; that a verify's rows are that
    function's values is LiveState's result about the device state, given kernels that
    compute it. The drafter is any function of the history. */
module Speculation {
  import opened Results
  import LiveState

  type Token = LiveState.Token
  type Logits = LiveState.Logits

  // ------------------------------------------------------------------------- choosing

  /** The highest logit, the lowest index among equals; 0 for no logits. */
  function Argmax(row: Logits): (best: nat)
    ensures row != [] ==> best < |row|
    ensures forall i | 0 <= i < |row| :: row[i] <= row[best]
    ensures forall i | 0 <= i < best && best < |row| :: row[i] < row[best]
  {
    if |row| <= 1 then 0
    else
      var n := |row| - 1;
      var best := Argmax(row[..n]);
      assert forall i | 0 <= i < n :: row[i] == row[..n][i];
      if row[n] > row[best] then n else best
  }

  /** A sampler's verdict on a draft. */
  datatype Verdict = Verdict(accepted: bool, token: Token)

  /** How tokens are chosen: by argmax, or by a sampler keyed by the token's position. A
      sampler may refuse. */
  datatype Chooser =
    | Greedy
    | Sampler(verdict: (Logits, Token, nat) -> Option<Verdict>, sample: (Logits, nat) -> Option<Token>)

  function Choose(c: Chooser, row: Logits, at: nat): Token {
    match c
    case Greedy => Argmax(row)
    case Sampler(_, sample) => if sample(row, at).Some? then sample(row, at).value else -1
  }

  /** The sampler's verdict on every draft is whether the draft is what it would sample, and
      what it would sample otherwise. Greedy choice, and sampling at temperature 0, are. */
  ghost predicate Coherent(c: Chooser) {
    c.Sampler? ==> forall row: Logits, draft: Token, at: nat :: CoherentAt(c, row, draft, at)
  }

  ghost predicate CoherentAt(c: Chooser, row: Logits, draft: Token, at: nat)
    requires c.Sampler?
  {
    && c.sample(row, at).Some? && 0 <= c.sample(row, at).value
    && c.verdict(row, draft, at) == Some(Verdict(draft == c.sample(row, at).value, c.sample(row, at).value))
  }

  // -------------------------------------------------------------------------- records

  /** The engine under test: its target and drafter, and the run's options. */
  datatype Engine = Engine(
    target: seq<Token> -> Logits,
    drafter: seq<Token> -> Drafted,
    draftRows: nat,
    context: nat,
    vocab: nat,
    window: real)

  datatype Drafted = Drafted(tokens: seq<Token>, probabilities: seq<real>)

  ghost predicate ValidEngine(e: Engine) {
    && 1 <= e.draftRows
    && 1 <= e.vocab <= 0x8000_0000
    && (forall p :: |e.target(p)| == e.vocab)
    && (forall h :: |e.drafter(h).tokens| <= e.draftRows)
  }

  /** What a turn leaves on record. Its first row, at `pos`, is the token the turn starts from; `kept` counts that row
      and the drafts taken, `next` follows them, and `forced` is negative where no draft was tampered with. */
  datatype Step = Step(pos: nat, rows: nat, kept: nat, forced: int, next: Token, drafts: seq<Token>)

  datatype Generation = Generation(
    tokens: seq<Token>,
    logits: seq<Logits>,
    steps: seq<Step>,
    drafted: nat,
    accepted: nat,
    verifies: nat)

  /** What tampers with a run's drafts: `wrong` picks a position to spoil, `control` is a run to repeat with other
      tokens in its spoiled places. */
  datatype Forcing = Forcing(
    wrong: Option<(nat, nat, nat) -> int>,
    control: Option<seq<Step>>,
    logits: bool,
    maxSteps: nat)

  ghost predicate ValidForcing(f: Forcing) {
    f.control.Some? ==> forall i | 0 <= i < |f.control.value| :: ValidControl(f.control.value[i])
  }

  predicate ValidControl(s: Step) {
    s.forced < |s.drafts|
  }

  datatype State = State(pos: nat, history: seq<Token>, out: Generation)

  // --------------------------------------------------------------------------- drafts

  /** The next token ID, in 32-bit arithmetic and within the vocabulary. */
  function After(e: Engine, id: Token): Token
    requires 1 <= e.vocab
  {
    (id + 1) % 0x1_0000_0000 % e.vocab
  }

  /** How many drafts the adaptive window verifies, from the first `keep` on. */
  function Windowed(probabilities: seq<real>, drafts: nat, window: real, keep: nat): nat
    decreases drafts - keep
  {
    if keep < drafts && keep < |probabilities| && probabilities[keep] >= window
    then Windowed(probabilities, drafts, window, keep + 1)
    else keep
  }

  /** The window keeps the longest run of confident drafts behind the first one it starts from. */
  lemma {:induction false} WindowedIs(probabilities: seq<real>, drafts: nat, window: real, keep: nat)
    ensures var n := Windowed(probabilities, drafts, window, keep);
            && keep <= n && (keep <= drafts ==> n <= drafts)
            && (keep < n ==> n <= |probabilities|) && (forall i | keep <= i < n :: window <= probabilities[i])
            && (n < drafts && n < |probabilities| ==> probabilities[n] < window)
    decreases drafts - keep
  {
    if keep < drafts && keep < |probabilities| && probabilities[keep] >= window {
      WindowedIs(probabilities, drafts, window, keep + 1);
    }
  }

  /** The drafts of a step on record, with another token in the place that was spoiled, if the verify rejected it. */
  function Replayed(e: Engine, other: Step): (drafts: seq<Token>)
    requires 1 <= e.vocab && ValidControl(other)
    ensures |drafts| == |other.drafts|
  {
    if other.forced >= 0 && other.kept <= other.forced + 1 then
      var d := After(e, other.drafts[other.forced]);
      other.drafts[other.forced := if d == other.next then After(e, d) else d]
    else other.drafts
  }

  /** A step's drafts before the verify's limits; none once a control run is exhausted. */
  function Offered(e: Engine, f: Forcing, index: nat, history: seq<Token>): (r: Option<seq<Token>>)
    requires ValidEngine(e) && ValidForcing(f)
  {
    if f.control.Some? then
      if index < |f.control.value| then Some(Replayed(e, f.control.value[index])) else None
    else
      var drafted := e.drafter(history);
      if e.window > 0.0 then
        var keep := Windowed(drafted.probabilities, |drafted.tokens|, e.window, 1);
        Some(drafted.tokens[..if keep < |drafted.tokens| then keep else |drafted.tokens|])
      else Some(drafted.tokens)
  }

  function Least(a: nat, b: nat, c: nat): nat {
    var d := if a < b then a else b;
    if d < c then d else c
  }

  /** The position forced wrong at a step, -1 if none or outside the drafts. */
  function ForcedAt(f: Forcing, index: nat, pos: nat, rows: nat): int
    requires 1 <= rows
  {
    if f.wrong.Some? && 0 <= f.wrong.value(index, pos, rows) < rows - 1 then f.wrong.value(index, pos, rows) else -1
  }

  // -------------------------------------------------------------------------- judging

  function Rows(e: Engine, input: seq<Token>, pos: nat): (r: seq<Logits>)
    requires pos <= |input|
    ensures |r| == |input| - pos
    ensures forall i | 0 <= i < |r| :: r[i] == e.target(input[..pos + i + 1])
  {
    seq(|input| - pos, i requires 0 <= i < |input| - pos => e.target(input[..pos + i + 1]))
  }

  /** The verdict on drafts `m` and later: how many are accepted in all, and the token after
      them. A negative replacement counts as none, and the row is sampled afresh. */
  function Judgement(c: Chooser, rows: seq<Logits>, drafts: seq<Token>, pos: nat, m: nat): (r: Result<(nat, Token)>)
    requires |rows| == |drafts| + 1 && m <= |drafts|
    ensures r.Ok? ==> m <= r.value.0 <= |drafts|
    decreases |drafts| - m
  {
    if m == |drafts| then Sampled(c, rows, pos, m)
    else if c.Greedy? then
      if Argmax(rows[m]) == drafts[m] then Judgement(c, rows, drafts, pos, m + 1) else Ok((m, Argmax(rows[m])))
    else
      var verdict := c.verdict(rows[m], drafts[m], pos + m + 1);
      if verdict.None? then Err("a draft's verdict")
      else if verdict.value.accepted then Judgement(c, rows, drafts, pos, m + 1)
      else if verdict.value.token >= 0 then Ok((m, verdict.value.token))
      else Sampled(c, rows, pos, m)
  }

  function Sampled(c: Chooser, rows: seq<Logits>, pos: nat, m: nat): (r: Result<(nat, Token)>)
    requires m < |rows|
    ensures r.Ok? ==> r.value.0 == m
  {
    if c.Greedy? then Ok((m, Argmax(rows[m])))
    else
      var token := c.sample(rows[m], pos + m + 1);
      if token.None? then Err("a sample") else Ok((m, token.value))
  }

  /** A draft passes: it is the row's argmax, or the sampler's verdict on it at its own position accepts it. */
  ghost predicate Passes(c: Chooser, row: Logits, draft: Token, at: nat) {
    if c.Greedy? then draft == Argmax(row)
    else c.verdict(row, draft, at).Some? && c.verdict(row, draft, at).value.accepted
  }

  /** A token is chosen afresh from a row: its argmax, or what the sampler samples at the token's position. */
  ghost predicate Afresh(c: Chooser, row: Logits, at: nat, next: Token) {
    if c.Greedy? then next == Argmax(row) else c.sample(row, at) == Some(next)
  }

  /** A verdict on drafts: those before `n` pass. If `n` is a draft it does not, and the token after them is the one its
      verdict gives in its place, if that is a token; otherwise, and behind the last draft, it is chosen afresh. */
  ghost predicate Judges(c: Chooser, rows: seq<Logits>, drafts: seq<Token>, pos: nat, n: nat, next: Token)
    requires |rows| == |drafts| + 1
  {
    && n <= |drafts| && (forall i | 0 <= i < n :: Passes(c, rows[i], drafts[i], pos + i + 1))
    && (n < |drafts| && c.Greedy? ==> drafts[n] != Argmax(rows[n]) && next == Argmax(rows[n]))
    && (n < |drafts| && c.Sampler? ==>
          var v := c.verdict(rows[n], drafts[n], pos + n + 1);
          && v.Some? && !v.value.accepted
          && if 0 <= v.value.token then next == v.value.token else Afresh(c, rows[n], pos + n + 1, next))
    && (n == |drafts| ==> Afresh(c, rows[n], pos + n + 1, next))
  }

  /** No verdict: behind `n` drafts that pass the sampler refuses what is asked of it. */
  ghost predicate Refuses(c: Chooser, rows: seq<Logits>, drafts: seq<Token>, pos: nat, n: nat)
    requires |rows| == |drafts| + 1
  {
    && c.Sampler? && n <= |drafts| && (forall i | 0 <= i < n :: Passes(c, rows[i], drafts[i], pos + i + 1))
    && if n < |drafts| && c.verdict(rows[n], drafts[n], pos + n + 1).None? then true
       else
         && c.sample(rows[n], pos + n + 1).None?
         && (n < |drafts| ==> var v := c.verdict(rows[n], drafts[n], pos + n + 1).value; !v.accepted && v.token < 0)
  }

  /** A judgement is such a verdict, and there is none exactly where the sampler refuses. */
  lemma {:induction false} JudgementIs(c: Chooser, rows: seq<Logits>, drafts: seq<Token>, pos: nat, m: nat)
    requires |rows| == |drafts| + 1 && m <= |drafts|
    requires forall i | 0 <= i < m :: Passes(c, rows[i], drafts[i], pos + i + 1)
    ensures var r := Judgement(c, rows, drafts, pos, m);
            if r.Ok? then Judges(c, rows, drafts, pos, r.value.0, r.value.1)
            else exists n :: m <= n <= |drafts| && Refuses(c, rows, drafts, pos, n)
    decreases |drafts| - m
  {
    hide Argmax;
    if m < |drafts| && Passes(c, rows[m], drafts[m], pos + m + 1) {
      JudgementIs(c, rows, drafts, pos, m + 1);
    } else {
      assert Judgement(c, rows, drafts, pos, m).Err? ==> Refuses(c, rows, drafts, pos, m);
    }
  }

  /** And there is one verdict on drafts, or none. */
  lemma JudgesOnce(c: Chooser, rows: seq<Logits>, drafts: seq<Token>, pos: nat, n: nat, next: Token, k: nat, other: Token)
    requires |rows| == |drafts| + 1 && Judges(c, rows, drafts, pos, n, next)
    ensures Judges(c, rows, drafts, pos, k, other) ==> k == n && other == next
    ensures !Refuses(c, rows, drafts, pos, k)
  {
    hide Argmax;
    assert n < |drafts| ==> !Passes(c, rows[n], drafts[n], pos + n + 1);
    assert k < |drafts| && (Judges(c, rows, drafts, pos, k, other) || Refuses(c, rows, drafts, pos, k)) ==>
             !Passes(c, rows[k], drafts[k], pos + k + 1);
  }

  // ---------------------------------------------------------------------------- steps

  /** The state after a verify of `drafts` that accepted the first `m` and gave `next`. */
  function Kept(s: State, drafts: seq<Token>, rows: seq<Logits>, forced: int, m: nat, next: Token, logits: bool): State
    requires m <= |drafts| < |rows|
  {
    var tokens := drafts[..m] + [next];
    State(
      s.pos + m + 1,
      s.history + tokens,
      Generation(
        s.out.tokens + tokens,
        if logits then s.out.logits + rows[..m + 1] else s.out.logits,
        s.out.steps + [Step(s.pos, |drafts| + 1, m + 1, forced, next, drafts)],
        s.out.drafted + |drafts|,
        s.out.accepted + m,
        s.out.verifies + 1))
  }

  datatype Progress = Advanced(state: State) | Stopped | Failed(error: string)

  /** A step's drafts as they are verified: within the tokens left and the context, one of them
      perhaps forced wrong (its position, or -1). */
  function Verified(e: Engine, f: Forcing, count: nat, s: State, offered: seq<Token>): (r: (seq<Token>, int))
    requires ValidEngine(e)
    requires |s.out.tokens| < count && s.pos < e.context
    ensures |r.0| <= |offered| && -1 <= r.1 < |r.0|
    ensures |s.out.tokens| + |r.0| + 1 <= count && s.pos + |r.0| + 1 <= e.context
  {
    var rows := Least(|offered| + 1, count - |s.out.tokens|, e.context - s.pos);
    var cut := offered[..rows - 1];
    var forced := ForcedAt(f, |s.out.steps|, s.pos, rows);
    (if forced >= 0 then cut[forced := After(e, cut[forced])] else cut, forced)
  }

  /** The verify and its judgement. */
  function Judged(e: Engine, c: Chooser, s: State, drafts: seq<Token>): (r: Result<(nat, Token)>)
    requires |s.history| == s.pos + 1
    ensures r.Ok? ==> r.value.0 <= |drafts|
  {
    Judgement(c, Rows(e, s.history + drafts, s.pos), drafts, s.pos, 0)
  }

  /** The state after a verify of `drafts` and its judgement. */
  function Settled(e: Engine, c: Chooser, s: State, drafts: seq<Token>, forced: int, logits: bool): (r: Progress)
    requires |s.history| == s.pos + 1
    ensures !r.Stopped?
    ensures r.Advanced? ==> |r.state.history| == r.state.pos + 1
    ensures r.Advanced? ==> |s.out.tokens| < |r.state.out.tokens| <= |s.out.tokens| + |drafts| + 1
  {
    var judged := Judged(e, c, s, drafts);
    if judged.Err? then Failed(judged.error)
    else Advanced(Kept(s, drafts, Rows(e, s.history + drafts, s.pos), forced, judged.value.0, judged.value.1, logits))
  }

  /** One turn of the loop. */
  function Advance(e: Engine, c: Chooser, f: Forcing, count: nat, s: State): (r: Progress)
    requires ValidEngine(e) && ValidForcing(f)
    requires |s.history| == s.pos + 1 && |s.out.tokens| < count
    ensures r.Advanced? ==> |r.state.history| == r.state.pos + 1
    ensures r.Advanced? ==> |s.out.tokens| < |r.state.out.tokens| <= count
  {
    if s.pos + e.draftRows > e.context then Failed("the drafts would pass the context")
    else
      var offered := Offered(e, f, |s.out.steps|, s.history);
      if offered.None? then Stopped
      else
        var (drafts, forced) := Verified(e, f, count, s, offered.value);
        Settled(e, c, s, drafts, forced, f.logits || c.Sampler?)
  }

  predicate Goes(f: Forcing, count: nat, s: State) {
    |s.out.tokens| < count && |s.out.steps| < f.maxSteps
  }

  /** The loop from a state to its end. */
  function Run(e: Engine, c: Chooser, f: Forcing, count: nat, s: State): (r: Result<State>)
    requires ValidEngine(e) && ValidForcing(f)
    requires |s.history| == s.pos + 1
    decreases count - |s.out.tokens|
  {
    if Goes(f, count, s) then
      match Advance(e, c, f, count, s)
      case Failed(error) => Err(error)
      case Stopped => Ok(s)
      case Advanced(next) => Run(e, c, f, count, next)
    else Ok(s)
  }

  function Start(c: Chooser, f: Forcing, prompt: seq<Token>, first: Logits): State {
    var token := Choose(c, first, |prompt|);
    State(|prompt|, prompt + [token],
          Generation([token], if f.logits then [first] else [], [], 0, 0, 0))
  }

  function Trimmed(g: Generation, count: nat): Generation {
    g.(tokens := if |g.tokens| > count then g.tokens[..count] else g.tokens,
       logits := if |g.logits| > count then g.logits[..count] else g.logits)
  }

  /** A whole speculative generation of `count` tokens after `prompt`, whose last row's logits
      are `first`. */
  function Speculated(e: Engine, c: Chooser, f: Forcing, prompt: seq<Token>, count: nat, first: Logits): Result<Generation>
    requires ValidEngine(e) && ValidForcing(f)
  {
    var end := Run(e, c, f, count, Start(c, f, prompt, first));
    if end.Ok? then Ok(Trimmed(end.value.out, count)) else Err(end.error)
  }
}
