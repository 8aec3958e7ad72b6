/** A model swapped out after its context and back in again, and its continuation compared with one never swapped
    (benchmarks/swap_runner.cc, Prefill, Decode and SwapToA). The engine is a function of its state. */
module SwapContinuation {
  import opened Results

  /** What a chunk at a position leaves the state as, and the row it gives; and the token a row picks. */
  datatype Engine<!S, !T, !R> = Engine(cleared: S, chunk: (S, nat, seq<T>) -> Result<(S, R)>, argmax: R -> T)

  /** The rows and tokens of some steps: the first token given, each later one picked from the row before it. */
  datatype Steps<S, T, R> = Steps(state: S, rows: seq<R>, tokens: seq<T>)

  function Decoded<S, T, R>(e: Engine<S, T, R>, s: S, from: nat, first: T, steps: nat): (d: Result<Steps<S, T, R>>)
    ensures d.Ok? ==> |d.value.rows| == steps && |d.value.tokens| == steps + 1 && d.value.tokens[0] == first
    decreases steps
  {
    if steps == 0 then Ok(Steps(s, [], [first]))
    else match e.chunk(s, from, [first])
      case Err(x) => Err(x)
      case Ok(after) =>
        Preceded(first, after.1, Decoded(e, after.0, from + 1, e.argmax(after.1), steps - 1))
  }

  // One step more in front.
  function Preceded<S, T, R>(first: T, row: R, rest: Result<Steps<S, T, R>>): Result<Steps<S, T, R>> {
    match rest
    case Err(x) => Err(x)
    case Ok(d) => Ok(Steps(d.state, [row] + d.rows, [first] + d.tokens))
  }

  /** Two runs in a row, the second from where the first left off. */
  function Joined<S, T, R>(e: Engine<S, T, R>, s: S, from: nat, first: T, m: nat, n: nat): Result<Steps<S, T, R>> {
    match Decoded(e, s, from, first, m)
    case Err(x) => Err(x)
    case Ok(a) =>
      match Decoded(e, a.state, from + m, a.tokens[m], n)
      case Err(x) => Err(x)
      case Ok(b) => Ok(Steps(b.state, a.rows + b.rows, a.tokens + b.tokens[1..]))
  }

  lemma DecodedNext<S, T, R>(e: Engine<S, T, R>, s: S, from: nat, first: T, steps: nat)
    requires 0 < steps
    ensures var after := e.chunk(s, from, [first]);
            && (after.Err? ==> Decoded(e, s, from, first, steps) == Err(after.error))
            && (after.Ok? ==> Decoded(e, s, from, first, steps) ==
                              Preceded(first, after.value.1, Decoded(e, after.value.0, from + 1, e.argmax(after.value.1), steps - 1)))
  {
  }

  // What is in front of the first run is in front of both.
  lemma JoinedNext<S, T, R>(e: Engine<S, T, R>, s: S, from: nat, first: T, m: nat, n: nat)
    requires 0 < m
    ensures var after := e.chunk(s, from, [first]);
            && (after.Err? ==> Joined(e, s, from, first, m, n) == Err(after.error))
            && (after.Ok? ==> Joined(e, s, from, first, m, n) ==
                              Preceded(first, after.value.1, Joined(e, after.value.0, from + 1, e.argmax(after.value.1), m - 1, n)))
  {
    hide Decoded;
    DecodedNext(e, s, from, first, m);
    var after := e.chunk(s, from, [first]);
    if after.Ok? {
      var row, next := after.value.1, e.argmax(after.value.1);
      var a := Decoded(e, after.value.0, from + 1, next, m - 1);
      if a.Ok? {
        assert ([first] + a.value.tokens)[m] == a.value.tokens[m - 1];
        assert from + m == from + 1 + (m - 1);
        var b := Decoded(e, a.value.state, from + m, a.value.tokens[m - 1], n);
        if b.Ok? {
          assert [row] + a.value.rows + b.value.rows == [row] + (a.value.rows + b.value.rows);
          assert [first] + a.value.tokens + b.value.tokens[1..] == [first] + (a.value.tokens + b.value.tokens[1..]);
        }
      }
    }
  }

  lemma JoinedNone<S, T, R>(e: Engine<S, T, R>, s: S, from: nat, first: T, n: nat)
    ensures Joined(e, s, from, first, 0, n) == Decoded(e, s, from, first, n)
  {
    assert Decoded(e, s, from, first, 0) == Ok(Steps(s, [], [first]));
    var b := Decoded(e, s, from, first, n);
    if b.Ok? { assert [first] + b.value.tokens[1..] == b.value.tokens; assert [] + b.value.rows == b.value.rows; }
  }

  /** A run cut anywhere is the uncut run. */
  lemma {:induction false} DecodedSplits<S, T, R>(e: Engine<S, T, R>, s: S, from: nat, first: T, m: nat, n: nat)
    ensures Decoded(e, s, from, first, m + n) == Joined(e, s, from, first, m, n)
    decreases m
  {
    hide *;
    if m == 0 {
      JoinedNone(e, s, from, first, n);
    } else {
      JoinedNext(e, s, from, first, m, n);
      DecodedNext(e, s, from, first, m + n);
      var after := e.chunk(s, from, [first]);
      if after.Ok? { DecodedSplits(e, after.value.0, from + 1, e.argmax(after.value.1), m - 1, n); }
    }
  }

  /** Steps made one after another: each token fed by itself at the next position, to the state the step before it left,
      and the token after it picked from the row it gave. */
  ghost predicate Fed<S, T, R>(e: Engine<S, T, R>, from: nat, states: seq<S>, rows: seq<R>, tokens: seq<T>) {
    && |states| == |tokens| == |rows| + 1
    && forall k :: 0 <= k < |rows| ==> FedAt(e, from + k, states[k], tokens[k], states[k + 1], rows[k], tokens[k + 1])
  }

  ghost predicate FedAt<S, T, R>(e: Engine<S, T, R>, at: nat, s: S, token: T, after: S, row: R, next: T) {
    e.chunk(s, at, [token]) == Ok((after, row)) && next == e.argmax(row)
  }

  // The same with the first step taken off.
  lemma FedRest<S, T, R>(e: Engine<S, T, R>, from: nat, states: seq<S>, rows: seq<R>, tokens: seq<T>)
    requires |states| == |tokens| == |rows| + 1 && rows != []
    ensures Fed(e, from, states, rows, tokens) <==>
            && FedAt(e, from, states[0], tokens[0], states[1], rows[0], tokens[1])
            && Fed(e, from + 1, states[1..], rows[1..], tokens[1..])
  {
    hide FedAt;
    var at, x, y, z := from + 1, states[1..], rows[1..], tokens[1..];
    if Fed(e, from, states, rows, tokens) {
      forall k | 0 <= k < |y| ensures FedAt(e, at + k, x[k], z[k], x[k + 1], y[k], z[k + 1]) {
        assert FedAt(e, from + (k + 1), states[k + 1], tokens[k + 1], states[k + 1 + 1], rows[k + 1], tokens[k + 1 + 1]);
        assert at + k == from + (k + 1);
      }
    }
    if FedAt(e, from, states[0], tokens[0], states[1], rows[0], tokens[1]) && Fed(e, at, x, y, z) {
      forall k | 0 <= k < |rows| ensures FedAt(e, from + k, states[k], tokens[k], states[k + 1], rows[k], tokens[k + 1]) {
        if k > 0 {
          assert FedAt(e, at + (k - 1), x[k - 1], z[k - 1], x[k - 1 + 1], y[k - 1], z[k - 1 + 1]);
          assert at + (k - 1) == from + k;
        }
      }
    }
  }

  lemma FedLengths<S, T, R>(e: Engine<S, T, R>, from: nat, states: seq<S>, rows: seq<R>, tokens: seq<T>)
    requires Fed(e, from, states, rows, tokens)
    ensures |states| == |tokens| == |rows| + 1
  {
  }

  /** A run that succeeds is made of such steps, as many as asked for; one that fails made some, and the engine refused the
      next. */
  lemma {:induction false} DecodedFed<S, T, R>(e: Engine<S, T, R>, s: S, from: nat, first: T, steps: nat)
    returns (states: seq<S>, rows: seq<R>, tokens: seq<T>)
    ensures Fed(e, from, states, rows, tokens) && states[0] == s && tokens[0] == first
    ensures var d := Decoded(e, s, from, first, steps);
            if d.Ok? then |rows| == steps && d.value == Steps(states[steps], rows, tokens)
            else |rows| < steps && e.chunk(states[|rows|], from + |rows|, [tokens[|rows|]]) == Err(d.error)
    decreases steps
  {
    hide Fed;
    var after := e.chunk(s, from, [first]);
    if steps == 0 || after.Err? {
      states, rows, tokens := [s], [], [first];
      assert Fed(e, from, states, rows, tokens) by { FedNone(e, from, s, first); }
      DecodedFirst(e, s, from, first, steps);
    } else {
      var x, y, z := DecodedFed(e, after.value.0, from + 1, e.argmax(after.value.1), steps - 1);
      FedLengths(e, from + 1, x, y, z);
      states, rows, tokens := [s] + x, [after.value.1] + y, [first] + z;
      assert states[1..] == x && rows[1..] == y && tokens[1..] == z;
      FedRest(e, from, states, rows, tokens);
      DecodedNext(e, s, from, first, steps);
    }
  }

  lemma DecodedFirst<S, T, R>(e: Engine<S, T, R>, s: S, from: nat, first: T, steps: nat)
    ensures steps == 0 ==> Decoded(e, s, from, first, steps) == Ok(Steps(s, [], [first]))
    ensures var after := e.chunk(s, from, [first]); 0 < steps && after.Err? ==> Decoded(e, s, from, first, steps) == Err(after.error)
  {
  }

  lemma FedNone<S, T, R>(e: Engine<S, T, R>, from: nat, s: S, first: T)
    ensures Fed(e, from, [s], [], [first])
  {
  }

  /** The context in chunks of at most so many rows, and the last one's row. */
  function Prefilled<S, T, R>(e: Engine<S, T, R>, s: S, context: seq<T>, at: nat, rows: nat, last: Option<R>): Result<(S, Option<R>)>
    requires 0 < rows && at <= |context|
    decreases |context| - at
  {
    if at == |context| then Ok((s, last))
    else
      var n := if rows < |context| - at then rows else |context| - at;
      match e.chunk(s, at, context[at..at + n])
      case Err(x) => Err(x)
      case Ok(after) => Prefilled(e, after.0, context, at + n, rows, Some(after.1))
  }

  // So many rows of the context from there on, or those that are left.
  ghost function Piece<T>(context: seq<T>, at: nat, rows: nat): seq<T>
    requires at <= |context|
  {
    context[at..if at + rows <= |context| then at + rows else |context|]
  }

  /** Chunks poured one after another: each of so many rows, but for the last, to the state the chunk before it left. */
  ghost predicate Poured<S, T, R>(e: Engine<S, T, R>, context: seq<T>, from: nat, rows: nat, states: seq<S>, outs: seq<R>) {
    && |states| == |outs| + 1
    && forall c :: 0 <= c < |outs| ==> PouredAt(e, context, from + c * rows, rows, states[c], states[c + 1], outs[c])
  }

  ghost predicate PouredAt<S, T, R>(e: Engine<S, T, R>, context: seq<T>, at: nat, rows: nat, s: S, after: S, out: R) {
    at < |context| && e.chunk(s, at, Piece(context, at, rows)) == Ok((after, out))
  }

  // One chunk more in front.
  lemma PouredNext<S, T, R>(e: Engine<S, T, R>, context: seq<T>, from: nat, rows: nat, states: seq<S>, outs: seq<R>, s: S, out: R)
    requires Poured(e, context, from + rows, rows, states, outs) && PouredAt(e, context, from, rows, s, states[0], out)
    ensures Poured(e, context, from, rows, [s] + states, [out] + outs) && |states| == |outs| + 1
  {
    hide PouredAt;
    var x, y := [s] + states, [out] + outs;
    forall c | 0 <= c < |y| ensures PouredAt(e, context, from + c * rows, rows, x[c], x[c + 1], y[c]) {
      if c > 0 {
        assert PouredAt(e, context, from + rows + (c - 1) * rows, rows, states[c - 1], states[c - 1 + 1], outs[c - 1]);
        assert from + rows + (c - 1) * rows == from + c * rows;
      }
    }
  }

  /** The prefill is made of such chunks. If it succeeds they reach the end of the context, and the state and the row are
      the last one's; if it fails the engine refused the next. */
  lemma {:induction false} PrefilledPoured<S, T, R>(e: Engine<S, T, R>, s: S, context: seq<T>, from: nat, rows: nat, last: Option<R>)
    returns (states: seq<S>, outs: seq<R>)
    requires 0 < rows
    ensures Poured(e, context, from, rows, states, outs) && states[0] == s
    ensures var p, n := Prefilled(e, s, context, if from < |context| then from else |context|, rows, last), |outs|;
            if p.Ok? then && |context| <= from + n * rows
                          && p.value == (states[n], if n == 0 then last else Some(outs[n - 1]))
            else && from + n * rows < |context|
                 && e.chunk(states[n], from + n * rows, Piece(context, from + n * rows, rows)) == Err(p.error)
    decreases |context| - from
  {
    hide Prefilled, Poured, Piece;
    PouredNone(e, context, from, rows, s);
    PrefilledNext(e, s, context, from, rows, last);
    if |context| <= from || e.chunk(s, from, Piece(context, from, rows)).Err? {
      return [s], [];
    }
    var after := e.chunk(s, from, Piece(context, from, rows)).value;
    var x, y := PrefilledPoured(e, after.0, context, from + rows, rows, Some(after.1));
    PouredNext(e, context, from, rows, x, y, s, after.1);
    states, outs := [s] + x, [after.1] + y;
    assert from + |outs| * rows == from + rows + |y| * rows;
  }

  lemma PouredNone<S, T, R>(e: Engine<S, T, R>, context: seq<T>, from: nat, rows: nat, s: S)
    ensures Poured(e, context, from, rows, [s], [])
  {
  }

  lemma PrefilledNext<S, T, R>(e: Engine<S, T, R>, s: S, context: seq<T>, from: nat, rows: nat, last: Option<R>)
    requires 0 < rows
    ensures |context| <= from ==> Prefilled(e, s, context, |context|, rows, last) == Ok((s, last))
    ensures from < |context| ==>
              var p, after := Prefilled(e, s, context, from, rows, last), e.chunk(s, from, Piece(context, from, rows));
              && (after.Err? ==> p == Err(after.error))
              && (after.Ok? ==> p == Prefilled(e, after.value.0, context, if from + rows < |context| then from + rows else |context|,
                                               rows, Some(after.value.1)))
  {
  }

  /** A chunk in two parts leaves what the whole of it does. */
  ghost predicate ChunkInvariant<S(!new), T(!new), R(!new)>(e: Engine<S, T, R>) {
    forall s: S, at: nat, a: seq<T>, b: seq<T> {:trigger e.chunk(s, at, a), e.chunk(s, at, a + b)} :: a != [] && b != [] ==>
      var first := e.chunk(s, at, a);
      e.chunk(s, at, a + b) == if first.Err? then Err(first.error) else e.chunk(first.value.0, at + |a|, b)
  }

  /** For such an engine the prefill's chunks do not matter: the state and the row are those of the context at once. */
  lemma {:induction false} PrefilledAtOnce<S(!new), T(!new), R(!new)>(e: Engine<S, T, R>, s: S, context: seq<T>, at: nat,
                                                                      rows: nat, last: Option<R>)
    requires ChunkInvariant(e) && 0 < rows && at < |context|
    ensures var once := e.chunk(s, at, context[at..]);
            Prefilled(e, s, context, at, rows, last) ==
              if once.Err? then Err(once.error) else Ok((once.value.0, Some(once.value.1)))
    decreases |context| - at
  {
    var n := if rows < |context| - at then rows else |context| - at;
    var after := e.chunk(s, at, context[at..at + n]);
    if at + n == |context| {
      assert context[at..at + n] == context[at..];
    } else {
      assert context[at..at + n] + context[at + n..] == context[at..];
      if after.Ok? { PrefilledAtOnce(e, after.value.0, context, at + n, rows, Some(after.value.1)); }
    }
  }

  class Swapper<S, T(==), R(==)> {
    const engine: Engine<S, T, R>
    const context: seq<T>
    var state: S
    // Where the state ends, and the next token.
    var position: nat
    var next: T

    constructor (engine: Engine<S, T, R>, context: seq<T>, next: T)
      ensures this.engine == engine && this.context == context && state == engine.cleared
    {
      this.engine, this.context, this.next, position := engine, context, next, 0;
      state := engine.cleared;
    }

    method Prefill(rows: nat) returns (r: Result<R>)
      requires 0 < rows && context != []
      modifies this
      ensures var p := Prefilled(engine, old(state), context, 0, rows, None);
              && (r.Ok? <==> p.Ok?)
              && (r.Ok? ==> p.value == (state, Some(r.value)) && position == |context| && next == engine.argmax(r.value))
      ensures r.Ok? ==> exists states, outs :: && Poured(engine, context, 0, rows, states, outs) && |context| <= |outs| * rows
                                               && states[0] == old(state) && states[|outs|] == state && outs[|outs| - 1] == r.value
    {
      hide Poured;
      ghost var states, outs := PrefilledPoured(engine, state, context, 0, rows, None);
      var at: nat, last := 0, None;
      while at < |context|
        invariant at <= |context| && (0 < at ==> last.Some?)
        invariant Prefilled(engine, old(state), context, 0, rows, None) == Prefilled(engine, state, context, at, rows, last)
        decreases |context| - at
      {
        var n := if rows < |context| - at then rows else |context| - at;
        var after := engine.chunk(state, at, context[at..at + n]);
        if after.Err? { return Err(after.error); }
        state, last := after.value.0, Some(after.value.1);
        at := at + n;
      }
      position, next := |context|, engine.argmax(last.value);
      return Ok(last.value);
    }

    method Decode(from: nat, first: T, steps: nat) returns (r: Result<(seq<R>, seq<T>)>)
      modifies this
      ensures var d := Decoded(engine, old(state), from, first, steps);
              && (r.Ok? <==> d.Ok?)
              && (r.Ok? ==> d.value == Steps(state, r.value.0, r.value.1) && position == from + steps && next == r.value.1[steps])
      ensures r.Ok? ==> exists states :: && Fed(engine, from, states, r.value.0, r.value.1)
                                         && states[0] == old(state) && states[steps] == state
    {
      hide Fed, Decoded;
      ghost var states, _, _ := DecodedFed(engine, state, from, first, steps);
      DecodedFirst(engine, state, from, first, 0);
      var rows: seq<R>, tokens := [], [first];
      for k := 0 to steps
        invariant Decoded(engine, old(state), from, first, k) == Ok(Steps(state, rows, tokens))
      {
        DecodedSplits(engine, old(state), from, first, k, 1);
        OneStep(engine, state, from + k, tokens[k]);
        if k < steps { SplitFails(engine, old(state), from, first, k + 1, steps - k - 1); }
        var after := engine.chunk(state, from + k, [tokens[k]]);
        if after.Err? { return Err(after.error); }
        state := after.value.0;
        rows := rows + [after.value.1];
        tokens := tokens + [engine.argmax(after.value.1)];
      }
      position, next := from + steps, tokens[steps];
      return Ok((rows, tokens));
    }

    /** After the swap: one step timed on its own, then the rest, and the two against the control. They are exact if
        and only if the whole continuation, from the state the swap brought back, is the control's. */
    method Compare(control: Steps<S, T, R>) returns (r: Result<bool>)
      requires 1 <= |control.rows| && |control.tokens| == |control.rows| + 1
      modifies this
      ensures var d := Decoded(engine, old(state), |context|, control.tokens[0], |control.rows|);
              && (r.Ok? <==> d.Ok?)
              && (r.Ok? ==> (r.value <==> d.value.rows == control.rows && d.value.tokens == control.tokens))
    {
      hide Decoded;
      var n := |control.rows|;
      DecodedSplits(engine, state, |context|, control.tokens[0], 1, n - 1);
      var one := Decode(|context|, control.tokens[0], 1);
      if one.Err? { return Err(one.error); }
      var rest := Decode(position, next, n - 1);
      if rest.Err? { return Err(rest.error); }
      var (steps, tokens) := one.value;
      var (rows, more) := rest.value;
      steps := steps + rows;
      Matched(tokens, more, control.tokens);
      return Ok(steps == control.rows && tokens[1] == control.tokens[1] && more == control.tokens[1..]);
    }
  }

  lemma OneStep<S, T, R>(e: Engine<S, T, R>, s: S, from: nat, first: T)
    ensures var after := e.chunk(s, from, [first]);
            Decoded(e, s, from, first, 1) == if after.Err? then Err(after.error)
                                             else Ok(Steps(after.value.0, [after.value.1], [first, e.argmax(after.value.1)]))
  {
    var after := e.chunk(s, from, [first]);
    if after.Ok? {
      var next := e.argmax(after.value.1);
      assert Decoded(e, after.value.0, from + 1, next, 0) == Ok(Steps(after.value.0, [], [next]));
      assert [after.value.1] + [] == [after.value.1] && [first] + [next] == [first, next];
    }
  }

  // A run whose start fails fails.
  lemma SplitFails<S, T, R>(e: Engine<S, T, R>, s: S, from: nat, first: T, m: nat, n: nat)
    ensures Decoded(e, s, from, first, m).Err? ==> Decoded(e, s, from, first, m + n).Err?
  {
    DecodedSplits(e, s, from, first, m, n);
  }

  // The two parts' tokens are the control's if and only if they are when joined.
  lemma Matched<T>(tokens: seq<T>, more: seq<T>, control: seq<T>)
    requires |tokens| == 2 && 1 <= |more| && |control| == |more| + 1 && more[0] == tokens[1] && tokens[0] == control[0]
    ensures (tokens[1] == control[1] && more == control[1..]) <==> tokens + more[1..] == control
  {
    var all := tokens + more[1..];
    assert all[1..] == more;
    if all == control { assert control[1..] == more; }
    if more == control[1..] {
      assert control == [control[0]] + control[1..];
      assert all == [tokens[0]] + more;
    }
  }
}
