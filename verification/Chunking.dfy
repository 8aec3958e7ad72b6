/** Cutting a text into chunks, and scoring it chunk by chunk (benchmarks/dsv4_exec.cc and benchmarks/qwen38_exec.cc,
    ChunkRows and the perplexity loop). A tile is 8 rows in the one and 64 in the other. */
module Chunking {
  import opened Arithmetic
  import opened Results

  const LONG := 1024

  /** Tiles a long chunk of exactly LONG rows is made of. */
  ghost predicate Tile(tile: nat) {
    0 < tile <= LONG && LONG % tile == 0
  }

  // ------------------------------------------------------------------------------ the chunks

  function ChunkRows(remaining: nat, maxRows: nat, tile: nat): nat
    requires 0 < tile
  {
    var rows := if maxRows < remaining then maxRows else remaining;
    if LONG <= rows && rows % tile != 0 then rows - rows % tile else rows
  }

  /** What a chunk may have: no more rows than are left or allowed, and whole tiles if it is long. */
  ghost predicate Allowed(rows: nat, remaining: nat, maxRows: nat, tile: nat)
    requires 0 < tile
  {
    rows <= remaining && rows <= maxRows && (LONG <= rows ==> rows % tile == 0)
  }

  /** A chunk has the most rows it may have, and some if any are left. */
  lemma RowsMost(remaining: nat, maxRows: nat, tile: nat)
    requires Tile(tile)
    ensures Allowed(ChunkRows(remaining, maxRows, tile), remaining, maxRows, tile)
    ensures forall rows: nat {:trigger Allowed(rows, remaining, maxRows, tile)} ::
              Allowed(rows, remaining, maxRows, tile) ==> rows <= ChunkRows(remaining, maxRows, tile)
    ensures 0 < remaining && 0 < maxRows ==> 0 < ChunkRows(remaining, maxRows, tile)
  {
    var least := if maxRows < remaining then maxRows else remaining;
    var cut := ChunkRows(remaining, maxRows, tile);
    if LONG <= least && least % tile != 0 {
      Multiple(least, tile);
      forall rows: nat {:trigger Allowed(rows, remaining, maxRows, tile)} | Allowed(rows, remaining, maxRows, tile)
        ensures rows <= cut
      {
        if LONG <= rows { MultipleBelow(least, tile, rows); } else { MultipleBelow(least, tile, LONG); }
      }
    }
  }

  lemma Multiple(n: nat, d: nat)
    requires 0 < d
    ensures n % d <= n && (n - n % d) % d == 0
  {
    var q := n / d;
    assert n == q * d + n % d;
    assert q * d >= 0;
    MultipleOf(q, d);
  }

  lemma MultipleOf(q: nat, d: nat)
    requires 0 < d
    ensures (q * d) % d == 0
  {
    Remainder(q * d, d, q, 0);
  }

  // The greatest multiple up to a number.
  lemma MultipleBelow(n: nat, d: nat, m: nat)
    requires 0 < d && m <= n && m % d == 0
    ensures m <= n - n % d
  {
    var a, b := n / d, m / d;
    assert n == a * d + n % d && m == b * d;
    QuotientMonotone(m, n, d);
    ProductMonotone(b, a, d);
  }

  /** The chunks of a text, as the loop cuts them. */
  function Chunks(n: nat, maxRows: nat, tile: nat): seq<nat>
    requires Tile(tile) && 0 < maxRows
    decreases n
  {
    if n == 0 then [] else
      RowsMost(n, maxRows, tile);
      var rows := ChunkRows(n, maxRows, tile);
      [rows] + Chunks(n - rows, maxRows, tile)
  }

  function Sum(chunks: seq<nat>): nat {
    if chunks == [] then 0 else chunks[0] + Sum(chunks[1..])
  }

  /** The chunks tile the text: they end, add up to it, and each has rows, no more than allowed, whole tiles if long. */
  lemma {:induction false} ChunksTile(n: nat, maxRows: nat, tile: nat)
    requires Tile(tile) && 0 < maxRows
    ensures Sum(Chunks(n, maxRows, tile)) == n
    ensures forall rows | rows in Chunks(n, maxRows, tile) ::
              0 < rows <= maxRows && (LONG <= rows ==> rows % tile == 0)
    decreases n
  {
    hide ChunkRows;
    if 0 < n {
      RowsMost(n, maxRows, tile);
      ChunksTile(n - ChunkRows(n, maxRows, tile), maxRows, tile);
    }
  }

  /** And each has the most rows it may have of those left for it and the chunks after it. */
  lemma {:induction false} ChunksMost(n: nat, maxRows: nat, tile: nat, i: nat, rows: nat)
    requires Tile(tile) && 0 < maxRows && i < |Chunks(n, maxRows, tile)|
    ensures var chunks := Chunks(n, maxRows, tile);
            && Allowed(chunks[i], Sum(chunks[i..]), maxRows, tile)
            && (Allowed(rows, Sum(chunks[i..]), maxRows, tile) ==> rows <= chunks[i])
    decreases n
  {
    hide ChunkRows, Allowed, Sum;
    RowsMost(n, maxRows, tile);
    var chunks, rest := Chunks(n, maxRows, tile), n - ChunkRows(n, maxRows, tile);
    if i == 0 {
      ChunksTile(n, maxRows, tile);
      assert chunks[0..] == chunks;
    } else {
      ChunksMost(rest, maxRows, tile, i - 1, rows);
      assert chunks[i..] == Chunks(rest, maxRows, tile)[i - 1..];
    }
  }

  // ----------------------------------------------------------------------------- the scores

  /** A model run in chunks: the rows after what is past, one for each token of the chunk. */
  datatype Model<!Token, !Row> = Model(run: (seq<Token>, seq<Token>) -> Result<seq<Row>>, target: seq<Token> -> Row)

  /** Chunks do not matter to the model: a row is the target's on all the tokens up to it. */
  ghost predicate ChunkInvariant<T(!new), R(!new)>(m: Model<T, R>) {
    forall past: seq<T>, chunk: seq<T> {:trigger m.run(past, chunk)} :: m.run(past, chunk).Ok? ==>
      && |m.run(past, chunk).value| == |chunk|
      && forall i | 0 <= i < |chunk| :: m.run(past, chunk).value[i] == m.target(past + chunk[..i + 1])
  }

  /** Each token after the first, once, on the row of the tokens before it. */
  function Scored<T, R, S>(target: seq<T> -> R, nll: (R, T) -> S, ids: seq<T>, n: nat): (s: seq<S>)
    requires n <= |ids|
    ensures |s| == if n == 0 then 0 else n - 1
    ensures forall i | 0 <= i < |s| :: s[i] == nll(target(ids[..i + 1]), ids[i + 1])
  {
    if n <= 1 then [] else Scored(target, nll, ids, n - 1) + [nll(target(ids[..n - 1]), ids[n - 1])]
  }

  // The scores after the rows of one chunk.
  method ScoreRows<T(!new), R(!new), S>(target: seq<T> -> R, nll: (R, T) -> S, ids: seq<T>, at: nat, logits: seq<R>,
                                        before: seq<S>)
    returns (scores: seq<S>)
    requires at + |logits| <= |ids| && forall i | 0 <= i < |logits| :: logits[i] == target(ids[..at + i + 1])
    requires before == Scored(target, nll, ids, Least(at + 1, |ids|))
    ensures scores == Scored(target, nll, ids, Least(at + |logits| + 1, |ids|))
  {
    scores := before;
    for i := 0 to |logits|
      invariant scores == Scored(target, nll, ids, Least(at + i + 1, |ids|))
    {
      var next := at + i + 1;
      if next < |ids| { scores := scores + [nll(logits[i], ids[next])]; }
    }
  }

  function Least(a: nat, b: nat): nat {
    if a < b then a else b
  }

  // The rows a chunk gives, as the target's.
  lemma ChunkRight<T(!new), R(!new)>(m: Model<T, R>, ids: seq<T>, at: nat, rows: nat)
    requires ChunkInvariant(m) && at + rows <= |ids| && m.run(ids[..at], ids[at..at + rows]).Ok?
    ensures var logits := m.run(ids[..at], ids[at..at + rows]).value;
            |logits| == rows && forall i | 0 <= i < rows :: logits[i] == m.target(ids[..at + i + 1])
  {
    var past, chunk := ids[..at], ids[at..at + rows];
    var logits := m.run(past, chunk).value;
    forall i | 0 <= i < rows ensures logits[i] == m.target(ids[..at + i + 1]) {
      assert past + chunk[..i + 1] == ids[..at + i + 1];
    }
  }

  /** The text's chunks from a place on all run. */
  ghost predicate Runs<T, R>(m: Model<T, R>, ids: seq<T>, at: nat, maxRows: nat, tile: nat)
    requires at <= |ids| && Tile(tile) && 0 < maxRows
    decreases |ids| - at
  {
    at == |ids| ||
    (RowsMost(|ids| - at, maxRows, tile);
     var rows := ChunkRows(|ids| - at, maxRows, tile);
     m.run(ids[..at], ids[at..at + rows]).Ok? && Runs(m, ids, at + rows, maxRows, tile))
  }

  lemma RunsNext<T, R>(m: Model<T, R>, ids: seq<T>, at: nat, maxRows: nat, tile: nat)
    requires at < |ids| && Tile(tile) && 0 < maxRows
    ensures var rows := ChunkRows(|ids| - at, maxRows, tile);
            && 0 < rows <= |ids| - at
            && (Runs(m, ids, at, maxRows, tile) <==>
                  m.run(ids[..at], ids[at..at + rows]).Ok? && Runs(m, ids, at + rows, maxRows, tile))
  {
    RowsMost(|ids| - at, maxRows, tile);
  }

  lemma Started<T, R, S>(m: Model<T, R>, nll: (R, T) -> S, ids: seq<T>, maxRows: nat, tile: nat)
    requires 2 <= |ids| && Tile(tile) && 0 < maxRows
    ensures [] == Scored(m.target, nll, ids, Least(1, |ids|))
    ensures Chunks(|ids|, maxRows, tile) == [] + Chunks(|ids|, maxRows, tile)
  {
  }

  lemma NextChunk(chunks: seq<nat>, left: nat, maxRows: nat, tile: nat)
    requires Tile(tile) && 0 < maxRows && 0 < left
    ensures var rows := ChunkRows(left, maxRows, tile);
            rows <= left && chunks + Chunks(left, maxRows, tile) == chunks + [rows] + Chunks(left - rows, maxRows, tile)
  {
    RowsMost(left, maxRows, tile);
    var rows := ChunkRows(left, maxRows, tile);
    assert Chunks(left, maxRows, tile) == [rows] + Chunks(left - rows, maxRows, tile);
  }

  lemma AllRun<T, R>(m: Model<T, R>, ids: seq<T>, maxRows: nat, tile: nat)
    requires Tile(tile) && 0 < maxRows
    ensures Runs(m, ids, |ids|, maxRows, tile)
  {
  }

  lemma NoChunk(chunks: seq<nat>, maxRows: nat, tile: nat)
    requires Tile(tile) && 0 < maxRows
    ensures chunks + Chunks(0, maxRows, tile) == chunks
  {
  }

  /** The perplexity loop: the chunks it runs are the text's, and the scores are each token's after the first, once,
      on its true prefix, whatever the chunks allowed. */
  method Perplexity<T(!new), R(!new), S>(m: Model<T, R>, nll: (R, T) -> S, ids: seq<T>, context: nat, maxRows: nat, tile: nat)
    returns (r: Result<seq<S>>, chunks: seq<nat>)
    requires ChunkInvariant(m) && Tile(tile) && 0 < maxRows
    ensures r.Ok? ==> r.value == Scored(m.target, nll, ids, |ids|) && chunks == Chunks(|ids|, maxRows, tile)
    ensures r.Ok? <==> 2 <= |ids| <= context && Runs(m, ids, 0, maxRows, tile)
  {
    hide ChunkInvariant, Runs, Scored, Chunks;
    chunks := [];
    if |ids| < 2 || context < |ids| { return Err("the perplexity text does not fit the context"), chunks; }
    var scores: seq<S>, at: nat := [], 0;
    Started(m, nll, ids, maxRows, tile);
    while at < |ids|
      invariant at <= |ids| && scores == Scored(m.target, nll, ids, Least(at + 1, |ids|))
      invariant Chunks(|ids|, maxRows, tile) == chunks + Chunks(|ids| - at, maxRows, tile)
      invariant Runs(m, ids, 0, maxRows, tile) == Runs(m, ids, at, maxRows, tile)
      decreases |ids| - at
    {
      RunsNext(m, ids, at, maxRows, tile);
      RowsMost(|ids| - at, maxRows, tile);
      var rows := ChunkRows(|ids| - at, maxRows, tile);
      var run := m.run(ids[..at], ids[at..at + rows]);
      if run.Err? { return Err(run.error), chunks; }
      ChunkRight(m, ids, at, rows);
      scores := ScoreRows(m.target, nll, ids, at, run.value, scores);
      NextChunk(chunks, |ids| - at, maxRows, tile);
      chunks := chunks + [rows];
      at := at + rows;
    }
    NoChunk(chunks, maxRows, tile);
    AllRun(m, ids, maxRows, tile);
    return Ok(scores), chunks;
  }
}
