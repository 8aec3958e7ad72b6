/** The conversation state a runner keeps on the device, and the snapshot that lets a
    speculative verify be taken back (src/engine/live_state.cc, used by
    src/engine/qwen38_runner.cc).

    A verify writes cache cells for every row, saves what it overwrites first, and leaves
    the recurrent state alone. Accepting its first rows owes a restore of the rest and a
    commit of the kept rows' recurrence; both are queued before the next job's own work.
    The result proved here is that, whatever is verified, accepted, refused or failed,
    what the next job finds is exactly the state that decoding the kept tokens one at a
    time would have left, over the whole device state. */
module LiveState {
  import opened Results
  import opened Arithmetic
  import opened Divisors

  type Token = int
  type Word = int // the contents of one saved range
  type Logits = seq<real>

  /** A range of the state that a row writes: a cache cell of the row's position, or the key
      of the block of positions that the row completes. */
  datatype Loc = Cell(tensor: nat, position: nat) | Block(tensor: nat, block: nat)

  /** What the kernels compute, as functions of the tokens a row follows (its own last). */
  datatype Model = Model(
    cell: (seq<Token>, nat) -> Word,  // tensor t's cell at the last token's position
    block: (seq<Token>, nat) -> Word, // tensor t's key of the block the last token completes
    input: seq<Token> -> Word,        // the last row's inputs to the recurrence
    start: Word,                      // the recurrent state of no tokens
    advance: (Word, Word) -> Word,    // the recurrence: state and a row's inputs
    logits: seq<Token> -> Logits,     // the last row's logits
    cells: nat, blocks: nat,          // tensors of either kind
    cellBytes: nat -> nat,            // bytes of tensor t's cell
    blockBytes: nat -> nat,           // bytes of tensor t's key
    ratio: nat,                       // positions a block holds
    last: nat -> nat,                 // the position that completes a block
    keys: nat,                        // blocks the state holds
    context: nat)

  /** A block's key is kept for every block the context completes. */
  ghost predicate ValidModel(m: Model) {
    m.ratio > 0 && forall b: nat :: Completes(m, b)
  }

  ghost predicate Completes(m: Model, b: nat) {
    m.last(b) == (b + 1) * m.ratio - 1 && (b < m.keys <==> m.last(b) < m.context)
  }

  /** The position whose row writes a location. */
  function Writer(m: Model, l: Loc): nat {
    match l
    case Cell(_, p) => p
    case Block(_, b) => m.last(b)
  }

  function Value(m: Model, l: Loc, prefix: seq<Token>): Word {
    match l
    case Cell(t, _) => m.cell(prefix, t)
    case Block(t, _) => m.block(prefix, t)
  }

  predicate InState(m: Model, l: Loc) {
    match l
    case Cell(t, p) => t < m.cells && p < m.context
    case Block(t, b) => t < m.blocks && b < m.keys
  }

  /** Every location of the state. */
  function Locs(m: Model): (r: set<Loc>)
    ensures forall l :: l in r <==> InState(m, l)
  {
    (set t: nat, p: nat | t < m.cells && p < m.context :: Cell(t, p))
    + (set t: nat, b: nat | t < m.blocks && b < m.keys :: Block(t, b))
  }

  /** What a location holds after decoding `prefix` from a cleared state: its writer's value
      once that position is decoded, and zero before. */
  function At(m: Model, l: Loc, prefix: seq<Token>): Word {
    if Writer(m, l) < |prefix| then Value(m, l, prefix[..Writer(m, l) + 1]) else 0
  }

  /** The memory is the cache after decoding `prefix`, at every location of the state. */
  ghost predicate Holds(m: Model, memory: map<Loc, Word>, prefix: seq<Token>) {
    memory.Keys == Locs(m) && forall l | l in memory :: memory[l] == At(m, l, prefix)
  }

  /** The recurrent state after decoding `prefix`. */
  function Recurrent(m: Model, prefix: seq<Token>): Word {
    if prefix == [] then m.start
    else m.advance(Recurrent(m, prefix[..|prefix| - 1]), m.input(prefix))
  }

  /** Advances a recurrent state over saved row inputs. */
  function Replay(m: Model, state: Word, inputs: seq<Word>): Word {
    if inputs == [] then state
    else m.advance(Replay(m, state, inputs[..|inputs| - 1]), inputs[|inputs| - 1])
  }

  /** A saved range: where it is, and the verify row that writes it. The copy is the
      snapshot's entry of the same index. */
  datatype Saved = Saved(loc: Loc, row: int)

  datatype RangeCopy = RangeCopy(from: nat, to: Loc)

  /** The cache after copying ranges back out of the snapshot, in order. */
  function Copied(memory: map<Loc, Word>, snapshot: seq<Word>, copies: seq<RangeCopy>): (r: map<Loc, Word>)
    requires forall i | 0 <= i < |copies| :: copies[i].from < |snapshot| && copies[i].to in memory
    ensures r.Keys == memory.Keys
  {
    if copies == [] then memory
    else
      var c := copies[|copies| - 1];
      Copied(memory, snapshot, copies[..|copies| - 1])[c.to := snapshot[c.from]]
  }

  predicate IsSaved(saved: seq<Saved>, l: Loc) {
    exists k :: 0 <= k < |saved| && saved[k].loc == l
  }

  ghost predicate IsCopied(copies: seq<RangeCopy>, l: Loc) {
    exists i :: 0 <= i < |copies| && copies[i].to == l
  }

  /** The saves of a verify of `rows` rows after `past` tokens: exactly the locations those
      rows write, each with its row. */
  ghost predicate Covers(m: Model, past: nat, rows: nat, saved: seq<Saved>) {
    && (forall k | 0 <= k < |saved| ::
          && InState(m, saved[k].loc) && saved[k].row == Writer(m, saved[k].loc) - past
          && past <= Writer(m, saved[k].loc) < past + rows)
    && (forall l {:trigger IsSaved(saved, l)} | InState(m, l) && past <= Writer(m, l) < past + rows :: IsSaved(saved, l))
  }

  lemma BlocksCompleted(m: Model, past: nat, rows: nat, b: nat)
    requires ValidModel(m)
    ensures past / m.ratio <= b < (past + rows) / m.ratio
            <==> past <= Writer(m, Block(0, b)) < past + rows
  {
    assert Completes(m, b);
    Quotient(past, m.ratio);
    Quotient(past + rows, m.ratio);
    if past / m.ratio <= b {
      ProductMonotone(past / m.ratio + 1, b + 1, m.ratio);
    } else {
      ProductMonotone(b + 1, past / m.ratio, m.ratio);
    }
    if b < (past + rows) / m.ratio {
      ProductMonotone(b + 1, (past + rows) / m.ratio, m.ratio);
    } else {
      ProductMonotone((past + rows) / m.ratio + 1, b + 1, m.ratio);
    }
  }

  // A position's cell, or a block's key, of one tensor.
  function Place(cells: bool, tensor: nat, index: nat): Loc {
    if cells then Cell(tensor, index) else Block(tensor, index)
  }

  // Saves that cover the cells of the first `rows` rows, and the blocks [first, end).
  ghost predicate CoversPart(m: Model, past: nat, rows: nat, first: nat, end: nat, saved: seq<Saved>) {
    && (forall k | 0 <= k < |saved| ::
          && InState(m, saved[k].loc) && saved[k].row == Writer(m, saved[k].loc) - past
          && Reached(past, rows, first, end, saved[k].loc))
    && (forall l {:trigger IsSaved(saved, l)} | InState(m, l) && Reached(past, rows, first, end, l) :: IsSaved(saved, l))
  }

  ghost predicate Reached(past: nat, rows: nat, first: nat, end: nat, l: Loc) {
    if l.Cell? then past <= l.position < past + rows else first <= l.block < end
  }

  lemma CoversNone(m: Model, past: nat, first: nat)
    ensures CoversPart(m, past, 0, first, first, [])
  {
  }

  lemma CoversMore(m: Model, past: nat, rows: nat, first: nat, end: nat, saved: seq<Saved>,
                   cells: bool, index: nat, row: int, added: seq<Saved>)
    requires CoversPart(m, past, rows, first, end, saved)
    requires cells ==> index == past + rows && row == rows && index < m.context
    requires !cells ==> first <= index == end && row == m.last(index) - past && index < m.keys
    requires |added| == if cells then m.cells else m.blocks
    requires forall t: nat | t < |added| :: added[t] == Saved(Place(cells, t, index), row)
    ensures CoversPart(m, past, if cells then rows + 1 else rows, first, if cells then end else end + 1, saved + added)
  {
    var all := saved + added;
    var rows', end' := if cells then rows + 1 else rows, if cells then end else end + 1;
    forall l | InState(m, l) && Reached(past, rows', first, end', l) ensures IsSaved(all, l) {
      if Reached(past, rows, first, end, l) {
        assert IsSaved(saved, l);
        var k :| 0 <= k < |saved| && saved[k].loc == l;
        assert all[k].loc == l;
      } else {
        assert added[l.tensor].loc == l && all[|saved| + l.tensor] == added[l.tensor];
      }
    }
  }

  lemma ReachedIff(m: Model, past: nat, rows: nat, l: Loc)
    requires ValidModel(m)
    ensures Reached(past, rows, past / m.ratio, (past + rows) / m.ratio, l) <==> past <= Writer(m, l) < past + rows
  {
    if l.Block? { BlocksCompleted(m, past, rows, l.block); }
  }

  lemma CoversAll(m: Model, past: nat, rows: nat, saved: seq<Saved>)
    requires ValidModel(m) && CoversPart(m, past, rows, past / m.ratio, (past + rows) / m.ratio, saved)
    ensures Covers(m, past, rows, saved)
  {
    hide Reached, Writer, InState, IsSaved, ValidModel;
    forall l { ReachedIff(m, past, rows, l); }
  }

  // The saves of one position's cells, or one block's keys, tensor by tensor.
  function RowSaves(cells: bool, index: nat, row: int, tensors: nat): (r: seq<Saved>)
    ensures |r| == tensors && forall t: nat | t < tensors :: r[t] == Saved(Place(cells, t, index), row)
  {
    seq(tensors, t requires 0 <= t < tensors => Saved(Place(cells, t, index), row))
  }

  // The saves of the first `rows` rows' cells.
  function CellSaves(m: Model, past: nat, rows: nat): (r: seq<Saved>) {
    if rows == 0 then [] else CellSaves(m, past, rows - 1) + RowSaves(true, past + rows - 1, rows - 1, m.cells)
  }

  // The saves of the keys of the blocks [first, end).
  function BlockSaves(m: Model, past: nat, first: nat, end: nat): (r: seq<Saved>) {
    if end <= first then []
    else BlockSaves(m, past, first, end - 1) + RowSaves(false, end - 1, m.last(end - 1) - past, m.blocks)
  }

  /** What a verify of `rows` rows after `past` tokens saves, in the order it is saved. */
  function AllSaves(m: Model, past: nat, rows: nat): seq<Saved>
    requires 0 < m.ratio
  {
    CellSaves(m, past, rows) + BlockSaves(m, past, past / m.ratio, (past + rows) / m.ratio)
  }

  // Saves tensor by tensor.
  method SaveRow(cells: bool, index: nat, row: int, tensors: nat) returns (saved: seq<Saved>)
    ensures saved == RowSaves(cells, index, row, tensors)
  {
    saved := [];
    for t := 0 to tensors
      invariant saved == RowSaves(cells, index, row, t)
    {
      saved := saved + [Saved(Place(cells, t, index), row)];
    }
  }

  // The saves of every row's cells.
  method SaveCells(m: Model, past: nat, rows: nat, ghost first: nat) returns (saved: seq<Saved>)
    requires past + rows <= m.context
    ensures CoversPart(m, past, rows, first, first, saved) && saved == CellSaves(m, past, rows)
  {
    hide CoversPart, RowSaves;
    assert CoversPart(m, past, 0, first, first, []) by { CoversNone(m, past, first); }
    saved := [];
    for i := 0 to rows
      invariant CoversPart(m, past, i, first, first, saved) && saved == CellSaves(m, past, i)
    {
      var row := SaveRow(true, past + i, i, m.cells);
      CoversMore(m, past, i, first, first, saved, true, past + i, i, row);
      saved := saved + row;
    }
  }

  // The saves of the keys of the blocks [first, end), after the cells'.
  method SaveBlocks(m: Model, past: nat, ghost rows: nat, first: nat, end: nat, cells: seq<Saved>)
    returns (saved: seq<Saved>)
    requires first <= end && (first < end ==> end <= m.keys)
    requires CoversPart(m, past, rows, first, first, cells)
    ensures CoversPart(m, past, rows, first, end, saved) && saved == cells + BlockSaves(m, past, first, end)
  {
    hide CoversPart, RowSaves;
    saved := cells;
    for b := first to end
      invariant CoversPart(m, past, rows, first, b, saved) && saved == cells + BlockSaves(m, past, first, b)
    {
      var row := SaveRow(false, b, m.last(b) - past, m.blocks);
      CoversMore(m, past, rows, first, b, saved, false, b, m.last(b) - past, row);
      assert cells + BlockSaves(m, past, first, b + 1) == saved + row;
      saved := saved + row;
    }
  }

  /** The ranges a verify writes, saved row by row and then block by block. */
  method Saves(m: Model, past: nat, rows: nat) returns (saved: seq<Saved>)
    requires ValidModel(m) && past + rows <= m.context
    ensures Covers(m, past, rows, saved) && saved == AllSaves(m, past, rows)
    ensures |saved| == rows * m.cells + ((past + rows) / m.ratio - past / m.ratio) * m.blocks
  {
    var first := past / m.ratio;
    var end := (past + rows) / m.ratio;
    QuotientMonotone(past, past + rows, m.ratio);
    if first < end { BlocksCompleted(m, past, rows, end - 1); assert Completes(m, end - 1); }
    hide CoversPart, Covers, CellSaves, BlockSaves;
    saved := SaveCells(m, past, rows, first);
    saved := SaveBlocks(m, past, rows, first, end, saved);
    CoversAll(m, past, rows, saved);
    CellCount(m, past, rows);
    BlockCount(m, past, first, end);
  }

  lemma {:induction false} CellCount(m: Model, past: nat, rows: nat)
    ensures |CellSaves(m, past, rows)| == rows * m.cells
  {
    if rows != 0 {
      CellCount(m, past, rows - 1);
      assert rows * m.cells == (rows - 1) * m.cells + m.cells;
    }
  }

  lemma {:induction false} BlockCount(m: Model, past: nat, first: nat, end: nat)
    requires first <= end
    ensures |BlockSaves(m, past, first, end)| == (end - first) * m.blocks
  {
    if first < end {
      BlockCount(m, past, first, end - 1);
      assert (end - first) * m.blocks == (end - 1 - first) * m.blocks + m.blocks;
    }
  }

  // ------------------------------------------------------------------- the snapshot's room

  const ALIGN: nat := 256 // a saved range begins at a multiple of this

  function Bytes(m: Model, l: Loc): nat {
    match l
    case Cell(t, _) => m.cellBytes(t)
    case Block(t, _) => m.blockBytes(t)
  }

  // The bytes of the snapshot that saves take.
  function Room(m: Model, saved: seq<Saved>): nat {
    if saved == [] then 0
    else Room(m, saved[..|saved| - 1]) + Round(Bytes(m, saved[|saved| - 1].loc), ALIGN)
  }

  /** No save is refused, for want of a descriptor or of bytes. */
  predicate Fits(m: Model, saved: seq<Saved>, capacity: nat, bytes: nat) {
    saved == [] ||
    var n := |saved| - 1;
    Fits(m, saved[..n], capacity, bytes) && n != capacity && Room(m, saved[..n]) + Bytes(m, saved[n].loc) <= bytes
  }

  /** The bytes of the first `count` tensors' ranges, each in whole multiples of `unit`. */
  function RangeBytes(bytes: nat -> nat, count: nat, unit: nat): nat
    requires 0 < unit
  {
    if count == 0 then 0 else RangeBytes(bytes, count - 1, unit) + Round(bytes(count - 1), unit)
  }

  lemma {:induction false} RoomAdds(m: Model, a: seq<Saved>, b: seq<Saved>)
    ensures Room(m, a + b) == Room(m, a) + Room(m, b)
  {
    if b == [] {
      assert a + b == a;
    } else {
      RoomAdds(m, a, b[..|b| - 1]);
      assert (a + b)[..|a + b| - 1] == a + b[..|b| - 1];
    }
  }

  lemma {:induction false} RowRoom(m: Model, cells: bool, index: nat, row: int, tensors: nat)
    ensures Room(m, RowSaves(cells, index, row, tensors))
            == RangeBytes(if cells then m.cellBytes else m.blockBytes, tensors, ALIGN)
  {
    if tensors != 0 {
      RowRoom(m, cells, index, row, tensors - 1);
      assert RowSaves(cells, index, row, tensors)[..tensors - 1] == RowSaves(cells, index, row, tensors - 1);
    }
  }

  lemma {:induction false} CellRoom(m: Model, past: nat, rows: nat)
    ensures Room(m, CellSaves(m, past, rows)) == rows * RangeBytes(m.cellBytes, m.cells, ALIGN)
  {
    hide Room, RowSaves, RangeBytes;
    if rows == 0 {
      NoRoom(m);
    } else {
      CellRoom(m, past, rows - 1);
      RoomAdds(m, CellSaves(m, past, rows - 1), RowSaves(true, past + rows - 1, rows - 1, m.cells));
      RowRoom(m, true, past + rows - 1, rows - 1, m.cells);
      OneMore(rows, RangeBytes(m.cellBytes, m.cells, ALIGN));
    }
  }

  lemma {:induction false} BlockRoom(m: Model, past: nat, first: nat, end: nat)
    requires first <= end
    ensures Room(m, BlockSaves(m, past, first, end)) == (end - first) * RangeBytes(m.blockBytes, m.blocks, ALIGN)
  {
    hide Room, RowSaves, RangeBytes;
    if first == end {
      NoRoom(m);
    } else {
      BlockRoom(m, past, first, end - 1);
      RoomAdds(m, BlockSaves(m, past, first, end - 1), RowSaves(false, end - 1, m.last(end - 1) - past, m.blocks));
      RowRoom(m, false, end - 1, m.last(end - 1) - past, m.blocks);
      OneMore(end - first, RangeBytes(m.blockBytes, m.blocks, ALIGN));
    }
  }

  lemma NoRoom(m: Model)
    ensures Room(m, []) == 0
  {
  }

  lemma OneMore(n: nat, x: nat)
    requires 0 < n
    ensures n * x == (n - 1) * x + x
  {
  }

  lemma Split(n: nat, x: nat, y: nat)
    ensures n * (x - y) == n * x - n * y
  {
  }

  /** What decides before the first save is made whether all will fit: that the last does. */
  lemma {:induction false} FitsIff(m: Model, saved: seq<Saved>, capacity: nat, bytes: nat)
    ensures Fits(m, saved, capacity, bytes) <==>
              saved == [] || var n := |saved| - 1; n < capacity && Room(m, saved[..n]) + Bytes(m, saved[n].loc) <= bytes
  {
    if saved != [] {
      var n := |saved| - 1;
      FitsIff(m, saved[..n], capacity, bytes);
      if 0 < n { RoundLeast(Bytes(m, saved[n - 1].loc), ALIGN); }
    }
  }

  // So they fit where they and their padding are within the bytes.
  lemma FitsWithin(m: Model, saved: seq<Saved>, capacity: nat, bytes: nat)
    requires |saved| <= capacity && Room(m, saved) <= bytes
    ensures Fits(m, saved, capacity, bytes)
  {
    FitsIff(m, saved, capacity, bytes);
    hide Fits;
    if saved != [] { RoundLeast(Bytes(m, saved[|saved| - 1].loc), ALIGN); }
  }

  // However many tokens are past, `limit` rows end at most limit / ratio + 1 blocks.
  lemma BlocksAtMost(past: nat, rows: nat, limit: nat, ratio: nat)
    requires 0 < ratio && rows <= limit
    ensures 0 <= (past + rows) / ratio - past / ratio <= limit / ratio + 1
  {
    QuotientMonotone(past, past + rows, ratio);
    Quotient(past, ratio);
    Quotient(limit, ratio);
    var q, p := limit / ratio, past / ratio;
    assert (p + q + 2) * ratio == (p + 1) * ratio + (q + 1) * ratio;
    QuotientAtMost(past + rows, ratio, p + q + 1);
  }

  /** Some verify of at most `limit` rows within the context would find the snapshot full. */
  ghost predicate SnapshotShort(m: Model, limit: nat, capacity: nat, bytes: nat)
    requires 0 < m.ratio
  {
    exists past: nat, rows: nat {:trigger AllSaves(m, past, rows)} ::
      rows <= limit && past + rows <= m.context && !Fits(m, AllSaves(m, past, rows), capacity, bytes)
  }

  /** The bytes the runner maps for the snapshot of `limit` rows: their ranges, those of the blocks they
      can complete, and a page. */
  function SnapshotBytes(m: Model, limit: nat): nat
    requires 0 < m.ratio
  {
    Round(limit * RangeBytes(m.cellBytes, m.cells, 1) + (limit / m.ratio + 1) * RangeBytes(m.blockBytes, m.blocks, 1)
          + 4096, ALIGN)
  }

  // A verify of at most `limit` rows takes no more than the descriptors and bytes of `limit` rows and the
  // blocks they can complete.
  lemma VerifyRoom(m: Model, past: nat, rows: nat, limit: nat)
    requires 0 < m.ratio && rows <= limit
    ensures |AllSaves(m, past, rows)| <= limit * m.cells + (limit / m.ratio + 1) * m.blocks
    ensures Room(m, AllSaves(m, past, rows))
            <= limit * RangeBytes(m.cellBytes, m.cells, ALIGN) + (limit / m.ratio + 1) * RangeBytes(m.blockBytes, m.blocks, ALIGN)
  {
    hide Room, RangeBytes, CellSaves, BlockSaves;
    var first, end := past / m.ratio, (past + rows) / m.ratio;
    BlocksAtMost(past, rows, limit, m.ratio);
    CellCount(m, past, rows);
    BlockCount(m, past, first, end);
    CellRoom(m, past, rows);
    BlockRoom(m, past, first, end);
    RoomAdds(m, CellSaves(m, past, rows), BlockSaves(m, past, first, end));
    ProductMonotone(rows, limit, m.cells);
    ProductMonotone(end - first, limit / m.ratio + 1, m.blocks);
    ProductMonotone(rows, limit, RangeBytes(m.cellBytes, m.cells, ALIGN));
    ProductMonotone(end - first, limit / m.ratio + 1, RangeBytes(m.blockBytes, m.blocks, ALIGN));
  }

  /** The bytes mapped hold every verify the runner can be asked for, where the ranges' padding is within
      the page the sizing adds (as when every range is a multiple of 256 bytes), and descriptors are for
      every range. */
  lemma SnapshotSuffices(m: Model, limit: nat, capacity: nat)
    requires 0 < m.ratio
    requires limit * m.cells + (limit / m.ratio + 1) * m.blocks <= capacity
    requires limit * (RangeBytes(m.cellBytes, m.cells, ALIGN) - RangeBytes(m.cellBytes, m.cells, 1))
             + (limit / m.ratio + 1) * (RangeBytes(m.blockBytes, m.blocks, ALIGN) - RangeBytes(m.blockBytes, m.blocks, 1)) <= 4096
    ensures !SnapshotShort(m, limit, capacity, SnapshotBytes(m, limit))
  {
    hide AllSaves, Room, Fits, RangeBytes, SnapshotBytes;
    PageEnough(m, limit);
    forall past: nat, rows: nat | rows <= limit && past + rows <= m.context
      ensures Fits(m, AllSaves(m, past, rows), capacity, SnapshotBytes(m, limit))
    {
      VerifyRoom(m, past, rows, limit);
      FitsWithin(m, AllSaves(m, past, rows), capacity, SnapshotBytes(m, limit));
    }
  }

  lemma PageEnough(m: Model, limit: nat)
    requires 0 < m.ratio
    requires limit * (RangeBytes(m.cellBytes, m.cells, ALIGN) - RangeBytes(m.cellBytes, m.cells, 1))
             + (limit / m.ratio + 1) * (RangeBytes(m.blockBytes, m.blocks, ALIGN) - RangeBytes(m.blockBytes, m.blocks, 1)) <= 4096
    ensures limit * RangeBytes(m.cellBytes, m.cells, ALIGN) + (limit / m.ratio + 1) * RangeBytes(m.blockBytes, m.blocks, ALIGN)
            <= SnapshotBytes(m, limit)
  {
    hide RangeBytes, Round;
    var cells, blocks, ends := RangeBytes(m.cellBytes, m.cells, 1), RangeBytes(m.blockBytes, m.blocks, 1), limit / m.ratio + 1;
    Split(limit, RangeBytes(m.cellBytes, m.cells, ALIGN), cells);
    Split(ends, RangeBytes(m.blockBytes, m.blocks, ALIGN), blocks);
    RoundLeast(limit * cells + ends * blocks + 4096, ALIGN);
  }

  /** There are descriptors for the ranges of so many rows and the blocks they end, and bytes for them and for the padding
      of all but the last. */
  ghost predicate Enough(m: Model, rows: nat, ends: nat, capacity: nat, bytes: nat) {
    && rows * m.cells + ends * m.blocks <= capacity
    && (0 < ends && 0 < m.blocks ==>
          rows * RangeBytes(m.cellBytes, m.cells, ALIGN) + ends * RangeBytes(m.blockBytes, m.blocks, ALIGN)
          <= bytes + Padding(m.blockBytes(m.blocks - 1)))
    && ((ends == 0 || m.blocks == 0) && 0 < rows && 0 < m.cells ==>
          rows * RangeBytes(m.cellBytes, m.cells, ALIGN) <= bytes + Padding(m.cellBytes(m.cells - 1)))
  }

  function Padding(n: nat): nat {
    RoundLeast(n, ALIGN);
    Round(n, ALIGN) - n
  }

  // The last range is saved without its padding.
  lemma FitsPadded(m: Model, saved: seq<Saved>, capacity: nat, bytes: nat)
    ensures saved != [] ==>
              (Fits(m, saved, capacity, bytes) <==>
                 |saved| <= capacity && Room(m, saved) <= bytes + Padding(Bytes(m, saved[|saved| - 1].loc)))
    ensures saved == [] ==> Fits(m, saved, capacity, bytes)
  {
    FitsIff(m, saved, capacity, bytes);
  }

  lemma LastCell(m: Model, past: nat, rows: nat)
    requires 0 < rows && 0 < m.cells
    ensures var saved := CellSaves(m, past, rows); saved != [] && Bytes(m, saved[|saved| - 1].loc) == m.cellBytes(m.cells - 1)
  {
    assert RowSaves(true, past + rows - 1, rows - 1, m.cells)[m.cells - 1].loc == Place(true, m.cells - 1, past + rows - 1);
  }

  lemma LastBlock(m: Model, past: nat, first: nat, end: nat)
    requires first < end && 0 < m.blocks
    ensures var saved := BlockSaves(m, past, first, end);
            saved != [] && Bytes(m, saved[|saved| - 1].loc) == m.blockBytes(m.blocks - 1)
  {
    var row := RowSaves(false, end - 1, m.last(end - 1) - past, m.blocks);
    assert row[m.blocks - 1].loc == Place(false, m.blocks - 1, end - 1);
  }

  // The number of a verify's saves, their room, and the bytes of the last.
  lemma SavesTake(m: Model, past: nat, rows: nat)
    requires 0 < m.ratio
    ensures past / m.ratio <= (past + rows) / m.ratio
    ensures var (saved, ends) := (AllSaves(m, past, rows), (past + rows) / m.ratio - past / m.ratio);
            && |saved| == rows * m.cells + ends * m.blocks
            && Room(m, saved) == rows * RangeBytes(m.cellBytes, m.cells, ALIGN) + ends * RangeBytes(m.blockBytes, m.blocks, ALIGN)
            && (saved != [] ==> Bytes(m, saved[|saved| - 1].loc) == if 0 < ends && 0 < m.blocks then m.blockBytes(m.blocks - 1)
                                                                    else if 0 < m.cells then m.cellBytes(m.cells - 1) else 0)
  {
    hide Room, RangeBytes, CellSaves, BlockSaves, Bytes;
    var first, end := past / m.ratio, (past + rows) / m.ratio;
    QuotientMonotone(past, past + rows, m.ratio);
    CellCount(m, past, rows);
    BlockCount(m, past, first, end);
    CellRoom(m, past, rows);
    BlockRoom(m, past, first, end);
    RoomAdds(m, CellSaves(m, past, rows), BlockSaves(m, past, first, end));
    if first < end && 0 < m.blocks {
      LastBlock(m, past, first, end);
    } else {
      assert (end - first) * m.blocks == 0;
      if 0 < rows && 0 < m.cells { LastCell(m, past, rows); } else { assert rows * m.cells == 0; }
    }
  }

  /** What a verify needs, by its rows and the blocks they end alone. */
  lemma VerifyFits(m: Model, past: nat, rows: nat, capacity: nat, bytes: nat)
    requires 0 < m.ratio
    ensures past / m.ratio <= (past + rows) / m.ratio
    ensures Fits(m, AllSaves(m, past, rows), capacity, bytes) <==>
            Enough(m, rows, (past + rows) / m.ratio - past / m.ratio, capacity, bytes)
  {
    hide Fits, Room, RangeBytes, AllSaves, Padding, Bytes;
    SavesTake(m, past, rows);
    FitsPadded(m, AllSaves(m, past, rows), capacity, bytes);
    var ends := (past + rows) / m.ratio - past / m.ratio;
    ProductPositive(rows, m.cells);
    ProductPositive(ends, m.blocks);
    if ends == 0 || m.blocks == 0 { NoneOf(m, ends); }
  }

  lemma ProductPositive(n: nat, d: nat)
    ensures 0 < n * d <==> 0 < n && 0 < d
  {
  }

  // Nothing is saved of blocks that are none.
  lemma NoneOf(m: Model, ends: nat)
    requires ends == 0 || m.blocks == 0
    ensures ends * m.blocks == 0 && ends * RangeBytes(m.blockBytes, m.blocks, ALIGN) == 0
  {
  }

  // Fewer rows and ends need no more.
  lemma EnoughLess(m: Model, rows: nat, ends: nat, most: nat, mostEnds: nat, capacity: nat, bytes: nat)
    requires rows <= most && ends <= mostEnds && Enough(m, most, mostEnds, capacity, bytes)
    ensures Enough(m, rows, ends, capacity, bytes)
  {
    var c, b := RangeBytes(m.cellBytes, m.cells, ALIGN), RangeBytes(m.blockBytes, m.blocks, ALIGN);
    ProductMonotone(rows, most, m.cells);
    ProductMonotone(ends, mostEnds, m.blocks);
    ProductMonotone(rows, most, c);
    ProductMonotone(ends, mostEnds, b);
    if 0 < mostEnds && 0 < m.blocks {
      RoundLeast(m.blockBytes(m.blocks - 1), ALIGN);
      assert b == RangeBytes(m.blockBytes, m.blocks - 1, ALIGN) + Round(m.blockBytes(m.blocks - 1), ALIGN);
      ProductMonotone(1, mostEnds, b);
    }
    hide RangeBytes, Round;
  }

  // The most blocks that at most `limit` rows within the context can end, and a verify that ends as many.
  lemma MostEnds(past: nat, rows: nat, most: nat, context: nat, ratio: nat)
    requires 0 < ratio && rows <= most <= context && past + rows <= context
    ensures (past + rows) / ratio - past / ratio <= (if most + ratio - 1 <= context then most + ratio - 1 else context) / ratio
  {
    if most + ratio - 1 <= context { EndsFrom(past, rows, most, ratio); } else { QuotientMonotone(past + rows, context, ratio); }
  }

  lemma EndsFrom(past: nat, rows: nat, most: nat, ratio: nat)
    requires 0 < ratio && rows <= most
    ensures (past + rows) / ratio - past / ratio <= (most + ratio - 1) / ratio
  {
    var p, q := past / ratio, (most + ratio - 1) / ratio;
    Quotient(past, ratio);
    Quotient(most + ratio - 1, ratio);
    SumOfSteps(p, q, ratio);
    QuotientAtMost(past + rows, ratio, p + q);
  }

  lemma SumOfSteps(p: nat, q: nat, ratio: nat)
    ensures (p + q + 1) * ratio == (p + 1) * ratio + (q + 1) * ratio - ratio
  {
  }

  /** Exactly when a snapshot is short for some verify of at most `limit` rows: when it is for one of as many rows as there
      may be, whose first is the last of its block, or stands as far along as the context leaves room for. */
  lemma SnapshotShortIff(m: Model, limit: nat, capacity: nat, bytes: nat)
    requires 0 < m.ratio
    ensures var most := if limit <= m.context then limit else m.context;
            var end := if most + m.ratio - 1 <= m.context then most + m.ratio - 1 else m.context;
            SnapshotShort(m, limit, capacity, bytes) <==> !Enough(m, most, end / m.ratio, capacity, bytes)
  {
    hide AllSaves, Fits, Enough;
    var most := if limit <= m.context then limit else m.context;
    var end := if most + m.ratio - 1 <= m.context then most + m.ratio - 1 else m.context;
    VerifyFits(m, end - most, most, capacity, bytes);
    Remainder(end - most, m.ratio, 0, end - most);
    if Enough(m, most, end / m.ratio, capacity, bytes) {
      forall past: nat, rows: nat | rows <= limit && past + rows <= m.context
        ensures Fits(m, AllSaves(m, past, rows), capacity, bytes)
      {
        VerifyFits(m, past, rows, capacity, bytes);
        MostEnds(past, rows, most, m.context, m.ratio);
        EnoughLess(m, rows, (past + rows) / m.ratio - past / m.ratio, most, end / m.ratio, capacity, bytes);
      }
    }
  }

  // -------------------------------------------------------------- restoring and replaying

  // Copies that all put back the values of `prefix` leave those where they copy and the
  // memory elsewhere.
  lemma {:induction false} CopiedAt(m: Model, memory: map<Loc, Word>, snapshot: seq<Word>, copies: seq<RangeCopy>,
                                    prefix: seq<Token>, l: Loc)
    requires forall i | 0 <= i < |copies| :: copies[i].from < |snapshot| && copies[i].to in memory
    requires forall i | 0 <= i < |copies| :: snapshot[copies[i].from] == At(m, copies[i].to, prefix)
    requires l in memory
    ensures Copied(memory, snapshot, copies)[l]
            == if IsCopied(copies, l) then At(m, l, prefix) else memory[l]
  {
    if copies != [] {
      var n := |copies| - 1;
      CopiedAt(m, memory, snapshot, copies[..n], prefix, l);
      forall k | IsCopied(copies, k) ensures IsCopied(copies[..n], k) || k == copies[n].to {}
      if IsCopied(copies[..n], l) {
        var i :| 0 <= i < n && copies[..n][i].to == l;
        assert copies[i].to == l;
      }
    }
  }

  function Snapshot(memory: map<Loc, Word>, saved: seq<Saved>): (r: seq<Word>)
    requires forall k | 0 <= k < |saved| :: saved[k].loc in memory
    ensures |r| == |saved| && forall k | 0 <= k < |saved| :: r[k] == memory[saved[k].loc]
  {
    seq(|saved|, k requires 0 <= k < |saved| => memory[saved[k].loc])
  }

  // The saved copies of a verify after `held` are what the cache held before it.
  ghost predicate Snapshots(m: Model, held: seq<Token>, saved: seq<Saved>, snapshot: seq<Word>) {
    |snapshot| == |saved| && forall k | 0 <= k < |saved| :: snapshot[k] == At(m, saved[k].loc, held)
  }

  // The copies put back the saved ranges of rows `keep` and later, and of no row.
  ghost predicate RestoresFrom(saved: seq<Saved>, keep: nat, copies: seq<RangeCopy>) {
    && (forall i | 0 <= i < |copies| ::
          && copies[i].from < |saved| && saved[copies[i].from].loc == copies[i].to
          && (saved[copies[i].from].row < 0 || keep <= saved[copies[i].from].row))
    && (forall k {:trigger IsCopied(copies, saved[k].loc)}
          | 0 <= k < |saved| && (saved[k].row < 0 || keep <= saved[k].row) :: IsCopied(copies, saved[k].loc))
  }

  /** The copies that put back the saved ranges of rows `keep` and later, and of no row. */
  method Restores(saved: seq<Saved>, keep: nat) returns (copies: seq<RangeCopy>)
    ensures RestoresFrom(saved, keep, copies)
  {
    copies := [];
    for k := 0 to |saved|
      invariant RestoresFrom(saved[..k], keep, copies)
    {
      ghost var before := copies;
      if saved[k].row < 0 || saved[k].row >= keep {
        copies := copies + [RangeCopy(k, saved[k].loc)];
        assert copies[|copies| - 1].to == saved[k].loc;
      }
      forall l | IsCopied(before, l) ensures IsCopied(copies, l) {
        var i :| 0 <= i < |before| && before[i].to == l;
        assert copies[i].to == l;
      }
      forall j | 0 <= j < k && (saved[j].row < 0 || keep <= saved[j].row) ensures IsCopied(before, saved[j].loc) {
        assert IsCopied(before, saved[..k][j].loc);
      }
    }
    assert saved[..|saved|] == saved;
  }

  /** Putting back the rows past `keep` of a verify of `rows` leaves the cache of the kept
      rows alone, over every location. With `keep` 0 the verify is undone whole, whatever it
      wrote where it had saved. */
  lemma RestoredCache(m: Model, held: seq<Token>, rows: seq<Token>, keep: nat, memory: map<Loc, Word>,
                      saved: seq<Saved>, snapshot: seq<Word>, copies: seq<RangeCopy>)
    requires keep <= |rows|
    requires Covers(m, |held|, |rows|, saved) && Snapshots(m, held, saved, snapshot)
    requires RestoresFrom(saved, keep, copies)
    requires memory.Keys == Locs(m)
    requires forall l | l in memory && !(|held| + keep <= Writer(m, l) < |held| + |rows|) ::
        memory[l] == At(m, l, held + rows)
    ensures Holds(m, Copied(memory, snapshot, copies), held + rows[..keep])
  {
    forall l | l in memory ensures Copied(memory, snapshot, copies)[l] == At(m, l, held + rows[..keep]) {
      CopiedAt(m, memory, snapshot, copies, held, l);
      RestoredAt(m, held, rows, keep, saved, copies, l);
    }
  }

  // The locations put back are those written by rows past `keep`.
  lemma RestoredAt(m: Model, held: seq<Token>, rows: seq<Token>, keep: nat, saved: seq<Saved>,
                   copies: seq<RangeCopy>, l: Loc)
    requires keep <= |rows| && InState(m, l)
    requires Covers(m, |held|, |rows|, saved) && RestoresFrom(saved, keep, copies)
    ensures IsCopied(copies, l) <==> |held| + keep <= Writer(m, l) < |held| + |rows|
    ensures At(m, l, held + rows[..keep]) == if IsCopied(copies, l) then At(m, l, held) else At(m, l, held + rows)
  {
    var w := Writer(m, l);
    if |held| + keep <= w < |held| + |rows| {
      assert IsSaved(saved, l);
      var k :| 0 <= k < |saved| && saved[k].loc == l;
      assert IsCopied(copies, saved[k].loc);
    } else if w < |held| + keep {
      assert (held + rows)[..w + 1] == (held + rows[..keep])[..w + 1];
    }
  }

  /** Replaying the kept rows' saved inputs gives the recurrent state of decoding them. */
  lemma {:induction false} ReplayedRecurrent(m: Model, held: seq<Token>, rows: seq<Token>, inputs: seq<Word>, keep: nat)
    requires keep <= |rows| == |inputs|
    requires forall i | 0 <= i < |rows| :: inputs[i] == m.input(held + rows[..i + 1])
    ensures Replay(m, Recurrent(m, held), inputs[..keep]) == Recurrent(m, held + rows[..keep])
  {
    if keep == 0 {
      assert held + rows[..0] == held;
    } else {
      ReplayedRecurrent(m, held, rows, inputs, keep - 1);
      assert inputs[..keep][..keep - 1] == inputs[..keep - 1];
      var all := held + rows[..keep];
      assert all[..|all| - 1] == held + rows[..keep - 1];
    }
  }

  // The inputs to the recurrence of the rows history[past..].
  function RowInputs(m: Model, history: seq<Token>, past: nat): (r: seq<Word>)
    requires past <= |history|
    ensures |r| == |history| - past
    ensures forall i | 0 <= i < |r| :: r[i] == m.input(history[..past + i + 1])
  {
    seq(|history| - past, i requires 0 <= i < |history| - past => m.input(history[..past + i + 1]))
  }

  /** A verify's answer: every row's logits, each on the tokens through it. */
  function RowLogits(m: Model, history: seq<Token>, past: nat): (r: seq<Logits>)
    requires past <= |history|
    ensures |r| == |history| - past
    ensures forall i | 0 <= i < |r| :: r[i] == m.logits(history[..past + i + 1])
  {
    seq(|history| - past, i requires 0 <= i < |history| - past => m.logits(history[..past + i + 1]))
  }

  // The cache with the rows history[past..] written.
  function Written(m: Model, memory: map<Loc, Word>, history: seq<Token>, past: nat): (r: map<Loc, Word>)
    requires past <= |history|
    ensures r.Keys == memory.Keys
  {
    map l | l in memory ::
      if past <= Writer(m, l) < |history| then Value(m, l, history[..Writer(m, l) + 1]) else memory[l]
  }

  // Writing the rows history[past..] onto the state of history[..past] gives the state of
  // the whole history.
  lemma RowsWritten(m: Model, memory: map<Loc, Word>, history: seq<Token>, past: nat)
    requires past <= |history| && Holds(m, memory, history[..past])
    ensures Holds(m, Written(m, memory, history, past), history)
  {
    hide Locs;
    forall l | l in memory ensures Written(m, memory, history, past)[l] == At(m, l, history) {
      WrittenAt(m, memory, history, past, l);
    }
  }

  lemma WrittenAt(m: Model, memory: map<Loc, Word>, history: seq<Token>, past: nat, l: Loc)
    requires past <= |history| && l in memory && memory[l] == At(m, l, history[..past])
    ensures Written(m, memory, history, past)[l] == At(m, l, history)
  {
    hide Writer, Value;
    if Writer(m, l) < past {
      assert history[..past][..Writer(m, l) + 1] == history[..Writer(m, l) + 1];
    }
  }

  lemma RowsReplayed(m: Model, history: seq<Token>, past: nat)
    requires past <= |history|
    ensures Recurrent(m, history) == Replay(m, Recurrent(m, history[..past]), RowInputs(m, history, past))
  {
    var rows := history[past..];
    forall i | 0 <= i < |rows| ensures RowInputs(m, history, past)[i] == m.input(history[..past] + rows[..i + 1]) {
      assert history[..past + i + 1] == history[..past] + rows[..i + 1];
    }
    ReplayedRecurrent(m, history[..past], rows, RowInputs(m, history, past), |rows|);
    assert rows[..|rows|] == rows && history[..past] + rows == history;
    assert RowInputs(m, history, past)[..|rows|] == RowInputs(m, history, past);
  }

  // ------------------------------------------------------------------------ the runner

  /** How a job ended. A job that fails after it may have written leaves what `wrote` says
      where it wrote. */
  datatype Outcome =
    | Done
    | NotStarted                     // refused before anything was queued
    | Refused                        // refused once what was owed was queued, and before its own run wrote
    | Failed(wrote: map<Loc, Word>)  // a definite failure of the job's own run
    | Unknown(wrote: map<Loc, Word>) // a launch of unknown effect, at any point

  function Overwritten(memory: map<Loc, Word>, wrote: map<Loc, Word>): (r: map<Loc, Word>)
    ensures r.Keys == memory.Keys && forall l | l in memory && l in wrote :: r[l] == wrote[l]
  {
    map l | l in memory :: if l in wrote then wrote[l] else memory[l]
  }

  function Zeroed(memory: map<Loc, Word>): (r: map<Loc, Word>)
    ensures r.Keys == memory.Keys && forall l | l in r :: r[l] == 0
  {
    map l | l in memory :: 0
  }

  /** What is owed leaves the state of `held`. */
  ghost predicate Settled(m: Model, memory: map<Loc, Word>, recurrent: Word, snapshot: seq<Word>, inputs: seq<Word>,
                          restore: seq<RangeCopy>, commitKeep: nat, held: seq<Token>) {
    && (forall i | 0 <= i < |restore| :: restore[i].from < |snapshot| && restore[i].to in memory)
    && commitKeep <= |inputs|
    && Holds(m, Copied(memory, snapshot, restore), held)
    && Replay(m, recurrent, inputs[..commitKeep]) == Recurrent(m, held)
  }

  /** A verify of `judged` after `held` has run and awaits its Accept. */
  ghost predicate Awaiting(m: Model, memory: map<Loc, Word>, recurrent: Word, snapshot: seq<Word>, inputs: seq<Word>,
                           saved: seq<Saved>, held: seq<Token>, judged: seq<Token>) {
    && |held| + |judged| <= m.context
    && Holds(m, memory, held + judged) && recurrent == Recurrent(m, held)
    && Covers(m, |held|, |judged|, saved) && Snapshots(m, held, saved, snapshot)
    && |inputs| == |judged|
    && (forall i | 0 <= i < |judged| :: inputs[i] == m.input(held + judged[..i + 1]))
  }

  /** Accepting `keep` rows of an awaiting verify leaves the state of those rows owed, whatever
      the other rows were. */
  lemma Accepted(m: Model, memory: map<Loc, Word>, recurrent: Word, snapshot: seq<Word>, inputs: seq<Word>,
                 saved: seq<Saved>, held: seq<Token>, judged: seq<Token>, keep: nat, copies: seq<RangeCopy>)
    requires Awaiting(m, memory, recurrent, snapshot, inputs, saved, held, judged)
    requires keep <= |judged| && RestoresFrom(saved, keep, copies)
    ensures Settled(m, memory, recurrent, snapshot, inputs, copies, keep, held + judged[..keep])
  {
    RestoredCache(m, held, judged, keep, memory, saved, snapshot, copies);
    ReplayedRecurrent(m, held, judged, inputs, keep);
  }

  lemma Cleared(m: Model, memory: map<Loc, Word>, snapshot: seq<Word>, inputs: seq<Word>)
    requires memory.Keys == Locs(m) && forall l | l in memory :: memory[l] == 0
    ensures Settled(m, memory, m.start, snapshot, inputs, [], 0, [])
  {
    NothingOwed(m, memory, m.start, snapshot, inputs, []);
  }

  lemma SavedInState(m: Model, past: nat, rows: nat, saved: seq<Saved>)
    requires Covers(m, past, rows, saved)
    ensures forall k | 0 <= k < |saved| :: saved[k].loc in Locs(m)
  {
  }

  // Nothing is owed of a state that already is the tokens held.
  lemma NothingOwed(m: Model, memory: map<Loc, Word>, recurrent: Word, snapshot: seq<Word>, inputs: seq<Word>,
                    held: seq<Token>)
    ensures Settled(m, memory, recurrent, snapshot, inputs, [], 0, held)
            <==> Holds(m, memory, held) && recurrent == Recurrent(m, held)
  {
    assert inputs[..0] == [];
  }

  // A verify that failed after its saves is undone by restoring every one of them, whatever
  // its run wrote where it had saved.
  lemma UndoneVerify(m: Model, memory: map<Loc, Word>, wrote: map<Loc, Word>, held: seq<Token>, rows: nat,
                     saved: seq<Saved>, copies: seq<RangeCopy>)
    requires Holds(m, memory, held) && wrote.Keys == memory.Keys
    requires forall l | l in memory && !IsSaved(saved, l) :: wrote[l] == memory[l]
    requires Covers(m, |held|, rows, saved) && RestoresFrom(saved, 0, copies)
    requires forall k | 0 <= k < |saved| :: saved[k].loc in memory
    ensures Settled(m, wrote, Recurrent(m, held), Snapshot(memory, saved), [], copies, 0, held)
  {
    var snapshot := Snapshot(memory, saved);
    forall l | l in wrote ensures Copied(wrote, snapshot, copies)[l] == At(m, l, held) {
      CopiedAt(m, wrote, snapshot, copies, held, l);
      if IsSaved(saved, l) {
        var k :| 0 <= k < |saved| && saved[k].loc == l;
        assert IsCopied(copies, saved[k].loc);
      }
    }
  }

  // A verify's rows, run on the state of `held`, await their Accept.
  lemma VerifyAwaits(m: Model, memory: map<Loc, Word>, history: seq<Token>, past: nat, saved: seq<Saved>)
    requires past <= |history| <= m.context && Holds(m, memory, history[..past])
    requires Covers(m, past, |history| - past, saved)
    requires forall k | 0 <= k < |saved| :: saved[k].loc in memory
    ensures Awaiting(m, Written(m, memory, history, past), Recurrent(m, history[..past]), Snapshot(memory, saved),
                     RowInputs(m, history, past), saved, history[..past], history[past..])
  {
    var held, judged := history[..past], history[past..];
    RowsWritten(m, memory, history, past);
    assert held + judged == history;
    forall i | 0 <= i < |judged| ensures RowInputs(m, history, past)[i] == m.input(held + judged[..i + 1]) {
      assert history[..past + i + 1] == held + judged[..i + 1];
    }
  }

  // What a failed run leaves: it writes nothing it has not saved.
  function Scribbled(memory: map<Loc, Word>, wrote: map<Loc, Word>, saved: seq<Saved>): (r: map<Loc, Word>)
    ensures r.Keys == memory.Keys
    ensures forall l | l in memory && !IsSaved(saved, l) :: r[l] == memory[l]
  {
    map l | l in memory :: if l in wrote && IsSaved(saved, l) then wrote[l] else memory[l]
  }

  class Runner {
    const m: Model
    const capacity: nat      // descriptors of the snapshot's ranges
    const snapshotBytes: nat // bytes of the snapshot
    const maxRows: nat       // the most rows of a verify
    // The device.
    var memory: map<Loc, Word>
    var recurrent: Word
    var snapshot: seq<Word>
    var inputs: seq<Word> // the last verify's saved row inputs
    // The host.
    var saved: seq<Saved>
    var restore: seq<RangeCopy> // owed
    var commitKeep: nat         // owed: rows to commit
    var verifyRows: nat         // awaiting Accept
    var quarantined: bool
    // The tokens the state stands for, and those of a verify awaiting its Accept.
    ghost var held: seq<Token>
    ghost var judged: seq<Token>

    ghost predicate Valid()
      reads this
    {
      && ValidModel(m) && memory.Keys == Locs(m)
      && (!quarantined && verifyRows == 0 ==>
            Settled(m, memory, recurrent, snapshot, inputs, restore, commitKeep, held))
      && (!quarantined && verifyRows != 0 ==>
            && restore == [] && commitKeep == 0 && verifyRows == |judged|
            && Awaiting(m, memory, recurrent, snapshot, inputs, saved, held, judged))
    }

    constructor (m: Model, capacity: nat, snapshotBytes: nat, maxRows: nat)
      requires ValidModel(m)
      ensures Valid() && !quarantined && verifyRows == 0 && held == []
      ensures this.m == m && this.capacity == capacity && this.snapshotBytes == snapshotBytes && this.maxRows == maxRows
    {
      this.m, this.capacity, this.snapshotBytes, this.maxRows := m, capacity, snapshotBytes, maxRows;
      memory := map l | l in Locs(m) :: 0;
      recurrent := m.start;
      snapshot, inputs, saved, restore := [], [], [], [];
      commitKeep, verifyRows, quarantined := 0, 0, false;
      held, judged := [], [];
    }

    /** Zeroes the state and drops what is owed. The quarantine lifts once the job has run. */
    method Clear(o: Outcome) returns (r: Result<()>)
      requires Valid()
      modifies this
      ensures Valid()
      ensures r.Ok? <==> o.Done?
      ensures r.Ok? ==> !quarantined && verifyRows == 0 && restore == [] && commitKeep == 0 && held == []
      ensures r.Err? ==> quarantined
    {
      hide Settled, Awaiting, Locs, ValidModel, Overwritten, Zeroed;
      restore, commitKeep, saved, verifyRows, quarantined := [], 0, [], 0, true;
      if !o.Done? {
        if o.Failed? || o.Unknown? { memory := Overwritten(memory, o.wrote); }
        return Err("the clear did not run");
      }
      memory := Zeroed(memory);
      recurrent := m.start;
      Cleared(m, memory, snapshot, inputs);
      quarantined := false;
      held := [];
      return Ok(());
    }

    // Queues the restore and then the commit, at the start of a job.
    method QueueOwed()
      requires Settled(m, memory, recurrent, snapshot, inputs, restore, commitKeep, held)
      modifies this`memory, this`recurrent, this`restore, this`commitKeep
      ensures restore == [] && commitKeep == 0
      ensures Holds(m, memory, held) && recurrent == Recurrent(m, held)
    {
      memory := Copied(memory, snapshot, restore);
      restore := [];
      recurrent := Replay(m, recurrent, inputs[..commitKeep]);
      commitKeep := 0;
    }

    // After a launch that may have left anything.
    method Quarantine(wrote: map<Loc, Word>)
      requires Valid()
      modifies this`memory, this`quarantined
      ensures Valid() && quarantined
    {
      memory := Overwritten(memory, wrote);
      quarantined := true;
    }

    /** Runs what is owed now. After it the device holds the state of the tokens held: the
        whole cache and recurrent state that decoding them one by one leaves. */
    method Rollback(o: Outcome) returns (r: Result<()>)
      requires Valid() && verifyRows == 0
      modifies this
      ensures Valid() && held == old(held) && verifyRows == 0
      ensures r.Ok? ==> !quarantined && Holds(m, memory, held) && recurrent == Recurrent(m, held)
      ensures !old(quarantined) && !o.Unknown? ==> !quarantined
      ensures !old(quarantined) && o.Done? ==> r.Ok?
    {
      hide Awaiting, Replay, Recurrent, Locs, ValidModel, Holds, Copied;
      NothingOwed(m, memory, recurrent, snapshot, inputs, held);
      if quarantined { return Err("the state is quarantined"); }
      if restore == [] && commitKeep == 0 { return Ok(()); }
      match o
      case Done =>
        QueueOwed();
        NothingOwed(m, memory, recurrent, snapshot, inputs, held);
        return Ok(());
      case NotStarted =>
        return Err("the job did not start");
      case Unknown(wrote) =>
        Quarantine(wrote);
        return Err("a launch of unknown effect");
      case _ => // what was queued has run, and the job has nothing else to write
        QueueOwed();
        NothingOwed(m, memory, recurrent, snapshot, inputs, held);
        return Err("the job failed");
    }

    /** A chunk of plain decoding: history[past..] after the tokens held. Its last row's
        logits. Whatever may have spoiled the state leaves it quarantined. */
    method Chunk(history: seq<Token>, past: nat, o: Outcome) returns (r: Result<Logits>)
      requires Valid()
      requires !quarantined && past <= |history| ==> history[..past] == held
      modifies this
      ensures Valid() && verifyRows == old(verifyRows)
      ensures r.Ok? <==> !old(quarantined) && old(verifyRows) == 0 && past < |history| <= m.context && o.Done?
      ensures r.Ok? ==> r.value == m.logits(history) && held == history && !quarantined
      ensures r.Err? ==> held == old(held)
      ensures !old(quarantined) && (o.NotStarted? || o.Refused?) ==> !quarantined
    {
      hide Settled, Awaiting, Replay, Recurrent, Locs, ValidModel, Holds, Written, RowInputs, Overwritten;
      if quarantined { return Err("the state is quarantined"); }
      if verifyRows != 0 { return Err("the last verify awaits its Accept"); }
      if |history| <= past { return Err("an empty chunk"); }
      if |history| > m.context { return Err("past the context"); }
      if o.NotStarted? { return Err("the job did not start"); }
      if o.Failed? || o.Unknown? {
        Quarantine(o.wrote);
        return Err("the job failed");
      }
      QueueOwed();
      if o.Refused? {
        NothingOwed(m, memory, recurrent, snapshot, inputs, held);
        return Err("the run was refused");
      }
      RowsWritten(m, memory, history, past);
      RowsReplayed(m, history, past);
      memory := Written(m, memory, history, past);
      recurrent := Replay(m, recurrent, RowInputs(m, history, past));
      held := history;
      NothingOwed(m, memory, recurrent, snapshot, inputs, held);
      return Ok(m.logits(history));
    }

    // A verify's run fails: the whole of it is owed back.
    method FailVerify(history: seq<Token>, past: nat, wrote: map<Loc, Word>)
      requires Valid() && !quarantined && verifyRows == 0
      requires past <= |history| && history[..past] == held && Covers(m, past, |history| - past, saved)
      modifies this`memory, this`recurrent, this`restore, this`commitKeep, this`snapshot, this`inputs
      ensures Valid()
    {
      hide Settled, Awaiting, Covers, RestoresFrom, Locs, ValidModel, IsSaved;
      QueueOwed();
      SavedInState(m, past, |history| - past, saved);
      var copies := Restores(saved, 0);
      UndoneVerify(m, memory, Scribbled(memory, wrote, saved), held, |history| - past, saved, copies);
      snapshot, inputs := Snapshot(memory, saved), [];
      memory, restore := Scribbled(memory, wrote, saved), copies;
    }

    // A verify's run completes: its rows await their Accept.
    method RunVerify(history: seq<Token>, past: nat)
      requires Valid() && !quarantined && verifyRows == 0
      requires past < |history| <= m.context && history[..past] == held && Covers(m, past, |history| - past, saved)
      modifies this`memory, this`recurrent, this`restore, this`commitKeep, this`snapshot, this`inputs, this`verifyRows,
        this`judged
      ensures Valid() && verifyRows == |history| - past && judged == history[past..]
    {
      hide Settled, Awaiting, Covers, Locs, ValidModel;
      QueueOwed();
      SavedInState(m, past, |history| - past, saved);
      VerifyAwaits(m, memory, history, past, saved);
      snapshot, inputs := Snapshot(memory, saved), RowInputs(m, history, past);
      memory := Written(m, memory, history, past);
      verifyRows, judged := |history| - past, history[past..];
    }

    /** A verify of history[past..], the anchor and its drafts, after the tokens held: every
        row's logits. A failed one is undone whole before the next job's own work, or the
        state is quarantined. */
    method Verify(history: seq<Token>, past: nat, o: Outcome) returns (r: Result<seq<Logits>>)
      requires Valid()
      requires !quarantined && past <= |history| ==> history[..past] == held
      modifies this
      ensures Valid() && held == old(held)
      ensures r.Ok? ==> past < |history| <= m.context && |history| - past <= maxRows && !quarantined
      ensures r.Ok? ==> verifyRows == |history| - past && judged == history[past..]
      ensures r.Ok? ==> r.value == RowLogits(m, history, past)
      ensures r.Err? ==> verifyRows == old(verifyRows)
      ensures r.Err? && !old(quarantined) && !o.Unknown? ==> !quarantined
      ensures (!old(quarantined) && old(verifyRows) == 0 && past < |history| <= m.context
               && |history| - past <= maxRows && o.Done?) ==>
              (r.Ok? <==> Fits(m, AllSaves(m, past, |history| - past), capacity, snapshotBytes))
    {
      hide Settled, Awaiting, Covers, AllSaves, Fits;
      if quarantined { return Err("the state is quarantined"); }
      if verifyRows != 0 { return Err("the last verify awaits its Accept"); }
      if |history| <= past || |history| - past > maxRows { return Err("a verify of other rows"); }
      if |history| > m.context { return Err("past the context"); }
      saved := Saves(m, past, |history| - past);
      if !Fits(m, saved, capacity, snapshotBytes) { return Err("a verify writes more than its snapshot holds"); }
      match o
      case NotStarted =>
        return Err("the job did not start");
      case Unknown(wrote) =>
        Quarantine(wrote);
        return Err("a launch of unknown effect");
      case Refused =>
        FailVerify(history, past, map[]);
        return Err("the run was refused");
      case Failed(wrote) =>
        FailVerify(history, past, wrote);
        return Err("the run failed");
      case Done =>
        RunVerify(history, past);
        return Ok(RowLogits(m, history, past));
    }

    /** The first `keep` rows of the last verify stay: the state now stands for them too, once
        what this owes has run. */
    method Accept(keep: nat) returns (r: Result<()>)
      requires Valid()
      modifies this
      ensures Valid() && quarantined == old(quarantined)
      ensures r.Ok? <==> !quarantined && 1 <= keep <= old(verifyRows)
      ensures r.Ok? ==> verifyRows == 0 && held == old(held) + old(judged)[..keep]
      ensures r.Err? ==> held == old(held) && verifyRows == old(verifyRows)
    {
      hide Settled, Awaiting, RestoresFrom;
      if quarantined { return Err("the state is quarantined"); }
      if verifyRows == 0 || keep == 0 || keep > verifyRows { return Err("accepting other rows"); }
      restore := Restores(saved, keep);
      commitKeep := keep;
      verifyRows := 0;
      Accepted(m, memory, recurrent, snapshot, inputs, saved, held, judged, keep, restore);
      held := held + judged[..keep];
      return Ok(());
    }
  }
}
