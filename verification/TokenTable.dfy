/** Loading with the token table kept on the host (benchmarks/fp16_exec.cc, LoadWeights): a window of one group, copied
    piece by piece out of whatever segments hold parts of it, in whatever order they are read. */
module TokenTable {
  import opened Results

  type Byte = bv8

  /** A piece of a group as it was read, and the digest its chunk must have. */
  datatype Segment<Digest> = Segment(group: nat, offset: nat, piece: seq<Byte>, digest: Digest)

  /** The bytes a group has in the artifact from an offset on. */
  ghost predicate IsPiece(groups: seq<seq<Byte>>, g: nat, offset: nat, piece: seq<Byte>) {
    g < |groups| && offset + |piece| <= |groups[g]| && groups[g][offset..offset + |piece|] == piece
  }

  /** Digests tell right pieces from wrong ones: one that has its chunk's digest is the artifact's. */
  ghost predicate Tells<D(!new)>(hash: seq<Byte> -> D, groups: seq<seq<Byte>>, segments: seq<Segment<D>>) {
    forall i | 0 <= i < |segments| && hash(segments[i].piece) == segments[i].digest ::
      IsPiece(groups, segments[i].group, segments[i].offset, segments[i].piece)
  }

  /** A byte of a group that one of the segments holds. */
  ghost predicate Held<D>(segments: seq<Segment<D>>, g: nat, x: int) {
    exists i :: 0 <= i < |segments| && segments[i].group == g && segments[i].offset <= x < segments[i].offset + |segments[i].piece|
  }

  function Larger(a: nat, b: nat): nat { if a < b then b else a }

  function Smaller(a: nat, b: nat): nat { if a < b then a else b }

  /** The part of one segment that lies in the table. */
  method CopyPart(table: array<Byte>, from: nat, offset: nat, piece: seq<Byte>)
    modifies table
    ensures forall k | 0 <= k < table.Length ::
              table[k] == if offset <= from + k < offset + |piece| then piece[from + k - offset] else old(table[k])
  {
    var lo, hi := Larger(from, offset), Smaller(from + table.Length, offset + |piece|);
    if lo < hi {
      for x := lo to hi
        invariant forall k | 0 <= k < table.Length ::
                    table[k] == if lo <= from + k < x then piece[from + k - offset] else old(table[k])
      {
        table[x - from] := piece[x - offset];
      }
    }
  }

  function Sum(counts: seq<nat>): nat {
    if counts == [] then 0 else Sum(counts[..|counts| - 1]) + counts[|counts| - 1]
  }

  /** Numbered chunks of the groups, each once. */
  ghost function Numbered(counts: seq<nat>): set<(nat, nat)> {
    set g: nat, c: nat | g < |counts| && c < counts[g] :: (g, c)
  }

  lemma {:induction false} SumCounts(counts: seq<nat>)
    ensures Sum(counts) == |Numbered(counts)|
  {
    if counts == [] {
      assert Numbered(counts) == {};
    } else {
      var last := |counts| - 1;
      SumCounts(counts[..last]);
      var mine := set c: nat | c < counts[last] :: (last, c);
      LastCounts(last, counts[last]);
      assert Numbered(counts) == Numbered(counts[..last]) + mine;
    }
  }

  lemma {:induction false} LastCounts(g: nat, n: nat)
    ensures |set c: nat | c < n :: (g, c)| == n
  {
    var all := set c: nat | c < n :: (g, c);
    if n == 0 {
      assert all == {};
    } else {
      LastCounts(g, n - 1);
      assert all == (set c: nat | c < n - 1 :: (g, c)) + {(g, n - 1)};
    }
  }

  /** The table after loading: the artifact's bytes wherever a segment held them, and as it was elsewhere. Refused if
      and only if some segment's digest does not match, or there are not as many segments as the groups have chunks and
      the artifact digests. */
  method Load<D(!new,==)>(table: array<Byte>, group: nat, from: nat, segments: seq<Segment<D>>, hash: seq<Byte> -> D,
                          chunks: seq<nat>, digests: nat, ghost groups: seq<seq<Byte>>)
    returns (r: Result<nat>)
    requires group < |groups| && from + table.Length <= |groups[group]| && Tells(hash, groups, segments)
    modifies table
    ensures r.Ok? <==> && (forall i | 0 <= i < |segments| :: hash(segments[i].piece) == segments[i].digest)
                       && |segments| == digests == |set g: nat, c: nat | g < |chunks| && c < chunks[g] :: (g, c)|
    ensures r.Ok? ==> r.value == |segments|
    ensures r.Ok? ==> forall k | 0 <= k < table.Length ::
                        table[k] == if Held(segments, group, from + k) then groups[group][from + k] else old(table[k])
  {
    hide Held;
    var verified := 0;
    HeldNone(segments, group);
    for i := 0 to |segments|
      invariant verified == i && forall j | 0 <= j < i :: hash(segments[j].piece) == segments[j].digest
      invariant forall k | 0 <= k < table.Length ::
                  table[k] == if Held(segments[..i], group, from + k) then groups[group][from + k] else old(table[k])
    {
      var segment := segments[i];
      if hash(segment.piece) != segment.digest { return Err("a chunk does not match its digest"); }
      verified := verified + 1;
      ghost var before := table[..];
      if segment.group == group { CopyPart(table, from, segment.offset, segment.piece); }
      forall k | 0 <= k < table.Length
        ensures table[k] == if Held(segments[..i + 1], group, from + k) then groups[group][from + k] else old(table[k])
      {
        HeldNext(segments, i, group, from + k);
        assert before[k] == if Held(segments[..i], group, from + k) then groups[group][from + k] else old(table[k]);
        if segment.group == group && segment.offset <= from + k < segment.offset + |segment.piece| {
          PieceAt(groups, group, segment.offset, segment.piece, from + k);
        }
      }
    }
    assert segments[..|segments|] == segments;
    var total := 0;
    for g := 0 to |chunks|
      invariant total == Sum(chunks[..g])
    {
      total := total + chunks[g];
      assert chunks[..g + 1][..g] == chunks[..g];
    }
    assert chunks[..|chunks|] == chunks;
    SumCounts(chunks);
    if verified != total || total != digests { return Err("not every chunk was read and verified"); }
    return Ok(verified);
  }

  lemma HeldNone<D>(segments: seq<Segment<D>>, g: nat)
    ensures segments[..0] == [] && forall x {:trigger Held(segments[..0], g, x)} :: !Held(segments[..0], g, x)
  {
  }

  lemma HeldNext<D>(segments: seq<Segment<D>>, i: nat, g: nat, x: int)
    requires i < |segments|
    ensures var s := segments[i];
            Held(segments[..i + 1], g, x) <==> Held(segments[..i], g, x) || (s.group == g && s.offset <= x < s.offset + |s.piece|)
  {
    var before, after := segments[..i], segments[..i + 1];
    if Held(before, g, x) {
      var j :| 0 <= j < i && before[j].group == g && before[j].offset <= x < before[j].offset + |before[j].piece|;
      assert after[j] == before[j];
    }
    assert after[i] == segments[i];
    if Held(after, g, x) {
      var j :| 0 <= j < i + 1 && after[j].group == g && after[j].offset <= x < after[j].offset + |after[j].piece|;
      if j < i { assert before[j] == after[j]; }
    }
  }

  lemma PieceAt(groups: seq<seq<Byte>>, g: nat, offset: nat, piece: seq<Byte>, x: nat)
    requires IsPiece(groups, g, offset, piece) && offset <= x < offset + |piece|
    ensures piece[x - offset] == groups[g][x]
  {
    assert groups[g][offset..offset + |piece|][x - offset] == groups[g][x];
  }
}
