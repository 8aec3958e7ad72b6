/** Where an artifact's chunks are, and how chunks are read (src/artifact/layout.cc): chunks adjacent in one
    shard coalesce into one read, within its limits. */
module ReadPlan {
  import opened Results

  const CHUNK_BYTES: nat := 0x20_0000
  const LIMIT: nat := 0x1_0000_0000_0000_0000 // of a 64-bit count of bytes

  /** A sum of byte counts, none if it overflows. */
  function Plus(a: nat, b: nat): Option<nat> {
    if a + b < LIMIT then Some(a + b) else None
  }

  datatype Group = Group(shard: nat, offset: nat, stored: nat, chunks: nat)

  /** Each shard's data section's offset in its file, and the groups. */
  datatype Layout = Layout(shards: seq<nat>, groups: seq<Group>)

  datatype ChunkKey = ChunkKey(group: nat, chunk: nat)

  datatype ChunkRange = ChunkRange(shard: nat, fileOffset: nat, length: nat)

  datatype ReadSegment = ReadSegment(chunk: ChunkKey, length: nat, groupOffset: nat)

  datatype ReadRun = ReadRun(shard: nat, fileOffset: nat, length: nat, segments: seq<ReadSegment>)

  datatype ReadLimits = ReadLimits(maxRun: nat, maxSegments: nat)

  predicate Before(a: ChunkKey, b: ChunkKey) {
    a.group < b.group || (a.group == b.group && a.chunk < b.chunk)
  }

  /** Where a chunk is in its shard's file; refused outside the layout. */
  function ChunkRangeOf(layout: Layout, key: ChunkKey): (r: Result<ChunkRange>)
    ensures r.Ok? ==> 0 < r.value.length <= CHUNK_BYTES
  {
    if key.group >= |layout.groups| then Err("no such group")
    else
      var g := layout.groups[key.group];
      if key.chunk >= g.chunks then Err("no such chunk in the group")
      else if g.shard >= |layout.shards| then Err("no such shard")
      else
        var start := key.chunk * CHUNK_BYTES;
        var base := Plus(layout.shards[g.shard], g.offset);
        var offset := if base.Some? then Plus(base.value, start) else None;
        if offset.None? || start >= g.stored then Err("chunk outside the file")
        else
          var rest := g.stored - start;
          Ok(ChunkRange(g.shard, offset.value, if CHUNK_BYTES < rest then CHUNK_BYTES else rest))
  }

  /** A chunk's range holds a byte of a shard's file. */
  predicate HoldsByte(layout: Layout, key: ChunkKey, shard: nat, at: nat) {
    var r := ChunkRangeOf(layout, key);
    r.Ok? && r.value.shard == shard && r.value.fileOffset <= at < r.value.fileOffset + r.value.length
  }

  /** A chunk holds exactly those bytes of its group's stored ones, in the group's shard, whose place in the group is
      the chunk's. So each stored byte is in one chunk, and a chunk has no other bytes. */
  lemma ByteInChunk(layout: Layout, key: ChunkKey, shard: nat, at: nat)
    ensures HoldsByte(layout, key, shard, at) <==>
              && key.group < |layout.groups|
              && var g := layout.groups[key.group];
                 && key.chunk < g.chunks && g.shard == shard < |layout.shards|
                 && var base := layout.shards[shard] + g.offset;
                    && base + key.chunk * CHUNK_BYTES < LIMIT
                    && base <= at < base + g.stored && (at - base) / CHUNK_BYTES == key.chunk
  {
  }

  // ----------------------------------------------------------------------------- the keys

  ghost predicate Ordered(keys: seq<ChunkKey>) {
    forall i, j | 0 <= i < j < |keys| :: Before(keys[i], keys[j])
  }

  // A key put in its place among ordered ones, unless it is there.
  function Inserted(keys: seq<ChunkKey>, k: ChunkKey): (r: seq<ChunkKey>)
    requires Ordered(keys)
    ensures Ordered(r)
    ensures forall x :: x in r <==> x == k || x in keys
  {
    if keys == [] then [k]
    else if keys[0] == k then keys
    else if Before(k, keys[0]) then [k] + keys
    else
      var rest := Inserted(keys[1..], k);
      assert forall j | 0 <= j < |rest| :: rest[j] in rest && Before(keys[0], rest[j]);
      [keys[0]] + rest
  }

  /** The keys asked for, sorted and each once. */
  function SortedOnce(keys: seq<ChunkKey>): (r: seq<ChunkKey>)
    ensures Ordered(r)
    ensures forall x :: x in r <==> x in keys
  {
    if keys == [] then [] else Inserted(SortedOnce(keys[1..]), keys[0])
  }

  // ----------------------------------------------------------------------------- the runs

  /** The bytes of the first `n` segments. */
  function Length(segments: seq<ReadSegment>, n: nat): nat
    requires n <= |segments|
  {
    if n == 0 then 0 else Length(segments, n - 1) + segments[n - 1].length
  }

  /** A segment is its chunk: the chunk's bytes, to the chunk's place in its group. */
  ghost predicate IsChunk(layout: Layout, s: ReadSegment) {
    && ChunkRangeOf(layout, s.chunk).Ok?
    && s.length == ChunkRangeOf(layout, s.chunk).value.length
    && s.groupOffset == s.chunk.chunk * CHUNK_BYTES
  }

  // Segment `j` of a run is a chunk, and lies in the file where the segments before it end.
  ghost predicate InPlace(layout: Layout, run: ReadRun, j: nat)
    requires j < |run.segments|
  {
    && IsChunk(layout, run.segments[j])
    && var range := ChunkRangeOf(layout, run.segments[j].chunk).value;
       range.shard == run.shard && range.fileOffset == run.fileOffset + Length(run.segments, j)
  }

  /** A run's segments are chunks that tile its file range, in order, within the limits. */
  ghost predicate Tiles(layout: Layout, run: ReadRun, limits: ReadLimits) {
    && run.segments != [] && run.length == Length(run.segments, |run.segments|)
    && (forall j {:trigger InPlace(layout, run, j)} | 0 <= j < |run.segments| :: InPlace(layout, run, j))
    && (|run.segments| == 1 || (run.length <= limits.maxRun && |run.segments| <= limits.maxSegments))
  }

  /** The chunks of runs, in order. */
  function ChunksOf(runs: seq<ReadRun>): seq<ChunkKey> {
    if runs == [] then [] else ChunksOf(runs[..|runs| - 1]) + Keys(runs[|runs| - 1].segments)
  }

  function Keys(segments: seq<ReadSegment>): (r: seq<ChunkKey>)
    ensures |r| == |segments| && forall i | 0 <= i < |r| :: r[i] == segments[i].chunk
  {
    seq(|segments|, i requires 0 <= i < |segments| => segments[i].chunk)
  }

  /** A chunk can join a run: next in its shard's file, and within the limits. */
  predicate Joins(run: ReadRun, range: ChunkRange, limits: ReadLimits) {
    var end := Plus(run.fileOffset, run.length);
    var grown := Plus(run.length, range.length);
    && run.shard == range.shard && end == Some(range.fileOffset)
    && grown.Some? && grown.value <= limits.maxRun && |run.segments| < limits.maxSegments
  }

  /** No run could have taken the first chunk of the next. */
  ghost predicate Coalesced(runs: seq<ReadRun>, limits: ReadLimits) {
    forall i | 0 < i < |runs| :: Apart(runs[i - 1], runs[i], limits)
  }

  /** Where one run begins at the other's end, in one shard, a limit is passed by the first chunk more. */
  ghost predicate Apart(a: ReadRun, b: ReadRun, limits: ReadLimits) {
    && b.segments != []
    && (a.shard == b.shard && a.fileOffset + a.length == b.fileOffset ==>
          || limits.maxRun < a.length + b.segments[0].length || LIMIT <= a.length + b.segments[0].length
          || limits.maxSegments <= |a.segments|)
  }

  function Extended(run: ReadRun, s: ReadSegment): ReadRun {
    run.(length := run.length + s.length, segments := run.segments + [s])
  }

  lemma {:induction false} LengthExtended(segments: seq<ReadSegment>, s: ReadSegment, n: nat)
    requires n <= |segments|
    ensures Length(segments + [s], n) == Length(segments, n)
  {
    if n > 0 { LengthExtended(segments, s, n - 1); }
  }

  // Each segment of a run that a chunk joins lies where the segments before it end.
  lemma ExtendedInPlace(layout: Layout, run: ReadRun, s: ReadSegment, limits: ReadLimits, j: nat)
    requires Tiles(layout, run, limits) && IsChunk(layout, s) && j <= |run.segments|
    requires Joins(run, ChunkRangeOf(layout, s.chunk).value, limits)
    ensures InPlace(layout, Extended(run, s), j)
  {
    hide ChunkRangeOf, Length;
    LengthExtended(run.segments, s, j);
    if j < |run.segments| { assert InPlace(layout, run, j); }
  }

  // A run that a chunk joins still tiles its range.
  lemma ExtendedTiles(layout: Layout, run: ReadRun, s: ReadSegment, limits: ReadLimits)
    requires Tiles(layout, run, limits) && IsChunk(layout, s)
    requires Joins(run, ChunkRangeOf(layout, s.chunk).value, limits)
    ensures Tiles(layout, Extended(run, s), limits)
  {
    LengthExtended(run.segments, s, |run.segments|);
    forall j | 0 <= j <= |run.segments|
      ensures InPlace(layout, Extended(run, s), j)
    {
      ExtendedInPlace(layout, run, s, limits, j);
    }
    hide ChunkRangeOf, IsChunk, InPlace;
  }

  // The chunks of runs whose last run is extended, or that are followed by another.
  lemma ChunksExtended(runs: seq<ReadRun>, s: ReadSegment)
    requires runs != []
    ensures ChunksOf(runs[|runs| - 1 := Extended(runs[|runs| - 1], s)]) == ChunksOf(runs) + [s.chunk]
  {
    var n := |runs| - 1;
    var longer := runs[n := Extended(runs[n], s)];
    assert longer[..n] == runs[..n];
    assert Keys(longer[n].segments) == Keys(runs[n].segments) + [s.chunk];
  }

  lemma ChunksAppended(runs: seq<ReadRun>, run: ReadRun)
    ensures ChunksOf(runs + [run]) == ChunksOf(runs) + Keys(run.segments)
  {
    assert (runs + [run])[..|runs|] == runs;
  }

  lemma FirstTiles(layout: Layout, s: ReadSegment, limits: ReadLimits)
    requires IsChunk(layout, s)
    ensures var range := ChunkRangeOf(layout, s.chunk).value;
            Tiles(layout, ReadRun(range.shard, range.fileOffset, range.length, [s]), limits)
  {
  }

  ghost predicate Planned(layout: Layout, runs: seq<ReadRun>, limits: ReadLimits) {
    Coalesced(runs, limits) && forall i | 0 <= i < |runs| :: Tiles(layout, runs[i], limits)
  }

  lemma PlannedExtended(layout: Layout, runs: seq<ReadRun>, s: ReadSegment, limits: ReadLimits)
    requires Planned(layout, runs, limits) && runs != [] && IsChunk(layout, s)
    requires Joins(runs[|runs| - 1], ChunkRangeOf(layout, s.chunk).value, limits)
    ensures Planned(layout, runs[|runs| - 1 := Extended(runs[|runs| - 1], s)], limits)
  {
    hide ChunkRangeOf, Tiles, IsChunk, Joins;
    var last := |runs| - 1;
    ExtendedTiles(layout, runs[last], s, limits);
    var r := runs[last := Extended(runs[last], s)];
    forall i | 0 < i < |r| ensures Apart(r[i - 1], r[i], limits) {
      assert Apart(runs[i - 1], runs[i], limits);
    }
  }

  lemma PlannedAppended(layout: Layout, runs: seq<ReadRun>, run: ReadRun, limits: ReadLimits)
    requires Planned(layout, runs, limits) && Tiles(layout, run, limits)
    requires runs != [] ==> Apart(runs[|runs| - 1], run, limits)
    ensures Planned(layout, runs + [run], limits)
  {
    hide Tiles, Apart;
    var r := runs + [run];
    forall i | 0 < i < |r| ensures Apart(r[i - 1], r[i], limits) {
      if i < |runs| { assert Apart(runs[i - 1], runs[i], limits); }
    }
  }

  lemma NotJoined(layout: Layout, last: ReadRun, key: ChunkKey, range: ChunkRange, s: ReadSegment, limits: ReadLimits)
    requires ChunkRangeOf(layout, key) == Ok(range) && s.length == range.length && !Joins(last, range, limits)
    ensures Apart(last, ReadRun(range.shard, range.fileOffset, range.length, [s]), limits)
  {
    assert range.fileOffset < LIMIT;
  }

  /** One more chunk: onto the last run if it joins it, else in a run of its own. */
  method AddChunk(layout: Layout, runs: seq<ReadRun>, key: ChunkKey, range: ChunkRange, limits: ReadLimits)
    returns (r: seq<ReadRun>)
    requires Planned(layout, runs, limits) && ChunkRangeOf(layout, key) == Ok(range)
    ensures Planned(layout, r, limits) && ChunksOf(r) == ChunksOf(runs) + [key]
  {
    var segment := ReadSegment(key, range.length, key.chunk * CHUNK_BYTES);
    assert IsChunk(layout, segment);
    hide ChunkRangeOf, Planned, Tiles, IsChunk, ChunksOf, Joins;
    if runs != [] && Joins(runs[|runs| - 1], range, limits) {
      PlannedExtended(layout, runs, segment, limits);
      ChunksExtended(runs, segment);
      r := runs[|runs| - 1 := Extended(runs[|runs| - 1], segment)];
    } else {
      var run := ReadRun(range.shard, range.fileOffset, range.length, [segment]);
      FirstTiles(layout, segment, limits);
      if runs != [] { NotJoined(layout, runs[|runs| - 1], key, range, segment, limits); }
      PlannedAppended(layout, runs, run, limits);
      ChunksAppended(runs, run);
      assert Keys([segment]) == [key];
      r := runs + [run];
    }
  }

  /** Reads of the chunks `missing`, coalesced in file order: each chunk once, each run's segments tiling it,
      and no run that could have taken the next one's first chunk. Refused exactly when a chunk is both
      missing and resident, or is none of the layout's. */
  method PlanReads(layout: Layout, missing: seq<ChunkKey>, resident: seq<ChunkKey>, limits: ReadLimits)
    returns (r: Result<seq<ReadRun>>)
    ensures r.Ok? <==> forall k | k in missing :: k !in resident && ChunkRangeOf(layout, k).Ok?
    ensures r.Ok? ==> ChunksOf(r.value) == SortedOnce(missing) && Planned(layout, r.value, limits)
    ensures r.Ok? ==> var keys := ChunksOf(r.value);
                      && (forall k :: k in keys <==> k in missing)
                      && forall i, j | 0 <= i < j < |keys| ::
                           keys[i].group < keys[j].group || (keys[i].group == keys[j].group && keys[i].chunk < keys[j].chunk)
  {
    hide Planned, ChunkRangeOf;
    var keys := SortedOnce(missing);
    var runs: seq<ReadRun> := [];
    NonePlanned(layout, limits);
    for n := 0 to |keys|
      invariant ChunksOf(runs) == keys[..n] && Planned(layout, runs, limits)
      invariant forall i | 0 <= i < n :: keys[i] !in resident && ChunkRangeOf(layout, keys[i]).Ok?
    {
      var key := keys[n];
      assert key in missing;
      if key in resident { return Err("a chunk both missing and resident"); }
      var range := ChunkRangeOf(layout, key);
      if range.Err? { return Err(range.error); }
      assert keys[..n + 1] == keys[..n] + [key];
      runs := AddChunk(layout, runs, key, range.value, limits);
    }
    assert keys[..|keys|] == keys;
    forall k | k in missing ensures k !in resident && ChunkRangeOf(layout, k).Ok? {
      assert k in keys;
    }
    return Ok(runs);
  }

  lemma NonePlanned(layout: Layout, limits: ReadLimits)
    ensures Planned(layout, [], limits)
  {
  }
}
