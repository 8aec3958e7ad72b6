/** Weights loaded through two staging buffers (benchmarks/dsv4_exec.cc, benchmarks/qwen38_exec.cc). The host
    reads each run into a buffer, queues its copies to the device and records an event; before a buffer is
    read into again, the host waits for its event. The device executes what is queued in order and at any
    time: between any two of the host's actions it may run as much of the queue as it likes, and a copy reads
    its staging buffer only then. */
module StagedLoading {
  import opened Results
  import opened ReadPlan
  import Collections

  type Byte = int

  /** An artifact: its layout and its shards' files. */
  datatype Artifact = Artifact(layout: Layout, files: seq<seq<Byte>>)

  ghost predicate ValidGroup(a: Artifact, g: nat)
    requires g < |a.layout.groups|
  {
    var group := a.layout.groups[g];
    && group.shard < |a.layout.shards| == |a.files|
    && a.layout.shards[group.shard] + group.offset + group.stored <= |a.files[group.shard]| < LIMIT
    && group.chunks * CHUNK_BYTES < group.stored + CHUNK_BYTES
    && group.stored <= group.chunks * CHUNK_BYTES
  }

  ghost predicate ValidArtifact(a: Artifact) {
    forall g | 0 <= g < |a.layout.groups| :: ValidGroup(a, g)
  }

  /** A group's stored bytes. */
  function GroupBytes(a: Artifact, g: nat): (r: seq<Byte>)
    requires g < |a.layout.groups| && ValidGroup(a, g)
    ensures |r| == a.layout.groups[g].stored
  {
    var group := a.layout.groups[g];
    var start := a.layout.shards[group.shard] + group.offset;
    a.files[group.shard][start..start + group.stored]
  }

  predicate IsKey(a: Artifact, k: ChunkKey) {
    k.group < |a.layout.groups| && k.chunk < a.layout.groups[k.group].chunks
  }

  /** A chunk's bytes: a slice of its group's. */
  function ChunkBytes(a: Artifact, k: ChunkKey): (r: seq<Byte>)
    requires ValidArtifact(a) && IsKey(a, k)
    ensures 0 < |r| <= CHUNK_BYTES && k.chunk * CHUNK_BYTES + |r| <= a.layout.groups[k.group].stored
  {
    assert ValidGroup(a, k.group);
    var start := k.chunk * CHUNK_BYTES;
    var rest := a.layout.groups[k.group].stored - start;
    GroupBytes(a, k.group)[start..start + if CHUNK_BYTES < rest then CHUNK_BYTES else rest]
  }

  /** The device addresses of the groups: the ranges of groups other than the host's table are disjoint. */
  ghost predicate Placed(a: Artifact, address: seq<nat>, table: nat) {
    && |address| == |a.layout.groups|
    && forall g, h | 0 <= g < |address| && 0 <= h < |address| && g != h && g != table && h != table ::
         Collections.Disjoint(address[g], a.layout.groups[g].stored, address[h], a.layout.groups[h].stored)
  }

  function Destination(address: seq<nat>, k: ChunkKey): nat
    requires k.group < |address|
  {
    address[k.group] + k.chunk * CHUNK_BYTES
  }

  // ---------------------------------------------------------------------------- the stream

  /** Queued work: a copy of a chunk out of a staging buffer, or an event's record. */
  datatype Op = Copy(buffer: nat, at: nat, length: nat, dst: nat, key: ChunkKey) | Record(event: nat)

  function Overlaid(memory: map<nat, Byte>, dst: nat, bytes: seq<Byte>): (r: map<nat, Byte>)
    ensures forall x | x in memory && !(dst <= x < dst + |bytes|) :: x in r && r[x] == memory[x]
    ensures forall x | dst <= x < dst + |bytes| :: x in r && r[x] == bytes[x - dst]
  {
    if bytes == [] then memory
    else
      var n := |bytes| - 1;
      Overlaid(memory, dst, bytes[..n])[dst + n := bytes[n]]
  }

  /** A queued copy will still read its own chunk's bytes. */
  ghost predicate SoundCopy(a: Artifact, address: seq<nat>, table: nat, staging: seq<seq<Byte>>, op: Op)
    requires ValidArtifact(a) && op.Copy?
  {
    && op.buffer < |staging| && op.at + op.length <= |staging[op.buffer]|
    && IsKey(a, op.key) && op.key.group < |address| && op.key.group != table
    && op.dst == Destination(address, op.key)
    && staging[op.buffer][op.at..op.at + op.length] == ChunkBytes(a, op.key)
  }

  ghost predicate Sound(a: Artifact, address: seq<nat>, table: nat, staging: seq<seq<Byte>>, queue: seq<Op>)
    requires ValidArtifact(a)
  {
    forall i | 0 <= i < |queue| && queue[i].Copy? :: SoundCopy(a, address, table, staging, queue[i])
  }

  /** Bytes are in memory at an address. */
  ghost predicate Holds(memory: map<nat, Byte>, dst: nat, bytes: seq<Byte>) {
    forall x | dst <= x < dst + |bytes| :: x in memory && memory[x] == bytes[x - dst]
  }

  /** The device holds a chunk's bytes at its place. */
  ghost predicate Loaded(a: Artifact, address: seq<nat>, memory: map<nat, Byte>, k: ChunkKey)
    requires ValidArtifact(a) && IsKey(a, k) && k.group < |address|
  {
    Holds(memory, Destination(address, k), ChunkBytes(a, k))
  }

  ghost predicate Pending(queue: seq<Op>, k: ChunkKey) {
    exists i :: 0 <= i < |queue| && queue[i].Copy? && queue[i].key == k
  }

  /** Every device chunk issued is on the device or still to be copied there. */
  ghost predicate Arrives(a: Artifact, address: seq<nat>, table: nat, memory: map<nat, Byte>, queue: seq<Op>,
                          issued: set<ChunkKey>)
    requires ValidArtifact(a)
  {
    forall k | k in issued && k.group != table ::
      IsKey(a, k) && k.group < |address| && (Loaded(a, address, memory, k) || Pending(queue, k))
  }

  // Every queued copy out of a buffer is before a record of the buffer's event.
  ghost predicate Guarded(queue: seq<Op>) {
    forall i | 0 <= i < |queue| && queue[i].Copy? :: RecordAfter(queue, i, queue[i].buffer)
  }

  ghost predicate RecordAfter(queue: seq<Op>, i: nat, event: nat) {
    exists j :: i < j < |queue| && queue[j] == Record(event)
  }

  predicate Recorded(queue: seq<Op>, event: nat) {
    exists j :: 0 <= j < |queue| && queue[j] == Record(event)
  }

  // Distinct device chunks have disjoint places.
  lemma ChunksApart(a: Artifact, address: seq<nat>, table: nat, k: ChunkKey, l: ChunkKey)
    requires ValidArtifact(a) && Placed(a, address, table) && k != l
    requires IsKey(a, k) && IsKey(a, l) && k.group != table && l.group != table
    ensures Collections.Disjoint(Destination(address, k), |ChunkBytes(a, k)|, Destination(address, l), |ChunkBytes(a, l)|)
  {
    assert k.group != l.group ==>
      Collections.Disjoint(address[k.group], a.layout.groups[k.group].stored, address[l.group], a.layout.groups[l.group].stored);
  }

  // The memory after the head of the queue executes.
  function Executed(staging: seq<seq<Byte>>, memory: map<nat, Byte>, op: Op): map<nat, Byte>
    requires op.Copy? ==> op.buffer < |staging| && op.at + op.length <= |staging[op.buffer]|
  {
    if op.Copy? then Overlaid(memory, op.dst, staging[op.buffer][op.at..op.at + op.length]) else memory
  }

  lemma ExecutedLoads(a: Artifact, address: seq<nat>, table: nat, staging: seq<seq<Byte>>, memory: map<nat, Byte>,
                      op: Op, k: ChunkKey)
    requires ValidArtifact(a) && Placed(a, address, table) && op.Copy? && SoundCopy(a, address, table, staging, op)
    requires IsKey(a, k) && k.group != table
    ensures k == op.key || Loaded(a, address, memory, k) ==> Loaded(a, address, Executed(staging, memory, op), k)
  {
    if k != op.key { ChunksApart(a, address, table, k, op.key); }
  }

  /** Executing the head of a sound queue keeps every issued chunk on the device or still to come. */
  lemma ExecutedArrives(a: Artifact, address: seq<nat>, table: nat, staging: seq<seq<Byte>>, memory: map<nat, Byte>,
                        queue: seq<Op>, issued: set<ChunkKey>)
    requires ValidArtifact(a) && Placed(a, address, table) && queue != []
    requires Sound(a, address, table, staging, queue) && Arrives(a, address, table, memory, queue, issued)
    ensures queue[0].Copy? ==> SoundCopy(a, address, table, staging, queue[0])
    ensures Arrives(a, address, table, Executed(staging, memory, queue[0]), queue[1..], issued)
  {
    assert queue[0].Copy? ==> SoundCopy(a, address, table, staging, queue[0]);
    hide Loaded, IsKey, ChunkBytes;
    forall k | k in issued && k.group != table
      ensures IsKey(a, k) && k.group < |address|
      ensures Loaded(a, address, Executed(staging, memory, queue[0]), k) || Pending(queue[1..], k)
    {
      if Pending(queue, k) {
        var i :| 0 <= i < |queue| && queue[i].Copy? && queue[i].key == k;
        if 0 < i { assert queue[1..][i - 1] == queue[i]; }
      }
      if queue[0].Copy? { ExecutedLoads(a, address, table, staging, memory, queue[0], k); }
    }
  }

  // ------------------------------------------------------------------------------ the host

  /** The host's copy of the table holds the table's issued chunks. */
  ghost predicate Tabled(a: Artifact, table: nat, bytes: seq<Byte>, issued: set<ChunkKey>)
    requires ValidArtifact(a)
  {
    forall k | k in issued && k.group == table :: IsKey(a, k) && TableHas(a, bytes, k)
  }

  ghost predicate TableHas(a: Artifact, bytes: seq<Byte>, k: ChunkKey)
    requires ValidArtifact(a) && IsKey(a, k)
  {
    var start := k.chunk * CHUNK_BYTES;
    start + |ChunkBytes(a, k)| <= |bytes| && bytes[start..start + |ChunkBytes(a, k)|] == ChunkBytes(a, k)
  }

  // No queued copy reads a buffer.
  ghost predicate Free(queue: seq<Op>, buffer: nat) {
    forall i | 0 <= i < |queue| && queue[i].Copy? :: queue[i].buffer != buffer
  }

  lemma GuardedAll(queue: seq<Op>, buffer: nat)
    requires Guarded(queue)
    ensures GuardedBut(queue, buffer)
  {
  }

  lemma NothingQueued()
    ensures Guarded([]) && Free([], 0) && Free([], 1)
  {
  }

  // Queued copies, but those of one buffer, are before their records.
  ghost predicate GuardedBut(queue: seq<Op>, buffer: nat) {
    forall i | 0 <= i < |queue| && queue[i].Copy? && queue[i].buffer != buffer :: RecordAfter(queue, i, queue[i].buffer)
  }

  /** What the device has not executed is the end of what was queued. */
  ghost predicate Rest(queue: seq<Op>, before: seq<Op>) {
    |queue| <= |before| && queue == before[|before| - |queue|..]
  }

  lemma RestKeeps(queue: seq<Op>, before: seq<Op>, buffer: nat)
    requires Rest(queue, before)
    ensures Free(before, buffer) ==> Free(queue, buffer)
    ensures GuardedBut(before, buffer) ==> GuardedBut(queue, buffer)
    ensures Guarded(before) ==> Guarded(queue)
  {
    var d := |before| - |queue|;
    forall i | 0 <= i < |queue| && queue[i].Copy? && RecordAfter(before, i + d, queue[i].buffer)
      ensures RecordAfter(queue, i, queue[i].buffer)
    {
      var j :| i + d < j < |before| && before[j] == Record(queue[i].buffer);
      assert queue[j - d] == before[j];
    }
    forall i | 0 <= i < |queue| ensures queue[i] == before[i + d] {}
  }

  /** Once a buffer's event has no record left in the queue, no copy left there reads the buffer. */
  lemma WaitFrees(queue: seq<Op>, buffer: nat)
    requires Guarded(queue) && !Recorded(queue, buffer)
    ensures Free(queue, buffer)
  {
    forall i | 0 <= i < |queue| && queue[i].Copy? ensures queue[i].buffer != buffer {
      assert RecordAfter(queue, i, queue[i].buffer);
    }
  }

  // A buffer no queued copy reads may be written.
  lemma RefilledSound(a: Artifact, address: seq<nat>, table: nat, staging: seq<seq<Byte>>, queue: seq<Op>, buffer: nat,
                      bytes: seq<Byte>)
    requires ValidArtifact(a) && buffer < |staging| && Free(queue, buffer)
    requires Sound(a, address, table, staging, queue)
    ensures Sound(a, address, table, staging[buffer := bytes], queue)
  {
    forall i | 0 <= i < |queue| && queue[i].Copy?
      ensures SoundCopy(a, address, table, staging[buffer := bytes], queue[i])
    {
      assert SoundCopy(a, address, table, staging, queue[i]);
    }
  }

  // A chunk's bytes in its file.
  lemma ChunkInFile(a: Artifact, k: ChunkKey)
    requires ValidArtifact(a) && ChunkRangeOf(a.layout, k).Ok?
    ensures IsKey(a, k)
    ensures var range := ChunkRangeOf(a.layout, k).value;
            && range.shard < |a.files| && range.fileOffset + range.length <= |a.files[range.shard]|
            && ChunkBytes(a, k) == a.files[range.shard][range.fileOffset..range.fileOffset + range.length]
  {
    assert ValidGroup(a, k.group);
    var group := a.layout.groups[k.group];
    var start, range := a.layout.shards[group.shard] + group.offset, ChunkRangeOf(a.layout, k).value;
    SliceOfSlice(a.files[group.shard], start, start + group.stored, k.chunk * CHUNK_BYTES,
                 k.chunk * CHUNK_BYTES + range.length);
  }

  lemma SliceOfSlice(s: seq<Byte>, i: nat, j: nat, p: nat, q: nat)
    requires i <= j <= |s| && p <= q <= j - i
    ensures s[i..j][p..q] == s[i + p..i + q]
  {
    assert forall x | 0 <= x < q - p :: s[i..j][p..q][x] == s[i + p + x] && s[i + p..i + q][x] == s[i + p + x];
  }

  /** A buffer with bytes written at a place. */
  function Spliced(buffer: seq<Byte>, at: nat, piece: seq<Byte>): (r: seq<Byte>)
    requires at + |piece| <= |buffer|
    ensures |r| == |buffer| && r[..at] == buffer[..at] && r[at..at + |piece|] == piece
    ensures r[at + |piece|..] == buffer[at + |piece|..]
  {
    buffer[..at] + piece + buffer[at + |piece|..]
  }

  // Bytes written after a filled part extend it.
  lemma SplicedFills(buffer: seq<Byte>, whole: seq<Byte>, done: nat, got: nat)
    requires done + got <= |whole| <= |buffer| && buffer[..done] == whole[..done]
    ensures Spliced(buffer, done, whole[done..done + got])[..done + got] == whole[..done + got]
  {
    var after := Spliced(buffer, done, whole[done..done + got]);
    assert after[..done + got] == after[..done] + after[done..done + got];
    assert whole[..done + got] == whole[..done] + whole[done..done + got];
  }

  /** A run is within its shard's file. */
  ghost predicate InFile(a: Artifact, run: ReadRun) {
    run.shard < |a.files| && run.fileOffset + run.length <= |a.files[run.shard]|
  }

  function RunBytes(a: Artifact, run: ReadRun): (r: seq<Byte>)
    requires InFile(a, run)
    ensures |r| == run.length
  {
    a.files[run.shard][run.fileOffset..run.fileOffset + run.length]
  }

  lemma {:induction false} LengthGrows(segments: seq<ReadSegment>, i: nat, j: nat)
    requires i <= j <= |segments|
    ensures Length(segments, i) <= Length(segments, j)
  {
    if i < j { LengthGrows(segments, i, j - 1); }
  }

  lemma TiledInFile(a: Artifact, run: ReadRun, limits: ReadLimits)
    requires ValidArtifact(a) && Tiles(a.layout, run, limits)
    ensures InFile(a, run)
  {
    var last := |run.segments| - 1;
    assert InPlace(a.layout, run, last);
    ChunkInFile(a, run.segments[last].chunk);
  }

  /** The bytes of a run where a segment lies are the segment's chunk's. */
  lemma SegmentBytes(a: Artifact, run: ReadRun, limits: ReadLimits, j: nat)
    requires ValidArtifact(a) && Tiles(a.layout, run, limits) && InFile(a, run) && j < |run.segments|
    ensures IsKey(a, run.segments[j].chunk) && run.segments[j].length == |ChunkBytes(a, run.segments[j].chunk)|
    ensures var at := Length(run.segments, j);
            && at + run.segments[j].length <= run.length
            && RunBytes(a, run)[at..at + run.segments[j].length] == ChunkBytes(a, run.segments[j].chunk)
  {
    hide Tiles, ChunkBytes, ValidArtifact, Length;
    SegmentPlaced(a, run, limits, j);
    var at := Length(run.segments, j);
    SliceOfSlice(a.files[run.shard], run.fileOffset, run.fileOffset + run.length, at, at + run.segments[j].length);
  }

  // A segment's chunk in the file and in the run.
  lemma SegmentPlaced(a: Artifact, run: ReadRun, limits: ReadLimits, j: nat)
    requires ValidArtifact(a) && Tiles(a.layout, run, limits) && InFile(a, run) && j < |run.segments|
    ensures var k, at, length := run.segments[j].chunk, Length(run.segments, j), run.segments[j].length;
            && IsKey(a, k) && length == |ChunkBytes(a, k)| && at + length <= run.length
            && ChunkBytes(a, k) == a.files[run.shard][run.fileOffset + at..run.fileOffset + at + length]
  {
    hide ChunkRangeOf, ChunkBytes, ValidArtifact, Length, IsKey;
    assert InPlace(a.layout, run, j);
    ChunkInFile(a, run.segments[j].chunk);
    LengthNext(run.segments, j);
    LengthGrows(run.segments, j + 1, |run.segments|);
  }

  lemma NoLength(segments: seq<ReadSegment>)
    ensures Length(segments, 0) == 0
  {
  }

  lemma LengthNext(segments: seq<ReadSegment>, j: nat)
    requires j < |segments|
    ensures Length(segments, j + 1) == Length(segments, j) + segments[j].length
  {
  }

  lemma AppendedSound(a: Artifact, address: seq<nat>, table: nat, staging: seq<seq<Byte>>, queue: seq<Op>, op: Op)
    requires ValidArtifact(a) && Sound(a, address, table, staging, queue)
    requires op.Copy? ==> SoundCopy(a, address, table, staging, op)
    ensures Sound(a, address, table, staging, queue + [op])
  {
    hide SoundCopy, ValidArtifact;
  }

  lemma AppendedArrives(a: Artifact, address: seq<nat>, table: nat, memory: map<nat, Byte>, queue: seq<Op>,
                        issued: set<ChunkKey>, op: Op)
    requires ValidArtifact(a) && Arrives(a, address, table, memory, queue, issued)
    requires op.Copy? ==> IsKey(a, op.key) && op.key.group < |address|
    ensures Arrives(a, address, table, memory, queue + [op], if op.Copy? then issued + {op.key} else issued)
  {
    hide Loaded, ValidArtifact, IsKey;
    var longer := queue + [op];
    assert op.Copy? ==> longer[|queue|] == op;
    forall k | Pending(queue, k) ensures Pending(longer, k) {
      var i :| 0 <= i < |queue| && queue[i].Copy? && queue[i].key == k;
      assert longer[i] == queue[i];
    }
  }

  lemma AppendedGuards(queue: seq<Op>, buffer: nat, op: Op)
    requires buffer < 2
    requires GuardedBut(queue, buffer) && (op.Copy? ==> op.buffer == buffer)
    ensures GuardedBut(queue + [op], buffer)
    ensures op == Record(buffer) ==> Guarded(queue + [op])
    ensures Free(queue, 1 - buffer) ==> Free(queue + [op], 1 - buffer)
  {
    var longer := queue + [op];
    forall i | 0 <= i < |queue| && queue[i].Copy? && RecordAfter(queue, i, queue[i].buffer)
      ensures RecordAfter(longer, i, queue[i].buffer)
    {
      var j :| i < j < |queue| && queue[j] == Record(queue[i].buffer);
      assert longer[j] == queue[j];
    }
    assert longer[|queue|] == op;
  }

  lemma ArrivesStill(a: Artifact, address: seq<nat>, table: nat, memory: map<nat, Byte>, queue: seq<Op>,
                     issued: set<ChunkKey>, k: ChunkKey)
    requires ValidArtifact(a) && Arrives(a, address, table, memory, queue, issued) && k.group == table
    ensures Arrives(a, address, table, memory, queue, issued + {k})
  {
  }

  lemma TabledStill(a: Artifact, table: nat, bytes: seq<Byte>, issued: set<ChunkKey>, k: ChunkKey)
    requires ValidArtifact(a) && Tabled(a, table, bytes, issued) && k.group != table
    ensures Tabled(a, table, bytes, issued + {k})
  {
  }

  lemma SegmentOffset(a: Artifact, run: ReadRun, limits: ReadLimits, j: nat)
    requires Tiles(a.layout, run, limits) && j < |run.segments|
    ensures run.segments[j].groupOffset == run.segments[j].chunk.chunk * CHUNK_BYTES
  {
    assert InPlace(a.layout, run, j);
  }

  // A run planned within the limits fits the staging buffer.
  lemma RunFits(a: Artifact, run: ReadRun, limits: ReadLimits)
    requires ValidArtifact(a) && Tiles(a.layout, run, limits) && CHUNK_BYTES <= limits.maxRun
    ensures InFile(a, run) && run.length <= limits.maxRun
  {
    TiledInFile(a, run, limits);
    hide ChunkRangeOf;
    assert InPlace(a.layout, run, 0);
  }

  lemma AddressEach(a: Artifact, address: seq<nat>, table: nat)
    requires Placed(a, address, table)
    ensures |address| == |a.layout.groups|
  {
  }

  // Another chunk of the table leaves the ones before it.
  lemma TabledMore(a: Artifact, table: nat, bytes: seq<Byte>, issued: set<ChunkKey>, k: ChunkKey)
    requires ValidArtifact(a) && Tabled(a, table, bytes, issued) && IsKey(a, k) && k.group == table
    requires k.chunk * CHUNK_BYTES + |ChunkBytes(a, k)| <= |bytes|
    ensures Tabled(a, table, Spliced(bytes, k.chunk * CHUNK_BYTES, ChunkBytes(a, k)), issued + {k})
  {
    hide ChunkBytes, ValidArtifact, Spliced, IsKey;
    var after := Spliced(bytes, k.chunk * CHUNK_BYTES, ChunkBytes(a, k));
    forall l | l in issued && l.group == table && l != k ensures IsKey(a, l) && TableHas(a, after, l) {
      SplicedApart(bytes, k.chunk, ChunkBytes(a, k), l.chunk, ChunkBytes(a, l));
    }
  }

  // A chunk written leaves another chunk where it is.
  lemma SplicedApart(bytes: seq<Byte>, c: nat, piece: seq<Byte>, d: nat, other: seq<Byte>)
    requires c != d && |piece| <= CHUNK_BYTES && |other| <= CHUNK_BYTES
    requires c * CHUNK_BYTES + |piece| <= |bytes| && d * CHUNK_BYTES + |other| <= |bytes|
    requires bytes[d * CHUNK_BYTES..d * CHUNK_BYTES + |other|] == other
    ensures Spliced(bytes, c * CHUNK_BYTES, piece)[d * CHUNK_BYTES..d * CHUNK_BYTES + |other|] == other
  {
    hide Spliced;
    var start, from := c * CHUNK_BYTES, d * CHUNK_BYTES;
    var after, end := Spliced(bytes, start, piece), start + |piece|;
    if d < c {
      SliceOfSlice(after, 0, start, from, from + |other|);
      SliceOfSlice(bytes, 0, start, from, from + |other|);
    } else {
      SliceOfSlice(after, end, |after|, from - end, from - end + |other|);
      SliceOfSlice(bytes, end, |bytes|, from - end, from - end + |other|);
    }
  }

  /** A shard's bytes from one offset to another are read: no read on the way fails, however short each is. */
  ghost predicate ReadThrough(preads: (nat, nat) -> int, shard: nat, at: nat, end: nat)
    decreases end - at
  {
    at >= end || (0 < preads(shard, at) && ReadThrough(preads, shard, at + preads(shard, at), end))
  }

  ghost predicate RunRead(preads: (nat, nat) -> int, run: ReadRun) {
    ReadThrough(preads, run.shard, run.fileOffset, run.fileOffset + run.length)
  }

  ghost predicate AllRead(preads: (nat, nat) -> int, runs: seq<ReadRun>) {
    forall i | 0 <= i < |runs| :: RunRead(preads, runs[i])
  }

  class Loader {
    const a: Artifact
    const address: seq<nat>
    const table: nat
    const stagingBytes: nat
    // How much of the queue the device executes at each of the host's ticks, and what a read of a shard at an offset returns.
    const device: nat -> nat
    const preads: (nat, nat) -> int
    var clock: nat
    var staging: seq<seq<Byte>>
    var tableBytes: seq<Byte>
    var queue: seq<Op>
    var memory: map<nat, Byte>
    ghost var issued: set<ChunkKey>

    ghost predicate Valid()
      reads this
    {
      && ValidArtifact(a) && Placed(a, address, table)
      && |staging| == 2 && |staging[0]| == |staging[1]| == stagingBytes
      && Sound(a, address, table, staging, queue)
      && Arrives(a, address, table, memory, queue, issued)
      && Tabled(a, table, tableBytes, issued)
      && (table < |a.layout.groups| ==> |tableBytes| == a.layout.groups[table].stored)
    }

    constructor (a: Artifact, address: seq<nat>, table: nat, stagingBytes: nat, device: nat -> nat, preads: (nat, nat) -> int,
                 memory: map<nat, Byte>, tableBytes: seq<Byte>)
      requires ValidArtifact(a) && Placed(a, address, table)
      requires table < |a.layout.groups| ==> |tableBytes| == a.layout.groups[table].stored
      ensures Valid() && queue == [] && issued == {}
      ensures this.a == a && this.address == address && this.table == table && this.stagingBytes == stagingBytes
      ensures this.device == device && this.preads == preads
    {
      this.a, this.address, this.table, this.stagingBytes := a, address, table, stagingBytes;
      this.device, this.preads, this.memory, this.tableBytes := device, preads, memory, tableBytes;
      clock, queue, issued := 0, [], {};
      staging := [seq(stagingBytes, _ => 0), seq(stagingBytes, _ => 0)];
    }

    // The device executes the head of the queue.
    method Execute()
      requires Valid() && queue != []
      modifies this`queue, this`memory
      ensures Valid() && queue == old(queue)[1..]
    {
      ExecutedArrives(a, address, table, staging, memory, queue, issued);
      memory := Executed(staging, memory, queue[0]);
      queue := queue[1..];
    }

    // The device executes as much as it likes.
    method Tick()
      requires Valid()
      modifies this`queue, this`memory, this`clock
      ensures Valid() && Rest(queue, old(queue))
    {
      var n := device(clock);
      clock := clock + 1;
      while n > 0 && queue != []
        invariant Valid() && Rest(queue, old(queue))
      {
        Execute();
        n := n - 1;
      }
    }

    /** Waits for an event: the device executes at least through its last record. */
    method Synchronize(event: nat)
      requires Valid()
      modifies this`queue, this`memory, this`clock
      ensures Valid() && Rest(queue, old(queue)) && !Recorded(queue, event)
    {
      while Recorded(queue, event)
        invariant Valid() && Rest(queue, old(queue))
        decreases |queue|
      {
        Execute();
      }
      ghost var before := queue;
      Tick();
      assert forall j | 0 <= j < |queue| :: queue[j] == before[j + |before| - |queue|];
    }

    /** Reads a run into a buffer no queued copy reads, however the file's reads are split. */
    method Fill(which: nat, run: ReadRun) returns (ok: bool)
      requires Valid() && which < 2 && InFile(a, run) && run.length <= stagingBytes
      requires Free(queue, which) && Guarded(queue)
      modifies this`queue, this`memory, this`clock, this`staging
      ensures Valid() && Rest(queue, old(queue)) && Free(queue, which) && Guarded(queue)
      ensures ok ==> staging[which][..run.length] == RunBytes(a, run)
      ensures ok <==> RunRead(preads, run)
    {
      hide Sound, Arrives, Tabled, Free, Guarded, Placed, ValidArtifact, Spliced;
      var done := 0;
      while done < run.length
        invariant 0 <= done <= run.length
        invariant Valid() && Rest(queue, old(queue)) && Free(queue, which) && Guarded(queue)
        invariant staging[which][..done] == RunBytes(a, run)[..done]
        invariant RunRead(preads, run) == ReadThrough(preads, run.shard, run.fileOffset + done, run.fileOffset + run.length)
      {
        var got := preads(run.shard, run.fileOffset + done);
        if got <= 0 { return false; }
        if got > run.length - done { got := run.length - done; }
        var bytes := Spliced(staging[which], done, RunBytes(a, run)[done..done + got]);
        RefilledSound(a, address, table, staging, queue, which, bytes);
        SplicedFills(staging[which], RunBytes(a, run), done, got);
        staging := staging[which := bytes];
        ghost var unexecuted := queue;
        Tick();
        RestKeeps(queue, unexecuted, which);
        done := done + got;
      }
      return true;
    }

    // Issues one segment: to the host's table, or as a queued copy to the device.
    method Issue(which: nat, at: nat, segment: ReadSegment)
      requires Valid() && which < 2 && GuardedBut(queue, which)
      requires IsKey(a, segment.chunk) && segment.length == |ChunkBytes(a, segment.chunk)|
      requires segment.groupOffset == segment.chunk.chunk * CHUNK_BYTES
      requires at + segment.length <= stagingBytes
      requires staging[which][at..at + segment.length] == ChunkBytes(a, segment.chunk)
      modifies this`queue, this`memory, this`clock, this`tableBytes, this`issued
      ensures Valid() && GuardedBut(queue, which) && issued == old(issued) + {segment.chunk}
      ensures old(Free(queue, 1 - which)) ==> Free(queue, 1 - which)
    {
      hide Sound, Arrives, Tabled, GuardedBut, Free, Placed, ValidArtifact, Spliced, ChunkBytes, Rest;
      var k := segment.chunk;
      AddressEach(a, address, table);
      if k.group == table {
        TabledMore(a, table, tableBytes, issued, k);
        ArrivesStill(a, address, table, memory, queue, issued, k);
        tableBytes := Spliced(tableBytes, segment.groupOffset, staging[which][at..at + segment.length]);
        issued := issued + {k};
      } else {
        var op := Copy(which, at, segment.length, address[k.group] + segment.groupOffset, k);
        AppendedSound(a, address, table, staging, queue, op);
        AppendedArrives(a, address, table, memory, queue, issued, op);
        AppendedGuards(queue, which, op);
        TabledStill(a, table, tableBytes, issued, k);
        queue := queue + [op];
        issued := issued + {k};
      }
      ghost var unexecuted := queue;
      Tick();
      RestKeeps(queue, unexecuted, which);
      RestKeeps(queue, unexecuted, 1 - which);
    }

    /** Issues a filled run's segments in order and records the buffer's event after them. */
    method IssueRun(which: nat, run: ReadRun, ghost limits: ReadLimits)
      requires Valid() && which < 2 && Guarded(queue)
      requires Tiles(a.layout, run, limits) && InFile(a, run) && run.length <= stagingBytes
      requires staging[which][..run.length] == RunBytes(a, run)
      modifies this`queue, this`memory, this`clock, this`tableBytes, this`issued
      ensures Valid() && Guarded(queue)
      ensures issued == old(issued) + set k | k in Keys(run.segments)
      ensures old(Free(queue, 1 - which)) ==> Free(queue, 1 - which)
    {
      hide Sound, Arrives, Tabled, Placed, ValidArtifact, Tiles, Free, Length, ChunkBytes, RunBytes, IsKey;
      GuardedAll(queue, which);
      NoLength(run.segments);
      var at := 0;
      for j := 0 to |run.segments|
        invariant at == Length(run.segments, j) && Valid() && GuardedBut(queue, which)
        invariant old(Free(queue, 1 - which)) ==> Free(queue, 1 - which)
        invariant issued == old(issued) + set k | k in Keys(run.segments)[..j]
      {
        SegmentBytes(a, run, limits, j);
        SegmentOffset(a, run, limits, j);
        var segment := run.segments[j];
        SliceOfSlice(staging[which], 0, run.length, at, at + segment.length);
        Issue(which, at, segment);
        assert Keys(run.segments)[..j + 1] == Keys(run.segments)[..j] + [segment.chunk];
        LengthNext(run.segments, j);
        at := at + segment.length;
      }
      assert Keys(run.segments)[..|run.segments|] == Keys(run.segments);
      AppendedSound(a, address, table, staging, queue, Record(which));
      AppendedArrives(a, address, table, memory, queue, issued, Record(which));
      AppendedGuards(queue, which, Record(which));
      queue := queue + [Record(which)];
    }

    /** Loads one run through one buffer, first waiting for the copies that may still read it. */
    method LoadRun(which: nat, pending: bool, run: ReadRun, ghost limits: ReadLimits) returns (ok: bool)
      requires Valid() && which < 2 && Guarded(queue) && (!pending ==> Free(queue, which))
      requires Tiles(a.layout, run, limits) && InFile(a, run) && run.length <= stagingBytes
      modifies this`queue, this`memory, this`clock, this`staging, this`tableBytes, this`issued
      ensures Valid() && Guarded(queue)
      ensures old(Free(queue, 1 - which)) ==> Free(queue, 1 - which)
      ensures ok ==> issued == old(issued) + set k | k in Keys(run.segments)
      ensures ok <==> RunRead(preads, run)
    {
      hide Sound, Arrives, Tabled, Placed, ValidArtifact, Tiles, Free, Guarded, Recorded, RunRead;
      ghost var before := queue;
      if pending {
        Synchronize(which);
        RestKeeps(queue, before, 1 - which);
        WaitFrees(queue, which);
      }
      ghost var waited := queue;
      ok := Fill(which, run);
      RestKeeps(queue, waited, 1 - which);
      if ok { IssueRun(which, run, limits); }
    }

    /** Loads every run, double-buffered, and waits for the device. Whatever the device executes when, each
        chunk of the runs then is where it belongs; only a read can fail. */
    method Load(runs: seq<ReadRun>, ghost limits: ReadLimits) returns (ok: bool)
      requires Valid() && queue == [] && issued == {}
      requires forall i | 0 <= i < |runs| :: Tiles(a.layout, runs[i], limits)
      requires CHUNK_BYTES <= limits.maxRun == stagingBytes
      modifies this`queue, this`memory, this`clock, this`staging, this`tableBytes, this`issued
      ensures Valid()
      ensures ok ==> queue == [] && issued == set k | k in ChunksOf(runs)
      ensures ok <==> AllRead(preads, runs)
    {
      hide Sound, Arrives, Tabled, Placed, ValidArtifact, Tiles, Free, Guarded, RunRead;
      NothingQueued();
      var pending := [false, false];
      var which := 0;
      for i := 0 to |runs|
        invariant Valid() && Guarded(queue) && which < 2 && |pending| == 2
        invariant (!pending[0] ==> Free(queue, 0)) && (!pending[1] ==> Free(queue, 1))
        invariant issued == set k | k in ChunksOf(runs[..i])
        invariant forall j | 0 <= j < i :: RunRead(preads, runs[j])
      {
        RunFits(a, runs[i], limits);
        var loaded := LoadRun(which, pending[which], runs[i], limits);
        if !loaded { return false; }
        assert runs[..i + 1][..i] == runs[..i];
        pending := pending[which := true];
        which := 1 - which;
      }
      assert runs[..|runs|] == runs;
      Finish();
      return true;
    }

    // The device executes all that is queued.
    method Finish()
      requires Valid()
      modifies this`queue, this`memory
      ensures Valid() && queue == []
    {
      while queue != []
        invariant Valid()
        decreases |queue|
      {
        Execute();
      }
    }
  }

  // ------------------------------------------------------------------------- whole artifacts

  // Every byte of a group is in one of its chunks.
  lemma GroupLoaded(a: Artifact, address: seq<nat>, table: nat, memory: map<nat, Byte>, issued: set<ChunkKey>, g: nat)
    requires ValidArtifact(a) && g < |a.layout.groups| == |address| && g != table
    requires Arrives(a, address, table, memory, [], issued)
    requires forall c: nat | c < a.layout.groups[g].chunks :: ChunkKey(g, c) in issued
    ensures ValidGroup(a, g) && Holds(memory, address[g], GroupBytes(a, g))
  {
    var bytes := GroupBytes(a, g);
    forall x | address[g] <= x < address[g] + |bytes| ensures x in memory && memory[x] == bytes[x - address[g]] {
      var k := ChunkOf(a, g, x - address[g]);
      assert k in issued;
      assert Loaded(a, address, memory, k);
    }
  }

  // The chunk that holds byte `i` of a group.
  lemma ChunkOf(a: Artifact, g: nat, i: nat) returns (k: ChunkKey)
    requires ValidArtifact(a) && g < |a.layout.groups| && ValidGroup(a, g) && i < a.layout.groups[g].stored
    ensures k.group == g && IsKey(a, k)
    ensures var start := k.chunk * CHUNK_BYTES;
            start <= i < start + |ChunkBytes(a, k)| && ChunkBytes(a, k)[i - start] == GroupBytes(a, g)[i]
  {
    k := ChunkKey(g, i / CHUNK_BYTES);
  }

  lemma TableLoaded(a: Artifact, table: nat, bytes: seq<Byte>, issued: set<ChunkKey>)
    requires ValidArtifact(a) && table < |a.layout.groups| && Tabled(a, table, bytes, issued)
    requires |bytes| == a.layout.groups[table].stored
    requires forall c: nat | c < a.layout.groups[table].chunks :: ChunkKey(table, c) in issued
    ensures ValidGroup(a, table) && bytes == GroupBytes(a, table)
  {
    assert ValidGroup(a, table);
    forall i | 0 <= i < |bytes| ensures bytes[i] == GroupBytes(a, table)[i] {
      var k := ChunkOf(a, table, i);
      assert TableHas(a, bytes, k);
      var start := k.chunk * CHUNK_BYTES;
      assert bytes[start..start + |ChunkBytes(a, k)|][i - start] == bytes[i];
    }
  }

  /** Every chunk of every group. */
  method AllChunks(layout: Layout) returns (keys: seq<ChunkKey>)
    ensures forall k :: k in keys <==> k.group < |layout.groups| && k.chunk < layout.groups[k.group].chunks
  {
    keys := [];
    for g := 0 to |layout.groups|
      invariant forall k :: k in keys <==> k.group < g && k.chunk < layout.groups[k.group].chunks
    {
      for c := 0 to layout.groups[g].chunks
        invariant forall k ::
            (k in keys <==> (k.group < g && k.chunk < layout.groups[k.group].chunks) || (k.group == g && k.chunk < c))
      {
        keys := keys + [ChunkKey(g, c)];
      }
    }
  }

  lemma AllInFile(a: Artifact, all: seq<ChunkKey>)
    requires ValidArtifact(a) && forall k | k in all :: IsKey(a, k)
    ensures forall k | k in all :: ChunkRangeOf(a.layout, k).Ok?
  {
    forall k | k in all ensures ChunkRangeOf(a.layout, k).Ok? { assert ValidGroup(a, k.group); }
  }

  /** The reads of a whole artifact. */
  method PlanAll(a: Artifact, limits: ReadLimits) returns (runs: seq<ReadRun>)
    requires ValidArtifact(a)
    ensures Planned(a.layout, runs, limits) && forall i | 0 <= i < |runs| :: Tiles(a.layout, runs[i], limits)
    ensures forall k :: k in ChunksOf(runs) <==> IsKey(a, k)
  {
    hide ValidArtifact, ChunkRangeOf, Tiles;
    var all := AllChunks(a.layout);
    AllInFile(a, all);
    var planned := PlanReads(a.layout, all, [], limits);
    runs := planned.value;
  }

  /** Every group but the host's table is on the device, and the table on the host. */
  ghost predicate Complete(a: Artifact, address: seq<nat>, table: nat, memory: map<nat, Byte>, bytes: seq<Byte>) {
    && |address| == |a.layout.groups|
    && (forall g | 0 <= g < |address| && g != table :: ValidGroup(a, g) && Holds(memory, address[g], GroupBytes(a, g)))
    && (table < |a.layout.groups| ==> ValidGroup(a, table) && bytes == GroupBytes(a, table))
  }

  lemma IssuedAll(a: Artifact, address: seq<nat>, table: nat, memory: map<nat, Byte>, bytes: seq<Byte>, issued: set<ChunkKey>)
    requires ValidArtifact(a) && |address| == |a.layout.groups|
    requires Arrives(a, address, table, memory, [], issued) && Tabled(a, table, bytes, issued)
    requires table < |a.layout.groups| ==> |bytes| == a.layout.groups[table].stored
    requires forall k | IsKey(a, k) :: k in issued
    ensures Complete(a, address, table, memory, bytes)
  {
    hide Arrives, Tabled, ValidArtifact, Holds, ValidGroup;
    forall g: nat, c: nat | g < |a.layout.groups| && c < a.layout.groups[g].chunks ensures ChunkKey(g, c) in issued {
      assert IsKey(a, ChunkKey(g, c));
    }
    forall g | 0 <= g < |a.layout.groups| && g != table
      ensures ValidGroup(a, g) && Holds(memory, address[g], GroupBytes(a, g))
    {
      GroupLoaded(a, address, table, memory, issued, g);
    }
    if table < |a.layout.groups| { TableLoaded(a, table, bytes, issued); }
  }

  /** Loads a whole artifact. For every interleaving of the host and the device and every way the file's reads
      are split, every group of the device, at its address, and the host's table hold exactly the artifact's bytes,
      if and only if the planned runs are read through. */
  method LoadWeights(a: Artifact, address: seq<nat>, table: nat, limits: ReadLimits, device: nat -> nat,
                     preads: (nat, nat) -> int, memory: map<nat, Byte>, blank: seq<Byte>)
    returns (r: Result<(map<nat, Byte>, seq<Byte>)>, ghost runs: seq<ReadRun>)
    requires ValidArtifact(a) && Placed(a, address, table)
    requires CHUNK_BYTES <= limits.maxRun
    requires table < |a.layout.groups| ==> |blank| == a.layout.groups[table].stored
    ensures Planned(a.layout, runs, limits) && forall k :: k in ChunksOf(runs) <==> IsKey(a, k)
    ensures r.Ok? <==> AllRead(preads, runs)
    ensures r.Ok? ==> Complete(a, address, table, r.value.0, r.value.1)
  {
    assert |address| == |a.layout.groups|;
    hide Sound, Arrives, Tabled, Placed, ValidArtifact, Tiles, Complete, ChunksOf, AllRead, Planned;
    var planned := PlanAll(a, limits);
    runs := planned;
    var loader := new Loader(a, address, table, limits.maxRun, device, preads, memory, blank);
    var ok := loader.Load(planned, limits);
    if !ok { return Err("a direct read failed"), runs; }
    IssuedAll(a, address, table, loader.memory, loader.tableBytes, loader.issued);
    return Ok((loader.memory, loader.tableBytes)), runs;
  }
}
