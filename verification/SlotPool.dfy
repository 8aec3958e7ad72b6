/** Reading a file by several requests at once (benchmarks/storage_bench.cc, Measure). A request borrows a slot, a part
    of one buffer. The storage may refuse it, and completes those it took in any order with any result. */
module SlotPool {
  import opened Arithmetic
  import opened Collections

  datatype Completion = Completion(slot: nat, result: int)

  /** A request's part of the buffer. */
  ghost predicate InSlot(slot: nat, request: nat, at: int) {
    slot * request <= at < slot * request + request
  }

  /** Slots do not overlap, and lie within a buffer of as many requests as there are slots. */
  lemma SlotsApart(a: nat, b: nat, depth: nat, request: nat, at: int)
    requires a < depth && b < depth && a != b && InSlot(a, request, at)
    ensures 0 <= at < depth * request && !InSlot(b, request, at)
  {
    ProductMonotone(a + 1, depth, request);
    if a < b { ProductMonotone(a + 1, b, request); } else { ProductMonotone(b + 1, a, request); }
  }

  // ------------------------------------------------------------------------------- the slots

  /** Each slot is free, in flight with a block of the file, or lost to a read that failed. */
  ghost predicate SlotsHeld(depth: nat, free: seq<nat>, flying: map<nat, nat>, lost: map<nat, nat>) {
    && Distinct(free)
    && (forall i | 0 <= i < |free| :: free[i] < depth && free[i] !in flying && free[i] !in lost)
    && (forall s | s in flying :: s < depth && s !in lost)
    && (forall s | s in lost :: s < depth)
    && (forall s | 0 <= s < depth :: s in free || s in flying || s in lost)
  }

  // Where a block of the file is: read at a place, in flight in a slot, or lost with one.
  ghost predicate IsRead(read: seq<nat>, b: nat) {
    exists i :: 0 <= i < |read| && read[i] == b
  }

  ghost predicate IsIn(slots: map<nat, nat>, b: nat) {
    exists s :: s in slots && slots[s] == b
  }

  ghost predicate Injective(slots: map<nat, nat>) {
    forall s, t | s in slots && t in slots && s != t :: slots[s] != slots[t]
  }

  /** Each block requested so far is in one place, once. */
  ghost predicate BlocksHeld(next: nat, read: seq<nat>, flying: map<nat, nat>, lost: map<nat, nat>) {
    && Distinct(read) && Injective(flying) && Injective(lost)
    && (forall b: nat :: b < next <==> IsRead(read, b) || IsIn(flying, b) || IsIn(lost, b))
    && (forall b :: !(IsRead(read, b) && IsIn(flying, b)) && !(IsRead(read, b) && IsIn(lost, b)))
    && (forall b :: !(IsIn(flying, b) && IsIn(lost, b)))
    && next == |read| + |flying| + |lost|
  }

  // A request more.
  lemma SlotTaken(depth: nat, free: seq<nat>, flying: map<nat, nat>, lost: map<nat, nat>, b: nat)
    requires SlotsHeld(depth, free, flying, lost) && free != []
    ensures SlotsHeld(depth, free[1..], flying[free[0] := b], lost)
  {
    var rest, now := free[1..], flying[free[0] := b];
    assert forall i | 0 <= i < |rest| :: rest[i] == free[i + 1];
    forall s | 0 <= s < depth ensures s in rest || s in now || s in lost {
      if s in free && s != free[0] {
        var i :| 0 <= i < |free| && free[i] == s;
        assert rest[i - 1] == s;
      }
    }
  }

  lemma With(slots: map<nat, nat>, slot: nat, b: nat)
    requires slot !in slots && Injective(slots) && !IsIn(slots, b)
    ensures Injective(slots[slot := b]) && |slots[slot := b]| == |slots| + 1
    ensures forall c :: IsIn(slots[slot := b], c) <==> IsIn(slots, c) || c == b
  {
    WithIn(slots, slot, b);
    var more := slots[slot := b];
    assert more.Keys == slots.Keys + {slot};
    forall s, t | s in more && t in more && s != t ensures more[s] != more[t] {
      assert s in slots ==> IsIn(slots, slots[s]);
      assert t in slots ==> IsIn(slots, slots[t]);
    }
  }

  lemma WithIn(slots: map<nat, nat>, slot: nat, b: nat)
    requires slot !in slots
    ensures forall c :: IsIn(slots[slot := b], c) <==> IsIn(slots, c) || c == b
  {
    var more := slots[slot := b];
    forall c ensures IsIn(more, c) <==> IsIn(slots, c) || c == b {
      if IsIn(slots, c) { var s :| s in slots && slots[s] == c; assert more[s] == c; }
      if c == b { assert more[slot] == b; }
    }
  }

  lemma BlockTaken(next: nat, read: seq<nat>, flying: map<nat, nat>, lost: map<nat, nat>, slot: nat)
    requires BlocksHeld(next, read, flying, lost) && slot !in flying
    ensures BlocksHeld(next + 1, read, flying[slot := next], lost)
  {
    hide IsRead, IsIn, Distinct, Injective;
    With(flying, slot, next);
    var more := flying[slot := next];
    assert forall b: nat :: IsIn(more, b) <==> IsIn(flying, b) || b == next;
    assert forall b: nat :: b < next + 1 <==> IsRead(read, b) || IsIn(more, b) || IsIn(lost, b);
    assert forall b: nat :: !(IsRead(read, b) && IsIn(more, b)) && !(IsIn(more, b) && IsIn(lost, b));
  }

  // A read that succeeded.
  lemma SlotFreed(depth: nat, free: seq<nat>, flying: map<nat, nat>, lost: map<nat, nat>, slot: nat)
    requires SlotsHeld(depth, free, flying, lost) && slot in flying
    ensures SlotsHeld(depth, free + [slot], flying - {slot}, lost)
  {
    var more := free + [slot];
    forall s | 0 <= s < depth ensures s in more || s in flying - {slot} || s in lost {
      if s == slot { assert more[|free|] == s; }
      if s in free { var i :| 0 <= i < |free| && free[i] == s; assert more[i] == s; }
    }
  }

  lemma Without(slots: map<nat, nat>, slot: nat)
    requires slot in slots && Injective(slots)
    ensures Injective(slots - {slot}) && |slots - {slot}| == |slots| - 1
    ensures forall b :: IsIn(slots - {slot}, b) <==> IsIn(slots, b) && b != slots[slot]
  {
    var rest := slots - {slot};
    assert rest.Keys == slots.Keys - {slot};
    forall b ensures IsIn(rest, b) <==> IsIn(slots, b) && b != slots[slot] {
      if IsIn(slots, b) && b != slots[slot] { var s :| s in slots && slots[s] == b; assert s in rest && rest[s] == b; }
    }
  }

  lemma BlockRead(next: nat, read: seq<nat>, flying: map<nat, nat>, lost: map<nat, nat>, slot: nat)
    requires BlocksHeld(next, read, flying, lost) && slot in flying
    ensures BlocksHeld(next, read + [flying[slot]], flying - {slot}, lost)
  {
    var more := read + [flying[slot]];
    Without(flying, slot);
    assert IsIn(flying, flying[slot]);
    forall b ensures IsRead(more, b) <==> IsRead(read, b) || b == flying[slot] {
      if IsRead(read, b) { var i :| 0 <= i < |read| && read[i] == b; assert more[i] == b; }
      if b == flying[slot] { assert more[|read|] == b; }
    }
    forall i, j | 0 <= i < j < |more| ensures more[i] != more[j] {
      if j == |read| { assert IsRead(read, read[i]); }
    }
  }

  // A read that failed: its slot and its block are given up.
  lemma SlotLost(depth: nat, free: seq<nat>, flying: map<nat, nat>, lost: map<nat, nat>, slot: nat)
    requires SlotsHeld(depth, free, flying, lost) && slot in flying
    ensures SlotsHeld(depth, free, flying - {slot}, lost[slot := flying[slot]])
  {
    var rest, more := flying - {slot}, lost[slot := flying[slot]];
    forall s | 0 <= s < depth ensures s in free || s in rest || s in more {
      assert s in free || s in flying || s in lost;
    }
  }

  lemma FliesIn(flying: map<nat, nat>, slot: nat)
    requires slot in flying
    ensures IsIn(flying, flying[slot])
  {
  }

  lemma BlockLost(next: nat, read: seq<nat>, flying: map<nat, nat>, lost: map<nat, nat>, slot: nat)
    requires BlocksHeld(next, read, flying, lost) && slot in flying && slot !in lost
    ensures BlocksHeld(next, read, flying - {slot}, lost[slot := flying[slot]])
  {
    hide IsRead, IsIn, Distinct, Injective;
    FliesIn(flying, slot);
    Without(flying, slot);
    With(lost, slot, flying[slot]);
    var rest, more, c := flying - {slot}, lost[slot := flying[slot]], flying[slot];
    assert forall b: nat :: IsIn(more, b) <==> IsIn(lost, b) || b == c;
    assert forall b: nat :: IsIn(rest, b) <==> IsIn(flying, b) && b != c;
    assert forall b: nat :: b < next <==> IsRead(read, b) || IsIn(rest, b) || IsIn(more, b);
    assert forall b: nat :: !(IsRead(read, b) && IsIn(rest, b)) && !(IsRead(read, b) && IsIn(more, b));
    assert forall b: nat :: !(IsIn(rest, b) && IsIn(more, b));
  }

  // ------------------------------------------------------------------------------- the pool

  /** The storage: whether it starts a request in a round while others are in flight, and what completes then. */
  datatype Storage = Storage(starts: (nat, map<nat, nat>) -> bool, harvest: (nat, map<nat, nat>) -> seq<Completion>)

  /** Completions of requests in flight, each once, at most 64 together. */
  ghost predicate Completes(flying: map<nat, nat>, completions: seq<Completion>) {
    && |completions| <= 64
    && (forall i | 0 <= i < |completions| :: completions[i].slot in flying)
    && (forall i, j | 0 <= i < j < |completions| :: completions[i].slot != completions[j].slot)
  }

  /** What is asked of any storage: it completes what is in flight, and waits for some of it if there is any. */
  ghost predicate Honest(storage: Storage) {
    forall round, flying {:trigger storage.harvest(round, flying)} ::
      Completes(flying, storage.harvest(round, flying)) && (flying != map[] ==> storage.harvest(round, flying) != [])
  }

  /** And of one that makes progress: it starts a request when none is in flight. */
  ghost predicate Live(storage: Storage) {
    forall round, flying {:trigger storage.starts(round, flying)} :: flying == map[] ==> storage.starts(round, flying)
  }

  datatype Outcome = Measured | Failed | Running

  function AllSlots(depth: nat): (slots: seq<nat>)
    ensures |slots| == depth && forall i | 0 <= i < depth :: slots[i] == i
  {
    seq(depth, i => i)
  }

  lemma Initially(depth: nat)
    ensures SlotsHeld(depth, AllSlots(depth), map[], map[]) && BlocksHeld(0, [], map[], map[])
  {
    var slots := AllSlots(depth);
    forall s | 0 <= s < depth ensures s in slots { assert slots[s] == s; }
  }

  class Pool {
    const depth: nat
    const request: nat
    const fileBytes: nat
    var freeSlots: seq<nat>
    var nextOffset: nat
    var done: nat
    var failed: bool
    // The storage's: the block each slot in flight reads.
    var flying: map<nat, nat>
    // The blocks read, in the order they were completed.
    var read: seq<nat>
    // The block the next request reads.
    var nextBlock: nat
    ghost var lost: map<nat, nat>

    ghost predicate Valid()
      reads this
    {
      && 0 < request && 0 < depth
      && SlotsHeld(depth, freeSlots, flying, lost) && BlocksHeld(nextBlock, read, flying, lost)
      && nextOffset == nextBlock * request && done == |read| * request
      && nextOffset < fileBytes + request
      && (failed <==> lost != map[])
    }

    constructor (depth: nat, request: nat, fileBytes: nat)
      requires 0 < depth && 0 < request
      ensures Valid() && !failed && read == [] && flying == map[]
      ensures this.depth == depth && this.request == request && this.fileBytes == fileBytes
    {
      Initially(depth);
      hide SlotsHeld, BlocksHeld;
      this.depth, this.request, this.fileBytes := depth, request, fileBytes;
      freeSlots, nextOffset, done, failed := AllSlots(depth), 0, 0, false;
      flying, read, lost, nextBlock := map[], [], map[], 0;
    }

    /** A request for the next block into the first free slot. No request in flight uses that slot. */
    method Start()
      requires Valid() && !failed && freeSlots != [] && nextOffset < fileBytes
      modifies this
      ensures Valid() && !failed && read == old(read) && flying != map[]
      ensures freeSlots == old(freeSlots)[1..] && nextOffset == old(nextOffset) + request
      ensures old(freeSlots)[0] !in old(flying)
      ensures flying == old(flying)[old(freeSlots)[0] := old(nextBlock)]
    {
      hide SlotsHeld, BlocksHeld;
      var slot := freeSlots[0];
      FirstFree(depth, freeSlots, flying, lost);
      SlotTaken(depth, freeSlots, flying, lost, nextBlock);
      BlockTaken(nextBlock, read, flying, lost, slot);
      Next(nextBlock, request);
      flying := flying[slot := nextBlock];
      assert slot in flying;
      freeSlots := freeSlots[1..];
      nextOffset, nextBlock := nextOffset + request, nextBlock + 1;
    }

    /** Fills the free slots until the file is requested, or the storage refuses. */
    method Submit(storage: Storage, round: nat)
      requires Valid() && !failed
      modifies this
      ensures Valid() && !failed && read == old(read)
      ensures freeSlots != [] && nextOffset < fileBytes ==> !storage.starts(round, flying)
    {
      hide SlotsHeld, BlocksHeld;
      while freeSlots != [] && nextOffset < fileBytes
        invariant Valid() && !failed && read == old(read)
        decreases |freeSlots|
      {
        if !storage.starts(round, flying) { return; }
        Start();
      }
    }

    /** One completion. */
    method Complete(c: Completion)
      requires Valid() && c.slot in flying
      modifies this
      ensures Valid() && flying == old(flying) - {c.slot}
      ensures if c.result == request then failed == old(failed) && |read| == |old(read)| + 1 else failed && read == old(read)
    {
      if c.result != request { Lose(c.slot); } else { Free(c.slot); }
    }

    // A failed read's slot is not used again.
    method Lose(slot: nat)
      requires Valid() && slot in flying
      modifies this
      ensures Valid() && flying == old(flying) - {slot} && failed && read == old(read)
    {
      hide SlotsHeld, BlocksHeld;
      FlyingNotLost(depth, freeSlots, flying, lost, slot);
      SlotLost(depth, freeSlots, flying, lost, slot);
      BlockLost(nextBlock, read, flying, lost, slot);
      lost := lost[slot := flying[slot]];
      assert slot in lost;
      flying := flying - {slot};
      failed := true;
    }

    method Free(slot: nat)
      requires Valid() && slot in flying
      modifies this
      ensures Valid() && flying == old(flying) - {slot} && failed == old(failed) && |read| == |old(read)| + 1
    {
      hide SlotsHeld, BlocksHeld;
      SlotFreed(depth, freeSlots, flying, lost, slot);
      BlockRead(nextBlock, read, flying, lost, slot);
      Next(|read|, request);
      read := read + [flying[slot]];
      flying := flying - {slot};
      done := done + request;
      freeSlots := freeSlots + [slot];
    }

    /** What completes in a round: each a block read or a failure. */
    method Harvest(completions: seq<Completion>)
      requires Valid() && Completes(flying, completions)
      modifies this
      ensures Valid() && |read| <= |old(read)| + |completions|
      ensures !failed ==> |read| == |old(read)| + |completions|
      ensures old(failed) ==> failed
    {
      hide SlotsHeld, BlocksHeld;
      for i := 0 to |completions|
        invariant Valid() && (old(failed) ==> failed)
        invariant forall j | i <= j < |completions| :: completions[j].slot in flying
        invariant |read| <= |old(read)| + i && (!failed ==> |read| == |old(read)| + i)
      {
        Complete(completions[i]);
      }
    }
  
    /** While no read failed, what was requested is what is done and what is in flight, and the slots free and in
        flight are the slots. */
    lemma InStep()
      requires Valid() && !failed
      ensures nextOffset == done + |flying| * request
      ensures Distinct(freeSlots) && forall s: nat :: s < depth <==> (s in freeSlots) != (s in flying)
    {
      assert nextBlock == |read| + |flying|;
      assert nextBlock * request == |read| * request + |flying| * request;
      forall s: nat ensures s < depth <==> (s in freeSlots) != (s in flying) {
        if s in freeSlots { var i :| 0 <= i < |freeSlots| && freeSlots[i] == s; }
      }
    }

    // With nothing in flight or lost there is a slot to start on and a block to read, until the file is done.
    lemma Startable()
      requires Valid() && !failed && flying == map[] && done < fileBytes
      ensures freeSlots != [] && nextOffset < fileBytes
    {
      assert 0 in freeSlots;
    }

    // A file done has nothing left in flight.
    lemma AllDone()
      requires Valid() && !failed && fileBytes <= done
      ensures flying == map[] && nextBlock == |read| && lost == map[] && nextOffset == done
    {
      if |read| < nextBlock {
        ProductMonotone(|read| + 1, nextBlock, request);
        Next(|read|, request);
      }
      assert |flying| == 0;
    }

    /** The measurement, for a number of rounds. If it succeeds each block of the file was read once, nothing is in
        flight and every slot is free. A storage that makes progress leaves it done or failed within as many rounds as
        the file has blocks. Nothing is left in flight unless it is still running. */
    method Measure(storage: Storage, rounds: nat) returns (out: Outcome)
      requires Valid() && !failed && read == [] && flying == map[] && Honest(storage)
      modifies this
      ensures out.Measured? ==> WholeFile(read, request, fileBytes) && SlotsHeld(depth, freeSlots, map[], map[])
      ensures out.Measured? ==> done == nextOffset && fileBytes <= done
      ensures out.Failed? <==> failed
      ensures !out.Running? ==> flying == map[]
      ensures Live(storage) && fileBytes <= rounds * request ==> !out.Running?
    {
      hide SlotsHeld, BlocksHeld, Completes;
      var round := 0;
      while done < fileBytes && !failed && round < rounds
        invariant Valid() && round <= rounds
        invariant Live(storage) && !failed ==> round <= |read|
        decreases rounds - round
      {
        Submit(storage, round);
        assert Live(storage) ==> flying != map[] by {
          if flying == map[] { Startable(); }
        }
        var completions := storage.harvest(round, flying);
        Harvest(completions);
        round := round + 1;
      }
      if !failed && done < fileBytes {
        if Live(storage) { ProductMonotone(rounds, |read|, request); }
        return Running;
      }
      if !failed {
        AllDone();
        AllBlocks(nextBlock, read, request, fileBytes);
      }
      out := if failed then Failed else Measured;
      Drain(storage, round);
    }

    /** Waits for what is in flight, whatever comes of it. */
    method Drain(storage: Storage, round: nat)
      requires Honest(storage)
      modifies this`flying
      ensures flying == map[]
    {
      while flying != map[]
        decreases |flying|
      {
        var completions := storage.harvest(round, flying);
        var gone := set i | 0 <= i < |completions| :: completions[i].slot;
        assert completions[0].slot in gone && completions[0].slot in flying;
        assert (flying - gone).Keys == flying.Keys - gone;
        Fewer(flying.Keys, gone, completions[0].slot);
        flying := flying - gone;
      }
    }
  }

  lemma Fewer(all: set<nat>, gone: set<nat>, s: nat)
    requires s in all && s in gone
    ensures |all - gone| < |all|
  {
    assert all == (all - gone) + all * gone;
    assert s in all * gone;
  }

  /** Each block of the file, once: those that begin within it. */
  ghost predicate WholeFile(read: seq<nat>, request: nat, fileBytes: nat) {
    Distinct(read) && forall b: nat :: IsRead(read, b) <==> b * request < fileBytes
  }

  lemma AllBlocks(next: nat, read: seq<nat>, request: nat, fileBytes: nat)
    requires BlocksHeld(next, read, map[], map[]) && 0 < request
    requires fileBytes <= next * request < fileBytes + request
    ensures WholeFile(read, request, fileBytes)
  {
    forall b: nat ensures IsRead(read, b) <==> b * request < fileBytes {
      assert IsRead(read, b) <==> b < next;
      if b < next {
        ProductMonotone(b + 1, next, request);
        Next(b, request);
      } else {
        ProductMonotone(next, b, request);
      }
    }
  }

  lemma FirstFree(depth: nat, free: seq<nat>, flying: map<nat, nat>, lost: map<nat, nat>)
    requires SlotsHeld(depth, free, flying, lost) && free != []
    ensures free[0] < depth && free[0] !in flying
  {
  }

  lemma FlyingNotLost(depth: nat, free: seq<nat>, flying: map<nat, nat>, lost: map<nat, nat>, slot: nat)
    requires SlotsHeld(depth, free, flying, lost) && slot in flying
    ensures slot !in lost
  {
  }

  lemma Next(n: nat, d: nat)
    ensures (n + 1) * d == n * d + d
  {
  }
}
