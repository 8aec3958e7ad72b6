/** The ring of operand sets a case runs on (benchmarks/ggml_vmm_bench.cc, RunCase): more bytes than four times the L2
    cache, filled with copies of one set, and gone round set by set. */
module OperandRing {
  import opened Arithmetic

  const INVOCATIONS := 10
  const REPLAYS := 36

  /** The invocations the graph and the stream arms make. */
  const USED := 2 * REPLAYS * INVOCATIONS

  // ------------------------------------------------------------------------------- its size

  /** The number of sets: `RingExceeds` says which. */
  function Sets(l2: nat, setBytes: nat): (sets: nat)
    requires 0 < setBytes
    ensures 2 <= sets
  {
    var n := 4 * l2 / setBytes + 1;
    if n < 2 then 2 else n
  }

  /** The ring holds more than four times L2, and no smaller ring of two sets or more does. */
  lemma RingExceeds(l2: nat, setBytes: nat)
    requires 0 < setBytes
    ensures 4 * l2 < Sets(l2, setBytes) * setBytes
    ensures forall n: nat {:trigger n * setBytes} | 2 <= n && 4 * l2 < n * setBytes :: Sets(l2, setBytes) <= n
  {
    var q := 4 * l2 / setBytes;
    Quotient(4 * l2, setBytes);
    ProductMonotone(q + 1, Sets(l2, setBytes), setBytes);
    forall n: nat {:trigger n * setBytes} | 2 <= n && 4 * l2 < n * setBytes ensures Sets(l2, setBytes) <= n {
      QuotientAtMost(4 * l2, setBytes, n - 1);
    }
  }

  // ------------------------------------------------------------------------- its invocations

  /** The invocations made: one to warm up, those captured and those on the stream. */
  ghost predicate Made(invocation: nat) {
    || invocation == 0
    || (exists replay: nat, i: nat {:trigger Captured(replay, i)} ::
          replay < REPLAYS && i < INVOCATIONS && invocation == Captured(replay, i))
    || (exists replay: nat, i: nat {:trigger Streamed(replay, i)} ::
          replay < REPLAYS && i < INVOCATIONS && invocation == Streamed(replay, i))
  }

  function Captured(replay: nat, i: nat): nat {
    replay * INVOCATIONS + i
  }

  function Streamed(replay: nat, i: nat): nat {
    (REPLAYS + replay) * INVOCATIONS + i
  }

  /** They are the first USED numbers. */
  lemma MadeIff(invocation: nat)
    ensures Made(invocation) <==> invocation < USED
  {
    var replay, i := invocation / INVOCATIONS, invocation % INVOCATIONS;
    assert invocation == Captured(replay, i);
    if REPLAYS <= replay { assert invocation == Streamed(replay - REPLAYS, i); }
  }

  function Built(sets: nat): nat {
    if sets < USED then sets else USED
  }

  /** The built set an invocation runs on. */
  function SetOf(invocation: nat, sets: nat): nat
    requires 0 < sets
  {
    (invocation % sets) % Built(sets)
  }

  /** The second remainder changes nothing: an invocation runs on the set the ring gives it, and that set is built. */
  lemma SetBuilt(invocation: nat, sets: nat)
    requires 0 < sets && Made(invocation)
    ensures SetOf(invocation, sets) == invocation % sets < Built(sets)
  {
    MadeIff(invocation);
    hide Made;
    SmallRemainder(invocation % sets, Built(sets)) by {
      if USED < sets { SmallRemainder(invocation, sets); }
    }
  }

  lemma SmallRemainder(a: nat, d: nat)
    requires a < d
    ensures a % d == a
  {
    Remainder(a, d, 0, a);
  }

  /** Consecutive invocations run on different sets. */
  lemma NextDiffers(invocation: nat, sets: nat)
    requires 2 <= sets && Made(invocation) && Made(invocation + 1)
    ensures SetOf(invocation, sets) != SetOf(invocation + 1, sets)
  {
    SetBuilt(invocation, sets);
    SetBuilt(invocation + 1, sets);
    NextRemainder(invocation, sets);
  }

  lemma NextRemainder(n: nat, d: nat)
    requires 0 < d
    ensures (n + 1) % d == if n % d + 1 == d then 0 else n % d + 1
  {
    var q := n / d;
    assert n == q * d + n % d;
    if n % d + 1 == d {
      assert n + 1 == (q + 1) * d + 0 by { assert (q + 1) * d == q * d + d; }
      Remainder(n + 1, d, q + 1, 0);
    } else {
      Remainder(n + 1, d, q, n % d + 1);
    }
  }

  // From a number on, every remainder comes up within as many numbers as there are remainders.
  lemma {:induction false} ComesUp(n: nat, d: nat, k: nat) returns (j: nat)
    requires 0 < d && k < d
    ensures n <= j < n + d && j % d == k
    decreases if n % d <= k then k - n % d else d + k - n % d
  {
    if n % d == k { j := n; } else {
      NextRemainder(n, d);
      j := ComesUp(n + 1, d, k);
      if j == n + d { SameRemainder(n, d); }
    }
  }

  lemma SameRemainder(n: nat, d: nat)
    requires 0 < d
    ensures (n + d) % d == n % d
  {
    assert n + d == (n / d + 1) * d + n % d by { assert (n / d + 1) * d == n / d * d + d; }
    Remainder(n + d, d, n / d + 1, n % d);
  }

  // Numbers with one remainder are at least the divisor apart.
  lemma {:induction false} Apart(a: nat, b: nat, d: nat)
    requires 0 < d && a < b && a % d == b % d
    ensures a + d <= b
  {
    assert a == a / d * d + a % d && b == b / d * d + b % d;
    if b / d <= a / d { ProductMonotone(b / d, a / d, d); }
    ProductMonotone(a / d + 1, b / d, d);
  }

  /** A set recurs only after every other set of the ring was run on. */
  lemma RecursAfterOthers(a: nat, b: nat, sets: nat, k: nat) returns (j: nat)
    requires 2 <= sets && Made(a) && Made(b) && a < b && SetOf(a, sets) == SetOf(b, sets) && k < sets
    ensures a < j <= b && Made(j) && SetOf(j, sets) == k
  {
    SetBuilt(a, sets);
    SetBuilt(b, sets);
    Apart(a, b, sets);
    j := ComesUp(a + 1, sets, k);
    MadeIff(b);
    MadeIff(j);
    SetBuilt(j, sets);
  }

  // ------------------------------------------------------------------------------- its fill

  type Byte = bv8

  /** A device copy: between ranges that do not overlap. */
  method Copy(ring: array<Byte>, dst: nat, src: nat, bytes: nat)
    requires src + bytes <= dst && dst + bytes <= ring.Length
    modifies ring
    ensures forall i | 0 <= i < dst :: ring[i] == old(ring[i])
    ensures forall i | dst <= i < dst + bytes :: ring[i] == old(ring[i - dst + src])
    ensures forall i | dst + bytes <= i < ring.Length :: ring[i] == old(ring[i])
  {
    for t := 0 to bytes
      invariant forall i | 0 <= i < dst :: ring[i] == old(ring[i])
      invariant forall i | dst <= i < dst + t :: ring[i] == old(ring[i - dst + src])
      invariant forall i | dst + t <= i < ring.Length :: ring[i] == old(ring[i])
    {
      ring[dst + t] := ring[src + t];
    }
  }

  method Upload(ring: array<Byte>, contents: seq<Byte>)
    requires contents != [] && |contents| <= ring.Length
    modifies ring
    ensures ring[..|contents|] == contents
  {
    for i := 0 to |contents|
      invariant forall j | 0 <= j < i :: ring[j] == contents[j]
    {
      ring[i] := contents[i];
    }
  }

  /** Copies sets from the ring's start to behind those filled. */
  method Extend(ring: array<Byte>, contents: seq<Byte>, filled: nat, more: nat)
    requires contents != [] && more <= filled && Bytes(filled + more, contents) <= ring.Length
    requires Prefilled(ring[..], contents, filled)
    modifies ring
    ensures Prefilled(ring[..], contents, filled + more)
  {
    var bytes := |contents|;
    ProductMonotone(more, filled, bytes);
    Sums(filled, more, bytes);
    ghost var before := ring[..filled * bytes];
    Copy(ring, filled * bytes, 0, more * bytes);
    assert ring[..filled * bytes + more * bytes] == before + before[..more * bytes];
    FilledMore(before, contents, filled, more);
  }

  /** Uploads one set and doubles the filled prefix until done. Each copy is between ranges that do not overlap, each
      set comes out equal to the one uploaded, and the copies are as few as doubling takes. */
  method Fill(ring: array<Byte>, contents: seq<Byte>, sets: nat) returns (copies: nat)
    requires contents != [] && 1 <= sets && ring.Length == Bytes(sets, contents)
    modifies ring
    ensures Filled(ring[..], contents)
    ensures Power(copies) >= sets && (0 < copies ==> Power(copies - 1) < sets)
  {
    hide Filled, Prefilled, Bytes, Power;
    BytesGrow(1, sets, contents);
    Upload(ring, contents);
    FirstFilled(ring[..], contents);
    PowerNext(0);
    copies := 0;
    var filled := 1;
    while filled < sets
      invariant 1 <= filled <= sets && Prefilled(ring[..], contents, filled)
      invariant filled == if Power(copies) < sets then Power(copies) else sets
      invariant 0 < copies ==> Power(copies - 1) < sets
      decreases sets - filled
    {
      var more := if filled < sets - filled then filled else sets - filled;
      BytesGrow(filled + more, sets, contents);
      PowerNext(copies);
      Extend(ring, contents, filled, more);
      filled := filled + more;
      copies := copies + 1;
    }
    AllFilled(ring[..], contents, sets);
  }

  function Bytes(sets: nat, contents: seq<Byte>): nat {
    sets * |contents|
  }

  lemma BytesGrow(a: nat, b: nat, contents: seq<Byte>)
    requires 1 <= a <= b
    ensures |contents| <= Bytes(a, contents) <= Bytes(b, contents)
  {
    ProductMonotone(1, a, |contents|);
    ProductMonotone(a, b, |contents|);
  }

  lemma PowerNext(n: nat)
    ensures Power(0) == 1 && Power(n + 1) == 2 * Power(n)
  {
  }

  // The first sets of a ring hold the contents.
  ghost predicate Prefilled(ring: seq<Byte>, contents: seq<Byte>, filled: nat)
    requires contents != []
  {
    filled * |contents| <= |ring| && Filled(ring[..filled * |contents|], contents)
  }

  lemma FirstFilled(ring: seq<Byte>, contents: seq<Byte>)
    requires contents != [] && |contents| <= |ring| && ring[..|contents|] == contents
    ensures Prefilled(ring, contents, 1)
  {
    forall i | 0 <= i < |contents| ensures i % |contents| == i { SmallRemainder(i, |contents|); }
  }

  lemma AllFilled(ring: seq<Byte>, contents: seq<Byte>, sets: nat)
    requires contents != [] && |ring| == Bytes(sets, contents) && Prefilled(ring, contents, sets)
    ensures Filled(ring, contents)
  {
    assert ring[..sets * |contents|] == ring;
  }

  /** Every set holds the contents. */
  ghost predicate Filled(ring: seq<Byte>, contents: seq<Byte>)
    requires contents != []
  {
    forall i | 0 <= i < |ring| :: ring[i] == contents[i % |contents|]
  }

  function Power(n: nat): nat {
    if n == 0 then 1 else 2 * Power(n - 1)
  }

  lemma Sums(a: nat, b: nat, d: nat)
    ensures (a + b) * d == a * d + b * d
  {
  }

  lemma FilledMore(ring: seq<Byte>, contents: seq<Byte>, filled: nat, more: nat)
    requires contents != [] && |ring| == filled * |contents| && Filled(ring, contents) && more * |contents| <= |ring|
    ensures Filled(ring + ring[..more * |contents|], contents)
  {
    var bytes := |contents|;
    var all := ring + ring[..more * bytes];
    forall i | 0 <= i < |all| ensures all[i] == contents[i % bytes] {
      if |ring| <= i {
        var t := i - |ring|;
        assert t == t / bytes * bytes + t % bytes;
        Sums(filled, t / bytes, bytes);
        Remainder(i, bytes, filled + t / bytes, t % bytes);
      }
    }
  }
}
