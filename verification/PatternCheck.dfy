/** Counting the words off the pattern with eight workers (benchmarks/pagein_bench.cc, Check): each counts its part and
    adds it to one sum, in whatever order they end. */
module PatternCheck {
  import opened Arithmetic
  import opened Collections

  const WORKERS := 8

  type Word = bv32

  /** The words off the pattern from one place to another. */
  function Off(words: seq<Word>, pattern: nat -> Word, first: nat, begin: nat, end: nat): nat
    requires begin <= end <= |words|
    decreases end
  {
    if begin == end then 0
    else Off(words, pattern, first, begin, end - 1) + if words[end - 1] != pattern(first + end - 1) then 1 else 0
  }

  /** Which words those are. */
  ghost function OffSet(words: seq<Word>, pattern: nat -> Word, first: nat, begin: nat, end: nat): set<nat>
    requires end <= |words|
  {
    set i: nat | begin <= i < end && words[i] != pattern(first + i)
  }

  lemma {:induction false} OffCounts(words: seq<Word>, pattern: nat -> Word, first: nat, begin: nat, end: nat)
    requires begin <= end <= |words|
    ensures Off(words, pattern, first, begin, end) == |OffSet(words, pattern, first, begin, end)|
    decreases end
  {
    if begin == end {
      assert OffSet(words, pattern, first, begin, end) == {};
    } else {
      OffCounts(words, pattern, first, begin, end - 1);
      var before, off := OffSet(words, pattern, first, begin, end - 1), words[end - 1] != pattern(first + end - 1);
      var now := OffSet(words, pattern, first, begin, end);
      if off { assert now == before + {end - 1}; } else { assert now == before; }
    }
  }

  lemma {:induction false} OffJoins(words: seq<Word>, pattern: nat -> Word, first: nat, a: nat, b: nat, c: nat)
    requires a <= b <= c <= |words|
    ensures Off(words, pattern, first, a, c) == Off(words, pattern, first, a, b) + Off(words, pattern, first, b, c)
    decreases c
  {
    if b < c { OffJoins(words, pattern, first, a, b, c - 1); }
  }

  /** Where a worker's part begins, and the one before it ends. */
  function Cut(count: nat, k: nat): (at: nat)
    requires k <= WORKERS
    ensures at <= count && (k == 0 ==> at == 0) && (k == WORKERS ==> at == count)
  {
    ProductMonotone(k, WORKERS, count);
    count * k / WORKERS
  }

  lemma CutsGrow(count: nat, k: nat)
    requires k < WORKERS
    ensures Cut(count, k) <= Cut(count, k + 1) <= count
  {
    ProductMonotone(k, k + 1, count);
    QuotientMonotone(count * k, count * (k + 1), WORKERS);
  }

  /** A worker's part. */
  function Part(words: seq<Word>, pattern: nat -> Word, first: nat, k: nat): nat
    requires k < WORKERS
  {
    CutsGrow(|words|, k);
    Off(words, pattern, first, Cut(|words|, k), Cut(|words|, k + 1))
  }

  function Parts(words: seq<Word>, pattern: nat -> Word, first: nat, n: nat): nat
    requires n <= WORKERS
  {
    if n == 0 then 0 else Parts(words, pattern, first, n - 1) + Part(words, pattern, first, n - 1)
  }

  // The parts are the whole: no word is counted twice or left out.
  lemma {:induction false} PartsWhole(words: seq<Word>, pattern: nat -> Word, first: nat, n: nat)
    requires n <= WORKERS
    ensures Parts(words, pattern, first, n) == Off(words, pattern, first, 0, Cut(|words|, n))
  {
    if 0 < n {
      PartsWhole(words, pattern, first, n - 1);
      CutsGrow(|words|, n - 1);
      OffJoins(words, pattern, first, 0, Cut(|words|, n - 1), Cut(|words|, n));
    }
  }

  /** An order of the first workers: each once. */
  ghost predicate Lists(order: seq<nat>, n: nat) {
    Distinct(order) && forall k: nat :: k in order <==> k < n
  }

  function Added(words: seq<Word>, pattern: nat -> Word, first: nat, order: seq<nat>): nat
    requires forall i | 0 <= i < |order| :: order[i] < WORKERS
  {
    if order == [] then 0
    else Added(words, pattern, first, order[..|order| - 1]) + Part(words, pattern, first, order[|order| - 1])
  }

  // Taking one of the added out.
  lemma {:induction false} TakenOut(words: seq<Word>, pattern: nat -> Word, first: nat, order: seq<nat>, i: nat)
    requires i < |order| && forall j | 0 <= j < |order| :: order[j] < WORKERS
    ensures Added(words, pattern, first, order) ==
              Added(words, pattern, first, order[..i] + order[i + 1..]) + Part(words, pattern, first, order[i])
  {
    hide Part;
    var last := |order| - 1;
    var rest := order[..i] + order[i + 1..];
    if i == last {
      assert rest == order[..last];
    } else {
      TakenOut(words, pattern, first, order[..last], i);
      assert rest[..|rest| - 1] == order[..last][..i] + order[..last][i + 1..];
      assert rest[|rest| - 1] == order[last];
    }
  }

  lemma ListsLess(order: seq<nat>, n: nat, i: nat)
    requires Lists(order, n) && 0 < n && i < |order| && order[i] == n - 1
    ensures Lists(order[..i] + order[i + 1..], n - 1)
  {
    var rest := order[..i] + order[i + 1..];
    forall k: nat ensures k in rest <==> k < n - 1 {
      if k < n - 1 {
        assert k in order;
        var j :| 0 <= j < |order| && order[j] == k;
        assert rest[if j < i then j else j - 1] == k;
      }
      if k in rest {
        var j :| 0 <= j < |rest| && rest[j] == k;
        assert k == order[if j < i then j else j + 1];
        assert k in order;
      }
    }
  }

  lemma NotEmpty(order: seq<nat>, n: nat)
    requires Lists(order, n) && order != []
    ensures 0 < n
  {
    assert order[0] in order;
  }

  // In whatever order they are added.
  lemma {:induction false} AnyOrder(words: seq<Word>, pattern: nat -> Word, first: nat, order: seq<nat>, n: nat)
    requires n <= WORKERS && Lists(order, n) && forall j | 0 <= j < |order| :: order[j] < WORKERS
    ensures Added(words, pattern, first, order) == Parts(words, pattern, first, n)
    decreases n
  {
    hide Part;
    if order != [] { NotEmpty(order, n); }
    if 0 < n {
      assert n - 1 in order;
      var i :| 0 <= i < |order| && order[i] == n - 1;
      TakenOut(words, pattern, first, order, i);
      ListsLess(order, n, i);
      hide Lists, Added;
      AnyOrder(words, pattern, first, order[..i] + order[i + 1..], n - 1);
    }
  }

  /** One worker. */
  method Count(words: seq<Word>, pattern: nat -> Word, first: nat, k: nat) returns (mine: nat)
    requires k < WORKERS
    ensures mine == Part(words, pattern, first, k)
    ensures |words| * (k + 1) / 8 <= |words|
    ensures mine == |set i: nat | |words| * k / 8 <= i < |words| * (k + 1) / 8 && words[i] != pattern(first + i)|
  {
    mine := 0;
    CutsGrow(|words|, k);
    var begin, end := Cut(|words|, k), Cut(|words|, k + 1);
    OffCounts(words, pattern, first, begin, end);
    for i := begin to end
      invariant mine == Off(words, pattern, first, begin, i)
    {
      mine := mine + if words[i] != pattern(first + i) then 1 else 0;
    }
  }

  /** The workers' sum is the count of the words off the pattern, in whatever order the workers end. */
  method Check(words: seq<Word>, pattern: nat -> Word, first: nat, order: seq<nat>) returns (bad: nat)
    requires Lists(order, WORKERS)
    ensures bad == |set i: nat | i < |words| && words[i] != pattern(first + i)|
  {
    OffCounts(words, pattern, first, 0, |words|);
    assert OffSet(words, pattern, first, 0, |words|) == set i: nat | i < |words| && words[i] != pattern(first + i);
    assert forall j | 0 <= j < |order| :: order[j] in order;
    bad := 0;
    for i := 0 to |order|
      invariant bad == Added(words, pattern, first, order[..i])
    {
      var mine := Count(words, pattern, first, order[i]);
      assert order[..i + 1][..i] == order[..i];
      bad := bad + mine;
    }
    assert order[..|order|] == order;
    AnyOrder(words, pattern, first, order, WORKERS);
    PartsWhole(words, pattern, first, WORKERS);
  }
}
