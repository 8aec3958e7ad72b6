/** The device's address ranges, each backed by an extent (src/engine/paged_node.cc, SortSpans and Covered;
    src/engine/paged_node.h, AddSpan and EraseSpans). */
module Spans {
  import opened Collections
  import opened Results

  type Extent = nat

  datatype MemoryClass = Weights | State | Scratch | Other

  datatype Span = Span(base: nat, size: nat, extent: Extent, kind: MemoryClass, device: bool, owner: int)

  const SHARED := -1

  predicate Contains(s: Span, x: int) {
    s.base <= x < s.base + s.size
  }

  /** Two spans share no address. */
  ghost predicate Apart(a: Span, b: Span) {
    0 < a.size && 0 < b.size && Disjoint(a.base, a.size, b.base, b.size)
  }

  ghost predicate AllApart(spans: seq<Span>) {
    (forall i, j | 0 <= i < j < |spans| :: Apart(spans[i], spans[j])) && (forall i | 0 <= i < |spans| :: 0 < spans[i].size)
  }

  ghost predicate Sorted(spans: seq<Span>) {
    forall i, j | 0 <= i < j < |spans| :: spans[i].base <= spans[j].base
  }

  // -------------------------------------------------------------------------------- sorting

  function Inserted(s: Span, sorted: seq<Span>): (r: seq<Span>)
    ensures multiset(r) == multiset(sorted) + multiset{s} && forall x :: x in r <==> x in sorted || x == s
  {
    assert sorted != [] ==> sorted == [sorted[0]] + sorted[1..];
    if sorted == [] || s.base <= sorted[0].base then [s] + sorted else [sorted[0]] + Inserted(s, sorted[1..])
  }

  lemma {:induction false} InsertedSorted(s: Span, sorted: seq<Span>)
    requires Sorted(sorted)
    ensures Sorted(Inserted(s, sorted))
  {
    if sorted != [] && sorted[0].base < s.base {
      var rest := Inserted(s, sorted[1..]);
      InsertedSorted(s, sorted[1..]);
      forall j | 0 <= j < |rest| ensures sorted[0].base <= rest[j].base {
        assert rest[j] in rest;
        if rest[j] in sorted[1..] { var k :| 0 <= k < |sorted[1..]| && sorted[1..][k] == rest[j]; assert sorted[k + 1] == rest[j]; }
      }
    }
  }

  lemma {:induction false} InsertedApart(s: Span, sorted: seq<Span>)
    requires AllApart(sorted) && 0 < s.size && forall i | 0 <= i < |sorted| :: Apart(s, sorted[i])
    ensures AllApart(Inserted(s, sorted))
  {
    if sorted != [] && sorted[0].base < s.base {
      var rest := Inserted(s, sorted[1..]);
      InsertedApart(s, sorted[1..]);
      forall j | 0 <= j < |rest| ensures Apart(sorted[0], rest[j]) {
        assert rest[j] in rest;
        if rest[j] in sorted[1..] { var k :| 0 <= k < |sorted[1..]| && sorted[1..][k] == rest[j]; assert sorted[k + 1] == rest[j]; }
      }
    }
  }

  /** The spans by base. */
  function InOrder(spans: seq<Span>): (r: seq<Span>)
    ensures multiset(r) == multiset(spans) && forall x :: x in r <==> x in spans
  {
    if spans == [] then [] else
      assert spans == spans[..|spans| - 1] + [spans[|spans| - 1]];
      assert forall x :: x in spans <==> x in spans[..|spans| - 1] || x == spans[|spans| - 1];
      Inserted(spans[|spans| - 1], InOrder(spans[..|spans| - 1]))
  }

  lemma {:induction false} InOrderGood(spans: seq<Span>)
    ensures Sorted(InOrder(spans))
    ensures AllApart(spans) ==> AllApart(InOrder(spans))
  {
    hide Inserted, Sorted, AllApart;
    if spans == [] {
      NoneGood();
    } else {
      var last := |spans| - 1;
      var rest := InOrder(spans[..last]);
      InOrderGood(spans[..last]);
      InsertedSorted(spans[last], rest);
      if AllApart(spans) {
        FrontApart(spans);
        LastApart(spans, rest);
        InsertedApart(spans[last], rest);
      }
    }
  }

  lemma NoneGood()
    ensures Sorted([]) && AllApart([])
  {
  }

  lemma LastApart(spans: seq<Span>, rest: seq<Span>)
    requires spans != [] && AllApart(spans) && forall s | s in rest :: s in spans[..|spans| - 1]
    ensures 0 < spans[|spans| - 1].size && forall i | 0 <= i < |rest| :: Apart(spans[|spans| - 1], rest[i])
  {
    var last := |spans| - 1;
    forall i | 0 <= i < |rest| ensures Apart(spans[last], rest[i]) {
      var s := rest[i];
      assert s in rest;
      var k :| 0 <= k < last && spans[..last][k] == s;
      assert Apart(spans[k], spans[last]);
    }
  }

  // -------------------------------------------------------------------------------- erasing

  function Erased(spans: seq<Span>, which: Span -> bool): (r: seq<Span>)
    ensures forall x :: x in r <==> x in spans && !which(x)
  {
    if spans == [] then [] else
      var last := spans[|spans| - 1];
      assert forall x :: x in spans <==> x in spans[..|spans| - 1] || x == last;
      Erased(spans[..|spans| - 1], which) + if which(last) then [] else [last]
  }

  lemma {:induction false} ErasedApart(spans: seq<Span>, which: Span -> bool)
    requires AllApart(spans)
    ensures AllApart(Erased(spans, which))
  {
    hide Apart, Erased, AllApart;
    ErasedUnfolded(spans, which);
    if spans != [] {
      var last := |spans| - 1;
      FrontApart(spans);
      ErasedApart(spans[..last], which);
      OneMoreApart(spans, Erased(spans[..last], which));
    }
  }

  lemma ErasedUnfolded(spans: seq<Span>, which: Span -> bool)
    ensures AllApart([]) && (spans == [] ==> Erased(spans, which) == [])
    ensures var last := |spans| - 1;
            spans != [] ==>
              Erased(spans, which) == Erased(spans[..last], which) || Erased(spans, which) == Erased(spans[..last], which) + [spans[last]]
  {
  }

  lemma FrontApart(spans: seq<Span>)
    requires spans != [] && AllApart(spans)
    ensures AllApart(spans[..|spans| - 1])
  {
    hide Apart;
  }

  // Some of the spans before the last, and the last.
  lemma OneMoreApart(spans: seq<Span>, rest: seq<Span>)
    requires spans != [] && AllApart(spans) && AllApart(rest)
    requires forall s | s in rest :: s in spans[..|spans| - 1]
    ensures AllApart(rest + [spans[|spans| - 1]])
  {
    hide Apart;
    var last := |spans| - 1;
    forall i | 0 <= i < |rest| ensures Apart(rest[i], spans[last]) {
      var s := rest[i];
      assert s in rest;
      var k :| 0 <= k < last && spans[..last][k] == s;
      assert spans[k] == s;
    }
  }

  // ------------------------------------------------------------------------------- covering

  /** A span whose memory the owner may use now. */
  predicate Usable(s: Span, resident: set<Extent>, owner: int) {
    s.device && (s.owner == owner || s.owner == SHARED) && s.extent in resident
  }

  /** An address lies in memory of a class the owner may use now. */
  ghost predicate Backed(spans: seq<Span>, resident: set<Extent>, owner: int, kind: MemoryClass, x: int) {
    exists i :: && 0 <= i < |spans| && spans[i].base <= x < spans[i].base + spans[i].size && spans[i].kind == kind
                && spans[i].device && (spans[i].owner == owner || spans[i].owner == SHARED) && spans[i].extent in resident
  }

  // The one span that may hold an address.
  ghost predicate OnlyIn(spans: seq<Span>, idx: nat, x: int) {
    forall m | 0 <= m < |spans| && Contains(spans[m], x) :: m == idx
  }

  // The last span that begins by an address is the one that may hold it.
  lemma LastBegun(spans: seq<Span>, idx: nat, x: int)
    requires Sorted(spans) && AllApart(spans) && idx < |spans|
    requires spans[idx].base <= x && forall m | idx < m < |spans| :: x < spans[m].base
    ensures OnlyIn(spans, idx, x)
  {
  }

  // Where a span ends only the next may go on.
  lemma NextOnly(spans: seq<Span>, idx: nat)
    requires Sorted(spans) && AllApart(spans) && idx < |spans|
    ensures OnlyIn(spans, idx + 1, spans[idx].base + spans[idx].size)
  {
    assert idx + 1 < |spans| ==> Apart(spans[idx], spans[idx + 1]);
  }

  /** The index before the first span that begins after an address, or none. */
  method Find(spans: seq<Span>, x: nat) returns (idx: int)
    requires Sorted(spans)
    ensures -1 <= idx < |spans| && (0 <= idx ==> spans[idx].base <= x) && forall m | idx < m < |spans| :: x < spans[m].base
  {
    var lo, hi := 0, |spans|;
    while lo < hi
      invariant 0 <= lo <= hi <= |spans|
      invariant (forall m | 0 <= m < lo :: spans[m].base <= x) && (forall m | hi <= m < |spans| :: x < spans[m].base)
    {
      var mid := (lo + hi) / 2;
      if spans[mid].base <= x { lo := mid + 1; } else { hi := mid; }
    }
    idx := lo - 1;
  }

  /** Every address of a range that is not empty lies in memory of a class that the owner may use now. */
  ghost predicate RangeBacked(spans: seq<Span>, resident: set<Extent>, owner: int, kind: MemoryClass, address: nat, bytes: nat) {
    0 < bytes && forall x | address <= x < address + bytes :: Backed(spans, resident, owner, kind, x)
  }

  // One address of a range that lies in no such memory is enough.
  lemma NotBacked(spans: seq<Span>, resident: set<Extent>, owner: int, kind: MemoryClass, address: nat, bytes: nat, idx: nat, x: int)
    requires address <= x < address + bytes && OnlyIn(spans, idx, x)
    requires idx <= |spans|
    requires idx < |spans| ==> !Contains(spans[idx], x) || !Usable(spans[idx], resident, owner) || spans[idx].kind != kind
    ensures !RangeBacked(spans, resident, owner, kind, address, bytes)
  {
    assert !Backed(spans, resident, owner, kind, x);
  }

  /** The class of the memory a range lies in, if there is one. */
  method Covered(spans: seq<Span>, resident: set<Extent>, address: nat, bytes: nat, owner: int) returns (r: Option<MemoryClass>)
    requires Sorted(spans) && AllApart(spans)
    ensures forall kind :: r == Some(kind) <==> RangeBacked(spans, resident, owner, kind, address, bytes)
  {
    r := None;
    if bytes == 0 { return None; }
    var at, end := address, address + bytes;
    var span := Find(spans, at);
    if span < 0 {
      forall kind ensures !RangeBacked(spans, resident, owner, kind, address, bytes) {
        NotBacked(spans, resident, owner, kind, address, bytes, |spans|, address);
      }
      return None;
    }
    LastBegun(spans, span, at);
    ghost var first := span;
    while at < end
      invariant address <= at && first <= span <= |spans| && (r.None? <==> at == address) && (r.None? ==> span == first)
      invariant (at < end ==> OnlyIn(spans, span, at)) && OnlyIn(spans, first, address)
      invariant r.Some? ==> r.value == spans[first].kind
      invariant r.Some? ==> forall x | address <= x < at && x < end :: Backed(spans, resident, owner, r.value, x)
      decreases |spans| - span
    {
      if span == |spans| || !Contains(spans[span], at) || !Usable(spans[span], resident, owner)
         || (r.Some? && r.value != spans[span].kind)
      {
        forall kind ensures !RangeBacked(spans, resident, owner, kind, address, bytes) {
          if r.Some? && kind != r.value {
            NotBacked(spans, resident, owner, kind, address, bytes, first, address);
          } else {
            NotBacked(spans, resident, owner, kind, address, bytes, span, at);
          }
        }
        return None;
      }
      r := Some(spans[span].kind);
      NextOnly(spans, span);
      at := spans[span].base + spans[span].size;
      span := span + 1;
    }
    forall kind ensures r == Some(kind) <==> RangeBacked(spans, resident, owner, kind, address, bytes) {
      if kind != r.value { NotBacked(spans, resident, owner, kind, address, bytes, first, address); }
    }
  }
}
