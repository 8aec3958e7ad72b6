/** Two models that take turns under a budget that holds the larger and half the smaller (benchmarks/alternate_paged.cc,
    Alternation::Run), with the planner that acquires them (src/memory/victims.cc, src/memory/materialize.cc,
    src/scheduler/programs.h, AcquireProgram). Every extent of weights has one size. */
module Alternation {
  import opened Collections
  import opened Results

  type Extent = nat

  /** 2 MiB. */
  const EXTENT: nat := 0x20_0000

  /** Bytes are std::uint64_t. */
  const MOST: nat := 0xffff_ffff_ffff_ffff

  // ------------------------------------------------------------------------------ the budget

  function Larger(a: nat, b: nat): nat {
    if a < b then b else a
  }

  function Smaller(a: nat, b: nat): nat {
    if a < b then a else b
  }

  /** Bytes: `BudgetIs` says how many extents. */
  function Budget(fixed: nat, a: nat, b: nat): nat {
    fixed + Larger(a * EXTENT, b * EXTENT) + (Smaller(a * EXTENT, b * EXTENT) / 2 + EXTENT - 1) / EXTENT * EXTENT
  }

  /** The budget in extents: half the smaller, rounded up. */
  lemma BudgetIs(fixed: nat, a: nat, b: nat)
    ensures Budget(fixed, a, b) == fixed + (Larger(a, b) + (Smaller(a, b) + 1) / 2) * EXTENT
  {
    var n := Smaller(a, b);
    assert Smaller(a * EXTENT, b * EXTENT) == n * EXTENT;
    assert n * EXTENT / 2 == n * 0x10_0000;
    assert (n * 0x10_0000 + EXTENT - 1) / EXTENT == (n + 1) / 2;
  }

  // ------------------------------------------------------------------------------ any planner

  function Occupied(fixed: nat, resident: set<Extent>): nat {
    fixed + |resident| * EXTENT
  }

  /** One acquisition, by any planner that evicts nothing of what was asked for and makes it resident, within the
      budget. It may load more than was asked for. */
  ghost predicate Acquired(fixed: nat, budget: nat, own: set<Extent>, before: set<Extent>, evicted: set<Extent>, after: set<Extent>) {
    && evicted <= before - own
    && before - evicted + own <= after
    && Occupied(fixed, after) <= budget
  }

  /** A run: the models in turn, each acquisition from where the one before left off, with nothing resident first. */
  datatype Acquisition = Acquisition(before: set<Extent>, evicted: set<Extent>, after: set<Extent>)

  function Turn(k: nat, a: set<Extent>, b: set<Extent>): set<Extent> {
    if k % 2 == 0 then a else b
  }

  ghost predicate Alternates(fixed: nat, budget: nat, a: set<Extent>, b: set<Extent>, run: seq<Acquisition>) {
    && (run != [] ==> run[0].before == {})
    && (forall k | 0 < k < |run| :: run[k].before == run[k - 1].after)
    && (forall k | 0 <= k < |run| ::
          && Acquired(fixed, budget, Turn(k, a, b), run[k].before, run[k].evicted, run[k].after)
          && run[k].after <= a + b)
  }

  lemma OwnResident(fixed: nat, budget: nat, a: set<Extent>, b: set<Extent>, run: seq<Acquisition>, k: nat)
    requires Alternates(fixed, budget, a, b, run) && k < |run|
    ensures run[k].after <= a + b && Turn(k, a, b) <= run[k].after
  {
  }

  /** Whatever the planner, every acquisition after the first evicts at least half the smaller model of the other
      model's weights, at least one extent if the smaller has two, and nothing else. */
  lemma EvictsOther(fixed: nat, a: set<Extent>, b: set<Extent>, run: seq<Acquisition>, k: nat)
    requires a !! b && Alternates(fixed, Budget(fixed, |a|, |b|), a, b, run) && 0 < k < |run|
    ensures run[k].evicted <= Turn(k + 1, a, b)
    ensures Smaller(|a|, |b|) / 2 <= |run[k].evicted|
    ensures 2 <= Smaller(|a|, |b|) ==> 1 <= |run[k].evicted|
  {
    hide *;
    var budget := Budget(fixed, |a|, |b|);
    OwnResident(fixed, budget, a, b, run, k - 1);
    StepOf(fixed, budget, a, b, run, k);
    if k % 2 == 0 {
      OneEvicts(fixed, a, b, run[k].before, run[k].evicted, run[k].after);
    } else {
      Symmetric(fixed, |a|, |b|);
      OneEvicts(fixed, b, a, run[k].before, run[k].evicted, run[k].after);
    }
  }

  lemma Symmetric(fixed: nat, a: nat, b: nat)
    ensures Budget(fixed, a, b) == Budget(fixed, b, a) && Smaller(a, b) == Smaller(b, a)
  {
  }

  lemma StepOf(fixed: nat, budget: nat, a: set<Extent>, b: set<Extent>, run: seq<Acquisition>, k: nat)
    requires Alternates(fixed, budget, a, b, run) && 0 < k < |run|
    ensures run[k].before == run[k - 1].after
    ensures var own := if k % 2 == 0 then a else b; Acquired(fixed, budget, own, run[k].before, run[k].evicted, run[k].after)
    ensures Turn(k - 1, a, b) == Turn(k + 1, a, b) == if k % 2 == 0 then b else a
  {
  }

  // One acquisition while the other model is resident as a whole.
  lemma OneEvicts(fixed: nat, own: set<Extent>, other: set<Extent>, before: set<Extent>, evicted: set<Extent>, after: set<Extent>)
    requires own !! other && other <= before <= own + other
    requires Acquired(fixed, Budget(fixed, |own|, |other|), own, before, evicted, after)
    ensures evicted <= other && Smaller(|own|, |other|) / 2 <= |evicted|
  {
    BudgetIs(fixed, |own|, |other|);
    hide Budget;
    Counted(own, other, evicted, after);
  }

  lemma Counted(own: set<Extent>, other: set<Extent>, evicted: set<Extent>, after: set<Extent>)
    requires own !! other && evicted <= other && own + (other - evicted) <= after
    ensures |after| >= |own| + |other| - |evicted|
  {
    assert other == (other - evicted) + evicted;
    assert after == own + (other - evicted) + (after - (own + (other - evicted)));
  }

  // ----------------------------------------------------------------------------- the planner

  datatype Candidate = Candidate(extent: Extent, bytes: nat)

  function Credit(candidates: seq<Candidate>): nat {
    if candidates == [] then 0 else Credit(candidates[..|candidates| - 1]) + candidates[|candidates| - 1].bytes
  }

  /** How many of the candidates, in order, free what is needed: the fewest that do, or all. */
  ghost predicate Fewest(candidates: seq<Candidate>, needed: nat, n: nat) {
    && n <= |candidates|
    && (forall k | 0 <= k < n :: Credit(candidates[..k]) < needed)
    && (n < |candidates| ==> needed <= Credit(candidates[..n]))
  }

  /** The first of the candidates, as many as are needed. What they free is added up without wrapping. */
  method TakeFewest(candidates: seq<Candidate>, needed: nat)
    returns (victims: seq<Candidate>, credited: nat, passedOver: nat, sufficient: bool)
    requires needed <= MOST
    ensures victims <= candidates && Fewest(candidates, needed, |victims|)
    ensures credited == Smaller(Credit(victims), MOST) && passedOver == |candidates| - |victims|
    ensures sufficient <==> needed <= Credit(candidates)
    ensures sufficient ==> needed <= Credit(victims)
  {
    victims, credited, passedOver := [], 0, 0;
    for i := 0 to |candidates|
      invariant passedOver + |victims| == i && victims == candidates[..|victims|]
      invariant credited == Smaller(Credit(victims), MOST)
      invariant forall k | 0 <= k < |victims| :: Credit(candidates[..k]) < needed
      invariant 0 < passedOver ==> needed <= Credit(victims)
    {
      if needed <= credited {
        passedOver := passedOver + 1;
      } else {
        assert candidates[..i + 1][..i] == victims;
        victims := victims + [candidates[i]];
        credited := Smaller(credited + candidates[i].bytes, MOST);
      }
    }
    sufficient := needed <= credited;
    CreditGrows(candidates, |victims|);
    assert passedOver == 0 ==> victims == candidates;
  }

  /** What the catalog says of an extent: whether it may go, whether what it holds was given up or may be at any time,
      when a job last used it, and what it holds. */
  datatype View = View(victim: Candidate, evictable: bool, discarded: bool, discardable: bool, lastUse: nat, content: nat)

  predicate Eligible(v: View, protect: set<Extent>) {
    v.evictable && v.victim.extent !in protect
  }

  /** The eviction order: what was given up, then the longest unused, then by contents and by identity. */
  predicate Precedes(v: View, w: View) {
    var first, second := v.discarded || v.discardable, w.discarded || w.discardable;
    if first != second then first
    else if v.lastUse != w.lastUse then v.lastUse < w.lastUse
    else if v.content != w.content then v.content < w.content
    else v.victim.extent < w.victim.extent
  }

  ghost predicate Ordered(views: seq<View>) {
    forall i, j | 0 <= i < j < |views| :: Precedes(views[i], views[j])
  }

  ghost predicate Identified(catalog: seq<View>) {
    forall i, j | 0 <= i < j < |catalog| :: catalog[i].victim.extent != catalog[j].victim.extent
  }

  // The candidates with one more, in its place.
  method Insert(views: seq<View>, v: View) returns (r: seq<View>)
    requires Ordered(views) && forall i | 0 <= i < |views| :: views[i].victim.extent != v.victim.extent
    ensures Ordered(r) && forall w :: w in r <==> w in views || w == v
  {
    var i := 0;
    while i < |views| && Precedes(views[i], v)
      invariant 0 <= i <= |views|
      invariant forall j | 0 <= j < i :: Precedes(views[j], v)
    {
      i := i + 1;
    }
    r := views[..i] + [v] + views[i..];
    Inserted(views, v, i);
  }

  lemma Inserted(views: seq<View>, v: View, i: nat)
    requires Ordered(views) && i <= |views| && forall j | 0 <= j < i :: Precedes(views[j], v)
    requires i < |views| ==> Precedes(v, views[i])
    ensures Ordered(views[..i] + [v] + views[i..])
    ensures forall w :: w in views[..i] + [v] + views[i..] <==> w in views || w == v
  {
    forall j | i < j < |views| ensures Precedes(v, views[j]) {
      assert Precedes(views[i], views[j]);
    }
    assert views == views[..i] + views[i..];
  }

  /** The extents that may go, in eviction order. */
  method Candidates(catalog: seq<View>, protect: set<Extent>) returns (r: seq<View>)
    requires Identified(catalog)
    ensures Ordered(r) && forall v :: v in r <==> v in catalog && Eligible(v, protect)
    ensures forall v :: v in r <==> v in catalog && v.evictable && v.victim.extent !in protect
    ensures forall i, j | 0 <= i < j < |r| ::
              && (r[j].discarded || r[j].discardable ==> r[i].discarded || r[i].discardable)
              && ((r[j].discarded || r[j].discardable) == (r[i].discarded || r[i].discardable) ==>
                    && r[i].lastUse <= r[j].lastUse
                    && (r[i].lastUse == r[j].lastUse ==> r[i].content <= r[j].content)
                    && (r[i].lastUse == r[j].lastUse && r[i].content == r[j].content ==> r[i].victim.extent < r[j].victim.extent))
  {
    hide Ordered, Precedes;
    r := [];
    assert Ordered(r) by { NoneOrdered(); }
    for i := 0 to |catalog|
      invariant Ordered(r) && forall v :: v in r <==> v in catalog[..i] && Eligible(v, protect)
    {
      forall k | 0 <= k < |r| ensures r[k].victim.extent != catalog[i].victim.extent {
        assert r[k] in catalog[..i];
        var j :| 0 <= j < i && catalog[j] == r[k];
      }
      if Eligible(catalog[i], protect) { r := Insert(r, catalog[i]); }
    }
    PrecedesAll();
    InOrderAll(r);
  }

  lemma InOrderAll(r: seq<View>)
    requires Ordered(r)
    ensures forall i, j | 0 <= i < j < |r| :: Precedes(r[i], r[j])
  {
  }

  lemma NoneOrdered()
    ensures Ordered([])
  {
  }

  function Victims(views: seq<View>): (r: seq<Candidate>)
    ensures |r| == |views| && forall i | 0 <= i < |r| :: r[i] == views[i].victim
  {
    seq(|views|, i requires 0 <= i < |views| => views[i].victim)
  }

  /** The victims chosen from a catalog: the fewest that free what is needed, or all that may go, and no extent that
      may go and stays comes before one of them. */
  method SelectVictims(catalog: seq<View>, protect: set<Extent>, needed: nat)
    returns (victims: seq<View>, credited: nat, passedOver: nat, sufficient: bool, ghost all: seq<View>)
    requires Identified(catalog) && needed <= MOST
    ensures victims <= all && Ordered(all) && forall v :: v in all <==> v in catalog && Eligible(v, protect)
    ensures forall v | v in victims :: v in catalog && v.evictable && v.victim.extent !in protect
    ensures forall v, w | v in victims && w in catalog && w.evictable && w.victim.extent !in protect && w !in victims ::
              && (w.discarded || w.discardable ==> v.discarded || v.discardable)
              && ((w.discarded || w.discardable) == (v.discarded || v.discardable) ==>
                    && v.lastUse <= w.lastUse
                    && (v.lastUse == w.lastUse ==> v.content <= w.content)
                    && (v.lastUse == w.lastUse && v.content == w.content ==> v.victim.extent < w.victim.extent))
    ensures Fewest(Victims(all), needed, |victims|) && credited == Smaller(Credit(Victims(victims)), MOST)
    ensures passedOver == |all| - |victims| && (sufficient <==> needed <= Credit(Victims(all)))
  {
    hide Ordered, Fewest, Credit, Precedes, Identified;
    victims, credited, passedOver, sufficient, all := FirstVictims(catalog, protect, needed);
    forall v, w | v in victims && w in catalog && w.evictable && w.victim.extent !in protect && w !in victims
      ensures Precedes(v, w)
    {
      StaysBehind(all, |victims|, v, w);
    }
    PrecedesAll();
    assert forall v | v in victims :: v in all;
  }

  // The order, clause by clause.
  lemma PrecedesAll()
    ensures forall v, w {:trigger Precedes(v, w)} | Precedes(v, w) ::
              && (w.discarded || w.discardable ==> v.discarded || v.discardable)
              && ((w.discarded || w.discardable) == (v.discarded || v.discardable) ==>
                    && v.lastUse <= w.lastUse
                    && (v.lastUse == w.lastUse ==> v.content <= w.content)
                    && (v.lastUse == w.lastUse && v.content == w.content ==> v.victim.extent < w.victim.extent))
  {
  }

  lemma StaysBehind(all: seq<View>, n: nat, v: View, w: View)
    requires Ordered(all) && n <= |all| && v in all[..n] && w in all && w !in all[..n]
    ensures Precedes(v, w)
  {
    var i :| 0 <= i < n && all[i] == v;
    assert forall k | 0 <= k < n :: all[k] == all[..n][k] && all[k] in all[..n];
    var j :| 0 <= j < |all| && all[j] == w;
  }

  method FirstVictims(catalog: seq<View>, protect: set<Extent>, needed: nat)
    returns (victims: seq<View>, credited: nat, passedOver: nat, sufficient: bool, ghost all: seq<View>)
    requires Identified(catalog) && needed <= MOST
    ensures |victims| <= |all| && victims == all[..|victims|] && Ordered(all)
    ensures forall v :: v in all <==> v in catalog && Eligible(v, protect)
    ensures Fewest(Victims(all), needed, |victims|) && credited == Smaller(Credit(Victims(victims)), MOST)
    ensures passedOver == |all| - |victims| && (sufficient <==> needed <= Credit(Victims(all)))
  {
    hide Ordered, Fewest, Credit;
    var candidates := Candidates(catalog, protect);
    var chosen;
    chosen, credited, passedOver, sufficient := TakeFewest(Victims(candidates), needed);
    victims, all := candidates[..|chosen|], candidates;
    assert Victims(victims) == chosen;
  }

  lemma {:induction false} CreditGrows(candidates: seq<Candidate>, n: nat)
    requires n <= |candidates|
    ensures Credit(candidates[..n]) <= Credit(candidates)
  {
    if n == |candidates| {
      assert candidates[..n] == candidates;
    } else {
      var last := |candidates| - 1;
      CreditGrows(candidates[..last], n);
      assert candidates[..last][..n] == candidates[..n];
    }
  }

  // Extents of one size.
  function Weights(extents: seq<Extent>): seq<Candidate> {
    seq(|extents|, i requires 0 <= i < |extents| => Candidate(extents[i], EXTENT))
  }

  lemma {:induction false} WeightsCredit(extents: seq<Extent>, n: nat)
    requires n <= |extents|
    ensures Credit(Weights(extents)[..n]) == n * EXTENT
  {
    if 0 < n {
      WeightsCredit(extents, n - 1);
      assert Weights(extents)[..n][..n - 1] == Weights(extents)[..n - 1];
    }
  }

  /** An order of extents: each of them once. */
  ghost predicate Lists(order: seq<Extent>, extents: set<Extent>) {
    Distinct(order) && forall e :: e in order <==> e in extents
  }

  lemma {:induction false} ListsCount(order: seq<Extent>)
    requires Distinct(order)
    ensures |Members(order)| == |order|
  {
    if order != [] {
      var n := |order| - 1;
      ListsCount(order[..n]);
      assert Members(order) == Members(order[..n]) + {order[n]};
    }
  }

  // The fewest extents of one size.
  lemma FewestIs(order: seq<Extent>, needed: nat, n: nat)
    requires 0 < needed <= |order| * EXTENT && Fewest(Weights(order), needed, n)
    ensures n == (needed + EXTENT - 1) / EXTENT && needed <= n * EXTENT
  {
    WeightsCredit(order, n);
    if 0 < n { WeightsCredit(order, n - 1); }
    assert n == |order| ==> needed <= n * EXTENT;
  }

  lemma UnionCount(own: set<Extent>, resident: set<Extent>)
    ensures |resident| + |own - resident| == |resident - own| + |own|
  {
    assert own == (own - resident) + own * resident;
    assert resident == (resident - own) + own * resident;
  }

  // Evicting the first of an order, then loading.
  lemma Evicts(own: set<Extent>, resident: set<Extent>, order: seq<Extent>, n: nat)
    requires Lists(order, resident - own) && n <= |order|
    ensures |order| == |resident - own|
    ensures var evicted := Members(order[..n]);
            && |evicted| == n && evicted <= resident - own
            && |resident - evicted + own| == |resident - own| - n + |own|
            && |resident - evicted| + |own - (resident - evicted)| == |resident - own| - n + |own|
  {
    var evicted := Members(order[..n]);
    ListsCount(order);
    ListsCount(order[..n]);
    assert Members(order) == resident - own;
    UnionCount(own, resident - evicted);
    assert resident - evicted - own == (resident - own) - evicted;
    assert resident - own == ((resident - own) - evicted) + evicted;
    assert resident - evicted + own == (resident - own - evicted) + own;
  }

  // What occupancy and what is missing exceed the budget by.
  function Shortfall(fixed: nat, budget: nat, own: set<Extent>, resident: set<Extent>): nat {
    var after := Occupied(fixed, resident) + |own - resident| * EXTENT;
    if after <= budget then 0 else after - budget
  }

  class Node {
    const fixed: nat
    const budget: nat
    var resident: set<Extent>

    constructor (fixed: nat, budget: nat)
      ensures this.fixed == fixed && this.budget == budget && resident == {}
    {
      this.fixed, this.budget, resident := fixed, budget, {};
    }

    /** Plans, evicts the victims if something must go, plans again, and loads what is missing. The second plan finds
        room. Refused, with nothing evicted, if and only if the model does not fit. */
    method Acquire(own: set<Extent>, order: seq<Extent>) returns (r: Result<set<Extent>>)
      requires Lists(order, resident - own) && Occupied(fixed, resident) + |own - resident| * EXTENT <= MOST
      modifies this
      ensures r.Ok? <==> Occupied(fixed, own) <= budget || Shortfall(fixed, budget, own, old(resident)) == 0
      ensures r.Err? ==> resident == old(resident)
      ensures r.Ok? ==> Acquired(fixed, budget, own, old(resident), r.value, resident)
      ensures r.Ok? ==> resident == old(resident) - r.value + own
      ensures r.Ok? ==> |r.value| == (Shortfall(fixed, budget, own, old(resident)) + EXTENT - 1) / EXTENT
    {
      hide Lists, Fewest, Weights, Credit, Members;
      UnionCount(own, resident);
      Evicts(own, resident, order, 0);
      var shortfall := Shortfall(fixed, budget, own, resident);
      if shortfall == 0 {
        assert |resident + own| == |resident - own| + |own| by { assert resident + own == (resident - own) + own; }
        resident := resident + own;
        return Ok({});
      }
      AllCredit(order);
      var victims, _, _, sufficient := TakeFewest(Weights(order), shortfall);
      if !sufficient { return Err("over budget"); }
      FewestIs(order, shortfall, |victims|);
      Evicts(own, resident, order, |victims|);
      var evicted := Members(order[..|victims|]);
      resident := resident - evicted;
      assert Shortfall(fixed, budget, own, resident) == 0;
      resident := resident + own;
      return Ok(evicted);
    }
  }

  lemma AllCredit(order: seq<Extent>)
    ensures |Weights(order)| == |order| && Credit(Weights(order)) == |order| * EXTENT
  {
    WeightsCredit(order, |order|);
    assert Weights(order)[..|order|] == Weights(order);
  }

  // While the other model is resident as a whole, what must go is half the smaller.
  lemma ShortfallIs(fixed: nat, own: set<Extent>, other: set<Extent>, resident: set<Extent>)
    requires own !! other && other <= resident <= own + other
    ensures Occupied(fixed, resident) + |own - resident| * EXTENT == fixed + (|own| + |other|) * EXTENT
    ensures Shortfall(fixed, Budget(fixed, |own|, |other|), own, resident) == Smaller(|own|, |other|) / 2 * EXTENT
  {
    BudgetIs(fixed, |own|, |other|);
    hide Budget;
    UnionCount(own, resident);
    assert resident - own == other;
  }

  // Either model fits alone.
  lemma OwnFits(fixed: nat, own: set<Extent>, other: set<Extent>)
    ensures Occupied(fixed, own) <= Budget(fixed, |own|, |other|)
  {
    BudgetIs(fixed, |own|, |other|);
  }

  /** One turn after the first. */
  method Take(node: Node, own: set<Extent>, other: set<Extent>, order: seq<Extent>) returns (evicted: set<Extent>)
    requires own !! other && other <= node.resident <= own + other && Lists(order, node.resident - own)
    requires node.budget == Budget(node.fixed, |own|, |other|) && node.fixed + (|own| + |other|) * EXTENT <= MOST
    modifies node
    ensures own <= node.resident <= own + other
    ensures evicted <= other && |evicted| == Smaller(|own|, |other|) / 2
  {
    hide Budget, Lists;
    ShortfallIs(node.fixed, own, other, node.resident);
    OwnFits(node.fixed, own, other);
    var r := node.Acquire(own, order);
    evicted := r.value;
  }

  /** Each eviction after the first is of half the smaller model, all of it the other model's. */
  ghost predicate Halves(evicted: seq<set<Extent>>, a: set<Extent>, b: set<Extent>) {
    forall k | 0 < k < |evicted| :: evicted[k] <= Turn(k + 1, a, b) && |evicted[k]| == Smaller(|a|, |b|) / 2
  }

  lemma Turns(fixed: nat, k: nat, a: set<Extent>, b: set<Extent>)
    requires a !! b
    ensures Turn(0, a, b) == a && Turn(k + 2, a, b) == Turn(k, a, b)
    ensures Turn(k, a, b) !! Turn(k + 1, a, b) && Turn(k, a, b) + Turn(k + 1, a, b) == a + b
    ensures |Turn(k, a, b)| + |Turn(k + 1, a, b)| == |a| + |b|
    ensures Smaller(|Turn(k, a, b)|, |Turn(k + 1, a, b)|) == Smaller(|a|, |b|)
    ensures Budget(fixed, |Turn(k, a, b)|, |Turn(k + 1, a, b)|) == Budget(fixed, |a|, |b|)
  {
    Symmetric(fixed, |a|, |b|);
    hide Budget, Smaller;
  }

  /** Any number of rounds: the first acquisition evicts nothing, and every later one evicts half the smaller model,
      all of it the other model's, however the planner orders its candidates. */
  method Alternate(fixed: nat, a: set<Extent>, b: set<Extent>, rounds: nat, order: (nat, set<Extent>) -> seq<Extent>)
    returns (evicted: seq<set<Extent>>)
    requires a !! b && fixed + (|a| + |b|) * EXTENT <= MOST && forall k, s :: Lists(order(k, s), s)
    ensures |evicted| == 2 * rounds && (0 < rounds ==> evicted[0] == {})
    ensures Halves(evicted, a, b)
  {
    hide Budget, Lists, Turn, Smaller;
    var node := new Node(fixed, Budget(fixed, |a|, |b|));
    evicted := [];
    OwnFits(fixed, a, b);
    Turns(fixed, 0, a, b);
    while |evicted| < 2 * rounds
      invariant |evicted| <= 2 * rounds && node.fixed == fixed && node.budget == Budget(fixed, |a|, |b|) && fresh(node)
      invariant evicted == [] ==> node.resident == {}
      invariant evicted != [] ==> evicted[0] == {} && Turn(|evicted| - 1, a, b) <= node.resident <= a + b
      invariant Halves(evicted, a, b)
    {
      var k := |evicted|;
      Turns(fixed, k, a, b);
      if 0 < k { Turns(fixed, k - 1, a, b); }
      var own, other := Turn(k, a, b), Turn(k + 1, a, b);
      var candidates := order(k, node.resident - own);
      var gone;
      if k == 0 {
        gone := First(node, own, |other|, candidates);
      } else {
        gone := Take(node, own, other, candidates);
      }
      evicted := evicted + [gone];
    }
  }

  method First(node: Node, own: set<Extent>, other: nat, order: seq<Extent>) returns (evicted: set<Extent>)
    requires node.resident == {} && Lists(order, node.resident - own) && Occupied(node.fixed, own) <= node.budget
    requires node.fixed + (|own| + other) * EXTENT <= MOST
    modifies node
    ensures evicted == {} && node.resident == own
  {
    assert own - node.resident == own;
    var r := node.Acquire(own, order);
    evicted := r.value;
  }
}
