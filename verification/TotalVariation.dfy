/** How far two histograms of tokens are apart (benchmarks/qwen38_spec.cc, Sampled): over the sixteen tokens most frequent
    in both together, and all others as one. */
module TotalVariation {
  import opened Collections

  type Token = int

  type Counts = map<Token, nat>

  const TOP := 16

  function Of(counts: Counts, t: Token): nat {
    if t in counts then counts[t] else 0
  }

  // ------------------------------------------------------------------------------- counting

  /** The counts of the tokens of a list, added up. */
  function Over(counts: Counts, order: seq<Token>): nat {
    if order == [] then 0 else Over(counts, order[..|order| - 1]) + Of(counts, order[|order| - 1])
  }

  /** A list that holds every token counted, once. */
  ghost predicate Holds(order: seq<Token>, counts: Counts) {
    Distinct(order) && forall t | t in counts :: t in order
  }

  lemma {:induction false} OverWithout(counts: Counts, order: seq<Token>, t: Token)
    requires t !in order
    ensures Over(counts, order) == Over(counts - {t}, order)
  {
    if order != [] {
      assert order[|order| - 1] in order;
      OverWithout(counts, order[..|order| - 1], t);
    }
  }

  // Taking a token out of a list.
  lemma {:induction false} OverSplit(counts: Counts, order: seq<Token>, i: nat)
    requires i < |order|
    ensures Over(counts, order) == Over(counts, order[..i] + order[i + 1..]) + Of(counts, order[i])
  {
    var last := |order| - 1;
    var rest := order[..i] + order[i + 1..];
    if i == last {
      assert rest == order[..last];
    } else {
      OverSplit(counts, order[..last], i);
      assert rest[..|rest| - 1] == order[..last][..i] + order[..last][i + 1..];
      assert rest[|rest| - 1] == order[last];
    }
  }

  /** Lists that hold every token counted give one total. */
  lemma {:induction false} SameTotal(counts: Counts, a: seq<Token>, b: seq<Token>)
    requires Holds(a, counts) && Holds(b, counts)
    ensures Over(counts, a) == Over(counts, b)
    decreases |a|
  {
    if a == [] {
      NoneCounted(counts, b);
    } else {
      var n := |a| - 1;
      var t, less := a[n], counts - {a[n]};
      assert t !in a[..n];
      OverWithout(counts, a[..n], t);
      assert forall u | u in less :: u in a && u != t;
      HeldLess(a, counts);
      if t in b {
        var i :| 0 <= i < |b| && b[i] == t;
        var rest := b[..i] + b[i + 1..];
        OverSplit(counts, b, i);
        HeldWithout(b, counts, i);
        assert t !in rest;
        OverWithout(counts, rest, t);
        SameTotal(less, a[..n], rest);
      } else {
        assert counts == less;
        SameTotal(less, a[..n], b);
      }
    }
  }

  lemma {:induction false} NoneCounted(counts: Counts, order: seq<Token>)
    requires forall t :: t !in counts
    ensures Over(counts, order) == 0
  {
    if order != [] { NoneCounted(counts, order[..|order| - 1]); }
  }

  lemma HeldLess(order: seq<Token>, counts: Counts)
    requires Holds(order, counts) && order != []
    ensures Holds(order[..|order| - 1], counts - {order[|order| - 1]})
  {
    var n := |order| - 1;
    forall t | t in counts - {order[n]} ensures t in order[..n] {
      assert t in order;
      var i :| 0 <= i < |order| && order[i] == t;
      assert order[..n][i] == t;
    }
  }

  lemma HeldWithout(order: seq<Token>, counts: Counts, i: nat)
    requires Holds(order, counts) && i < |order|
    ensures Holds(order[..i] + order[i + 1..], counts - {order[i]}) && order[i] !in order[..i] + order[i + 1..]
  {
    var rest := order[..i] + order[i + 1..];
    forall t | t in counts - {order[i]} ensures t in rest {
      assert t in order;
      var j :| 0 <= j < |order| && order[j] == t;
      assert rest[if j < i then j else j - 1] == t;
    }
  }

  // ------------------------------------------------------------------------------- distance

  function Abs(x: real): real {
    if x < 0.0 then -x else x
  }

  function Sum(s: seq<real>): real {
    if s == [] then 0.0 else Sum(s[..|s| - 1]) + s[|s| - 1]
  }

  function Apart(a: seq<real>, b: seq<real>): real
    requires |a| == |b|
  {
    if a == [] then 0.0 else Apart(a[..|a| - 1], b[..|b| - 1]) + Abs(a[|a| - 1] - b[|b| - 1])
  }

  /** The distance over the first of a list, all others as one. */
  function Top(a: seq<real>, b: seq<real>, k: nat): real
    requires k <= |a| == |b|
  {
    0.5 * (Apart(a[..k], b[..k]) + Abs((1.0 - Sum(a[..k])) - (1.0 - Sum(b[..k]))))
  }

  /** The distance over all. */
  function Full(a: seq<real>, b: seq<real>): real
    requires |a| == |b|
  {
    0.5 * Apart(a, b)
  }

  ghost predicate Shares(s: seq<real>) {
    (forall i | 0 <= i < |s| :: 0.0 <= s[i]) && Sum(s) == 1.0
  }

  lemma {:induction false} ApartBounded(a: seq<real>, b: seq<real>)
    requires |a| == |b|
    ensures 0.0 <= Apart(a, b) && Abs(Sum(a) - Sum(b)) <= Apart(a, b)
    ensures (forall i | 0 <= i < |a| :: 0.0 <= a[i] && 0.0 <= b[i]) ==> Apart(a, b) <= Sum(a) + Sum(b)
  {
    if a != [] { ApartBounded(a[..|a| - 1], b[..|b| - 1]); }
  }

  lemma {:induction false} SumSplit(s: seq<real>, k: nat)
    requires k <= |s|
    ensures Sum(s) == Sum(s[..k]) + Sum(s[k..])
  {
    if k == |s| {
      assert s[..k] == s && s[k..] == [];
    } else {
      SumSplit(s[..|s| - 1], k);
      assert s[..|s| - 1][..k] == s[..k];
      assert s[..|s| - 1][k..] == s[k..][..|s[k..]| - 1];
    }
  }

  lemma {:induction false} ApartSplit(a: seq<real>, b: seq<real>, k: nat)
    requires k <= |a| == |b|
    ensures Apart(a, b) == Apart(a[..k], b[..k]) + Apart(a[k..], b[k..])
  {
    if k == |a| {
      assert a[..k] == a && a[k..] == [] && b[..k] == b && b[k..] == [];
    } else {
      var m := |a| - 1;
      ApartSplit(a[..m], b[..m], k);
      assert a[..m][..k] == a[..k] && b[..m][..k] == b[..k];
      assert a[..m][k..] == a[k..][..|a[k..]| - 1] && b[..m][k..] == b[k..][..|b[k..]| - 1];
    }
  }

  /** Taking the others as one never adds to the distance, and no distance is over one or below zero. */
  lemma TopBounded(a: seq<real>, b: seq<real>, k: nat)
    requires k <= |a| == |b| && Shares(a) && Shares(b)
    ensures 0.0 <= Top(a, b, k) <= Full(a, b) <= 1.0
  {
    SumSplit(a, k);
    SumSplit(b, k);
    ApartSplit(a, b, k);
    ApartBounded(a[..k], b[..k]);
    ApartBounded(a[k..], b[k..]);
    ApartBounded(a, b);
  }

  /** The first of a list, and all others as one. */
  function Merged(s: seq<real>, k: nat): seq<real>
    requires k <= |s|
  {
    s[..k] + [Sum(s[k..])]
  }

  /** The distance over the first of two lists of shares and the others as one is the full distance of the lists merged. */
  lemma TopMerged(a: seq<real>, b: seq<real>, k: nat)
    requires k <= |a| == |b| && Shares(a) && Shares(b)
    ensures Shares(Merged(a, k)) && Shares(Merged(b, k)) && Top(a, b, k) == Full(Merged(a, k), Merged(b, k))
  {
    MergedShares(a, k);
    MergedShares(b, k);
    SumSplit(a, k);
    SumSplit(b, k);
    var x, y := Merged(a, k), Merged(b, k);
    assert x[..k] == a[..k] && y[..k] == b[..k];
  }

  lemma MergedShares(s: seq<real>, k: nat)
    requires k <= |s| && Shares(s)
    ensures Shares(Merged(s, k))
  {
    SumSplit(s, k);
    Positive(s[k..]);
    assert Merged(s, k)[..k] == s[..k];
  }

  lemma {:induction false} Positive(s: seq<real>)
    requires forall i | 0 <= i < |s| :: 0.0 <= s[i]
    ensures 0.0 <= Sum(s)
  {
    if s != [] { Positive(s[..|s| - 1]); }
  }

  /** What an event has of a list: the sum of the places it holds. */
  function Part(s: seq<real>, event: set<nat>): real {
    if s == [] then 0.0 else Part(s[..|s| - 1], event) + if |s| - 1 in event then s[|s| - 1] else 0.0
  }

  // The places where the first list has more.
  function More(a: seq<real>, b: seq<real>): set<nat>
    requires |a| == |b|
  {
    set i: nat | i < |a| && b[i] < a[i]
  }

  // An event's difference counts only what the first list has more, and so no more than all of that.
  lemma {:induction false} PartsApart(a: seq<real>, b: seq<real>, event: set<nat>, n: nat)
    requires n <= |a| == |b|
    ensures Part(a[..n], event) - Part(b[..n], event) <= Part(a[..n], More(a, b)) - Part(b[..n], More(a, b))
    ensures 2.0 * (Part(a[..n], More(a, b)) - Part(b[..n], More(a, b))) == Apart(a[..n], b[..n]) + Sum(a[..n]) - Sum(b[..n])
  {
    if 0 < n {
      PartsApart(a, b, event, n - 1);
      assert a[..n][..n - 1] == a[..n - 1] && b[..n][..n - 1] == b[..n - 1];
      assert n - 1 in More(a, b) <==> b[n - 1] < a[n - 1];
    }
  }

  /** The full distance is the most by which two lists of shares differ in any event, and there is one in which they do. */
  lemma FullGreatest(a: seq<real>, b: seq<real>, event: set<nat>)
    requires |a| == |b| && Shares(a) && Shares(b)
    ensures -Full(a, b) <= Part(a, event) - Part(b, event) <= Full(a, b)
    ensures Part(a, More(a, b)) - Part(b, More(a, b)) == Full(a, b)
  {
    assert a[..|a|] == a && b[..|b|] == b;
    PartsApart(a, b, event, |a|);
    PartsApart(b, a, event, |a|);
    ApartSymmetric(a, b);
  }

  lemma {:induction false} ApartSymmetric(a: seq<real>, b: seq<real>)
    requires |a| == |b|
    ensures Apart(a, b) == Apart(b, a)
  {
    if a != [] { ApartSymmetric(a[..|a| - 1], b[..|b| - 1]); }
  }

  lemma TopSymmetric(a: seq<real>, b: seq<real>, k: nat)
    requires k <= |a| == |b|
    ensures Top(a, b, k) == Top(b, a, k)
  {
    ApartSymmetric(a[..k], b[..k]);
  }

  // --------------------------------------------------------------------------- the histogram

  /** Both modes' counts together. */
  function Pooled(ours: Counts, theirs: Counts): Counts {
    map t | t in ours.Keys + theirs.Keys :: Of(ours, t) + Of(theirs, t)
  }

  /** More frequent, or as frequent and smaller. */
  predicate First(pooled: Counts, t: Token, u: Token) {
    Of(pooled, t) > Of(pooled, u) || (Of(pooled, t) == Of(pooled, u) && t < u)
  }

  /** The tokens counted, most frequent first. */
  ghost predicate IsOrder(order: seq<Token>, pooled: Counts) {
    (forall i, j | 0 <= i < j < |order| :: First(pooled, order[i], order[j])) && forall t :: t in order <==> t in pooled
  }

  /** There is one such order. */
  lemma {:induction false} OneOrder(a: seq<Token>, b: seq<Token>, pooled: Counts, k: nat)
    requires IsOrder(a, pooled) && IsOrder(b, pooled) && k <= |a|
    ensures k <= |b| && a[..k] == b[..k]
  {
    if 0 < k {
      OneOrder(a, b, pooled, k - 1);
      forall i | 0 <= i < k - 1 ensures a[i] == b[i] { assert a[..k - 1][i] == b[..k - 1][i]; }
      var t := a[k - 1];
      assert t in a;
      var j :| 0 <= j < |b| && b[j] == t;
      var u := b[k - 1];
      assert u in b;
      var i :| 0 <= i < |a| && a[i] == u;
      assert a[..k] == a[..k - 1] + [t] && b[..k] == b[..k - 1] + [u];
    }
  }

  function Share(n: nat, total: nat): real
    requires 0 < total
  {
    n as real / total as real
  }

  lemma ShareAdds(m: nat, n: nat, total: nat)
    requires 0 < total
    ensures Share(m, total) + Share(n, total) == Share(m + n, total) && 0.0 <= Share(n, total)
    ensures Share(0, total) == 0.0 && Share(total, total) == 1.0
  {
  }

  /** Each token's share of a total. */
  function SharesOf(counts: Counts, order: seq<Token>, total: nat): (s: seq<real>)
    requires 0 < total
    ensures |s| == |order| && forall i | 0 <= i < |s| :: s[i] == Share(Of(counts, order[i]), total)
  {
    seq(|order|, i requires 0 <= i < |order| => Share(Of(counts, order[i]), total))
  }

  lemma {:induction false} SharesSum(counts: Counts, order: seq<Token>, total: nat)
    requires 0 < total
    ensures Sum(SharesOf(counts, order, total)) == Share(Over(counts, order), total)
  {
    hide Share, SharesOf, Of;
    if order == [] {
      ShareAdds(0, 0, total);
    } else {
      var n := |order| - 1;
      SharesSum(counts, order[..n], total);
      assert SharesOf(counts, order, total)[..n] == SharesOf(counts, order[..n], total);
      ShareAdds(Over(counts, order[..n]), Of(counts, order[n]), total);
    }
  }

  lemma AreShares(counts: Counts, order: seq<Token>)
    requires 0 < Over(counts, order)
    ensures Shares(SharesOf(counts, order, Over(counts, order)))
  {
    hide Share, SharesOf, Over, Of;
    var total := Over(counts, order);
    SharesSum(counts, order, total);
    ShareAdds(0, 0, total);
    forall i | 0 <= i < |order| ensures 0.0 <= Share(Of(counts, order[i]), total) { ShareAdds(0, Of(counts, order[i]), total); }
  }

  lemma OrderHolds(order: seq<Token>, ours: Counts, theirs: Counts)
    requires IsOrder(order, Pooled(ours, theirs))
    ensures Holds(order, ours) && Holds(order, theirs)
  {
  }

  lemma PooledSymmetric(ours: Counts, theirs: Counts)
    ensures Pooled(ours, theirs) == Pooled(theirs, ours)
  {
  }

  /** A double of the report: a quotient of nothing by nothing is no number, and nor is what is made of one. */
  datatype Number = Finite(value: real) | NotANumber

  function Lesser(k: nat, n: nat): nat {
    if k < n then k else n
  }

  /** Both modes have counts, so that each token has a share in both. */
  predicate Counted(ours: Counts, theirs: Counts, order: seq<Token>) {
    0 < Over(ours, order) && 0 < Over(theirs, order)
  }

  function DistanceOf(ours: Counts, theirs: Counts, order: seq<Token>): real
    requires Counted(ours, theirs, order)
  {
    Top(SharesOf(ours, order, Over(ours, order)), SharesOf(theirs, order, Over(theirs, order)), Lesser(TOP, |order|))
  }

  /** The distance reported: none between nothing and nothing, and no number where one mode alone has counts, or
      tokens are listed and not counted. */
  function Distance(ours: Counts, theirs: Counts, order: seq<Token>): Number {
    if Counted(ours, theirs, order) then Finite(DistanceOf(ours, theirs, order))
    else if order == [] then Finite(0.0)
    else NotANumber
  }

  /** The check reports a distance over its bound; no comparison holds of what is no number. */
  predicate Reported(tv: Number, bound: real) {
    tv.Finite? && tv.value > bound
  }

  /** The distance is a share, never more than the full total variation. It is a number exactly when both modes have
      counts or no token is listed, and otherwise passes every bound. */
  lemma DistanceBounded(ours: Counts, theirs: Counts, order: seq<Token>)
    requires IsOrder(order, Pooled(ours, theirs))
    ensures Distance(ours, theirs, order).Finite? <==> Counted(ours, theirs, order) || (|ours| == 0 && |theirs| == 0)
    ensures Distance(ours, theirs, order).Finite? ==> 0.0 <= Distance(ours, theirs, order).value <= 1.0
    ensures Counted(ours, theirs, order) ==>
              DistanceOf(ours, theirs, order)
              <= Full(SharesOf(ours, order, Over(ours, order)), SharesOf(theirs, order, Over(theirs, order)))
    ensures forall bound :: Distance(ours, theirs, order).NotANumber? ==> !Reported(Distance(ours, theirs, order), bound)
  {
    OrderEmpty(order, ours, theirs);
    hide Over, SharesOf, Shares, Top, Full, Pooled, IsOrder;
    if Counted(ours, theirs, order) {
      AreShares(ours, order);
      AreShares(theirs, order);
      TopBounded(SharesOf(ours, order, Over(ours, order)), SharesOf(theirs, order, Over(theirs, order)), Lesser(TOP, |order|));
    }
  }

  /** What the distance is: over the sixteen most frequent tokens, each with its share of either mode's counts, and the
      share of all others as one, the most by which the modes differ in any event of those bins; and some event has it. */
  lemma DistanceIs(ours: Counts, theirs: Counts, order: seq<Token>, event: set<nat>)
    requires IsOrder(order, Pooled(ours, theirs)) && Counted(ours, theirs, order)
    ensures var (a, b) := (Bins(ours, order), Bins(theirs, order));
            && |a| == |b| && Shares(a) && Shares(b) && Distance(ours, theirs, order) == Finite(Full(a, b))
            && -Distance(ours, theirs, order).value <= Part(a, event) - Part(b, event) <= Distance(ours, theirs, order).value
            && Part(a, More(a, b)) - Part(b, More(a, b)) == Distance(ours, theirs, order).value
  {
    hide Over, SharesOf, Shares, Top, Full, Pooled, IsOrder, Part, More, Sum, Merged, Share;
    var k := Lesser(TOP, |order|);
    AreShares(ours, order);
    AreShares(theirs, order);
    var a, b := SharesOf(ours, order, Over(ours, order)), SharesOf(theirs, order, Over(theirs, order));
    TopMerged(a, b, k);
    BinsMerged(ours, order);
    BinsMerged(theirs, order);
    FullGreatest(Bins(ours, order), Bins(theirs, order), event);
  }

  /** So a bound is reported exactly if in some event of those bins the modes differ by more. */
  lemma ReportedIff(ours: Counts, theirs: Counts, order: seq<Token>, bound: real)
    requires IsOrder(order, Pooled(ours, theirs)) && Counted(ours, theirs, order)
    ensures |Bins(ours, order)| == |Bins(theirs, order)|
    ensures Reported(Distance(ours, theirs, order), bound) <==>
            exists event: set<nat> :: Part(Bins(ours, order), event) - Part(Bins(theirs, order), event) > bound
  {
    hide Bins, Distance, Part, More, Full, IsOrder, Over, Shares;
    var a, b := Bins(ours, order), Bins(theirs, order);
    DistanceIs(ours, theirs, order, {});
    assert Part(a, More(a, b)) - Part(b, More(a, b)) == Distance(ours, theirs, order).value;
    if event: set<nat> :| Part(a, event) - Part(b, event) > bound { DistanceIs(ours, theirs, order, event); }
  }

  /** A mode's share of each of the sixteen tokens most frequent, and of all others together. */
  function Bins(counts: Counts, order: seq<Token>): seq<real>
    requires 0 < Over(counts, order)
  {
    var k, total := Lesser(TOP, |order|), Over(counts, order);
    seq(k, i requires 0 <= i < k => Share(Of(counts, order[i]), total)) + [Share(Over(counts, order[k..]), total)]
  }

  lemma BinsMerged(counts: Counts, order: seq<Token>)
    requires 0 < Over(counts, order)
    ensures Bins(counts, order) == Merged(SharesOf(counts, order, Over(counts, order)), Lesser(TOP, |order|))
    ensures |Bins(counts, order)| == Lesser(TOP, |order|) + 1
  {
    hide Share, Over;
    var k, total := Lesser(TOP, |order|), Over(counts, order);
    var s := SharesOf(counts, order, total);
    SharesSum(counts, order[k..], total);
    assert s[k..] == SharesOf(counts, order[k..], total);
  }

  /** One token counted in one mode and none in the other: no number, so that no bound is reported. */
  lemma OneModeCounted(bound: real)
    ensures IsOrder([0], Pooled(map[0 := 1], map[]))
    ensures Distance(map[0 := 1], map[], [0]) == NotANumber && !Reported(Distance(map[0 := 1], map[], [0]), bound)
  {
    assert Over(map[], [0]) == 0;
  }

  lemma OrderEmpty(order: seq<Token>, ours: Counts, theirs: Counts)
    requires IsOrder(order, Pooled(ours, theirs))
    ensures order == [] <==> |ours| == 0 && |theirs| == 0
    ensures order == [] ==> !Counted(ours, theirs, order)
  {
    if order == [] {
      forall t ensures t !in ours && t !in theirs { assert t !in order; }
      assert ours == map[] && theirs == map[];
    } else {
      var t := order[0];
      assert t in order;
      assert t in ours || t in theirs;
    }
  }

  /** And the same whichever mode's counts are the stored ones. */
  lemma DistanceSymmetric(ours: Counts, theirs: Counts, a: seq<Token>, b: seq<Token>)
    requires IsOrder(a, Pooled(ours, theirs)) && IsOrder(b, Pooled(theirs, ours))
    ensures a == b && Distance(ours, theirs, a) == Distance(theirs, ours, b)
  {
    hide Over, SharesOf, Top, Pooled, IsOrder;
    PooledSymmetric(ours, theirs);
    OneOrder(a, b, Pooled(ours, theirs), |a|);
    OneOrder(b, a, Pooled(ours, theirs), |b|);
    assert a[..|a|] == a && b[..|b|] == b;
    if Counted(ours, theirs, a) {
      TopSymmetric(SharesOf(ours, a, Over(ours, a)), SharesOf(theirs, a, Over(theirs, a)), Lesser(TOP, |a|));
    }
  }

  // ------------------------------------------------------------------------------ as written

  method Total(counts: Counts, keys: seq<Token>) returns (total: nat)
    requires forall i | 0 <= i < |keys| :: keys[i] in counts
    ensures total == Over(counts, keys)
  {
    total := 0;
    for i := 0 to |keys|
      invariant total == Over(counts, keys[..i])
    {
      assert keys[..i + 1][..i] == keys[..i];
      total := total + counts[keys[i]];
    }
    assert keys[..|keys|] == keys;
  }

  lemma KeysIn(counts: Counts, keys: seq<Token>)
    requires forall t :: t in keys <==> t in counts
    ensures forall i | 0 <= i < |keys| :: keys[i] in counts
  {
    forall i | 0 <= i < |keys| ensures keys[i] in counts {
      var t := keys[i];
      assert t in keys;
    }
  }

  // A list in order, with one token more in its place.
  method Insert(pooled: Counts, order: seq<Token>, t: Token) returns (r: seq<Token>)
    requires (forall i, j | 0 <= i < j < |order| :: First(pooled, order[i], order[j])) && t !in order
    ensures forall i, j | 0 <= i < j < |r| :: First(pooled, r[i], r[j])
    ensures forall u :: u in r <==> u in order || u == t
  {
    var n := 0;
    while n < |order| && First(pooled, order[n], t)
      invariant 0 <= n <= |order| && forall i | 0 <= i < n :: First(pooled, order[i], t)
    {
      n := n + 1;
    }
    r := order[..n] + [t] + order[n..];
    assert n < |order| ==> order[n] in order && order[n] != t && First(pooled, t, order[n]);
    assert order == order[..n] + order[n..];
  }

  /** The tokens of both modes, the most frequent in both together first, and by number where they are as frequent. */
  method Frequent(ours: Counts, theirs: Counts, ourKeys: seq<Token>, theirKeys: seq<Token>) returns (order: seq<Token>)
    requires Distinct(ourKeys) && forall t :: t in ourKeys <==> t in ours
    requires Distinct(theirKeys) && forall t :: t in theirKeys <==> t in theirs
    ensures IsOrder(order, Pooled(ours, theirs))
    ensures Distinct(order) && forall t :: t in order <==> t in ours || t in theirs
    ensures forall i, j | 0 <= i < j < |order| ::
              var m, n := Of(ours, order[i]) + Of(theirs, order[i]), Of(ours, order[j]) + Of(theirs, order[j]);
              n < m || (m == n && order[i] < order[j])
  {
    var pooled := Pooled(ours, theirs);
    order := [];
    for k := 0 to |ourKeys|
      invariant forall i, j | 0 <= i < j < |order| :: First(pooled, order[i], order[j])
      invariant forall t :: t in order <==> t in ourKeys[..k]
    {
      assert ourKeys[k] !in ourKeys[..k];
      order := Insert(pooled, order, ourKeys[k]);
    }
    assert ourKeys[..|ourKeys|] == ourKeys;
    for k := 0 to |theirKeys|
      invariant forall i, j | 0 <= i < j < |order| :: First(pooled, order[i], order[j])
      invariant forall t :: t in order <==> t in ourKeys || t in theirKeys[..k]
    {
      assert theirKeys[k] !in theirKeys[..k];
      if theirKeys[k] !in order { order := Insert(pooled, order, theirKeys[k]); }
    }
    assert theirKeys[..|theirKeys|] == theirKeys;
    InOrder(ours, theirs, order);
  }

  lemma InOrder(ours: Counts, theirs: Counts, order: seq<Token>)
    requires forall i, j | 0 <= i < j < |order| :: First(Pooled(ours, theirs), order[i], order[j])
    requires forall t :: t in order <==> t in ours || t in theirs
    ensures forall i, j | 0 <= i < j < |order| ::
              var m, n := Of(ours, order[i]) + Of(theirs, order[i]), Of(ours, order[j]) + Of(theirs, order[j]);
              n < m || (m == n && order[i] < order[j])
  {
    forall i | 0 <= i < |order| ensures Of(Pooled(ours, theirs), order[i]) == Of(ours, order[i]) + Of(theirs, order[i]) {
      assert order[i] in order;
    }
  }

  /** The distance as it is added up: the totals over each mode's own tokens, the shares and what is left of either over
      the sixteen most frequent tokens. */
  method Variation(ours: Counts, theirs: Counts, ourKeys: seq<Token>, theirKeys: seq<Token>)
    returns (tv: Number, order: seq<Token>)
    requires Distinct(ourKeys) && forall t :: t in ourKeys <==> t in ours
    requires Distinct(theirKeys) && forall t :: t in theirKeys <==> t in theirs
    ensures IsOrder(order, Pooled(ours, theirs))
    ensures Over(ours, order) == Over(ours, ourKeys) && Over(theirs, order) == Over(theirs, theirKeys)
    ensures tv == Distance(ours, theirs, order)
    ensures tv.Finite? <==> (0 < Over(ours, ourKeys) && 0 < Over(theirs, theirKeys)) || (|ours| == 0 && |theirs| == 0)
    ensures tv.Finite? && 0 < Over(ours, ourKeys) ==>
              && |Bins(ours, order)| == |Bins(theirs, order)| == (if |order| < 16 then |order| else 16) + 1
              && tv.value == Full(Bins(ours, order), Bins(theirs, order))
  {
    order := Frequent(ours, theirs, ourKeys, theirKeys);
    DistanceBounded(ours, theirs, order);
    if Counted(ours, theirs, order) { DistanceIs(ours, theirs, order, {}); }
    OrderEmpty(order, ours, theirs);
    NoneOver(ours, ourKeys);
    hide Over, IsOrder, Pooled, Distance, Bins, Full;
    if Counted(ours, theirs, order) {
      BinsMerged(ours, order);
      BinsMerged(theirs, order);
    }
    KeysIn(ours, ourKeys);
    KeysIn(theirs, theirKeys);
    var oursTotal := Total(ours, ourKeys);
    var theirsTotal := Total(theirs, theirKeys);
    OrderHolds(order, ours, theirs);
    SameTotal(ours, ourKeys, order);
    SameTotal(theirs, theirKeys, order);
    tv := Added(ours, theirs, order, oursTotal, theirsTotal);
  }

  lemma NoneOver(counts: Counts, keys: seq<Token>)
    requires forall t :: t in keys <==> t in counts
    ensures |counts| == 0 ==> Over(counts, keys) == 0
  {
    if |counts| == 0 { NoneCounted(counts, keys); }
  }

  // A token's count is within its total.
  lemma {:induction false} OfWithin(counts: Counts, order: seq<Token>, i: nat)
    requires i < |order|
    ensures Of(counts, order[i]) <= Over(counts, order)
  {
    if i + 1 < |order| { OfWithin(counts, order[..|order| - 1], i); }
  }

  // With no total there is no count either, and nothing by nothing is no number.
  function Quotient(n: nat, total: nat): Number
    requires n <= total
  {
    if total == 0 then NotANumber else Finite(Share(n, total))
  }

  function Plus(x: Number, y: Number): Number {
    if x.Finite? && y.Finite? then Finite(x.value + y.value) else NotANumber
  }

  function Minus(x: Number, y: Number): Number {
    if x.Finite? && y.Finite? then Finite(x.value - y.value) else NotANumber
  }

  function Magnitude(x: Number): Number {
    if x.Finite? then Finite(Abs(x.value)) else NotANumber
  }

  lemma NothingApart()
    ensures Apart([], []) == 0.0 && Sum([]) == 0.0 && Abs(0.0) == 0.0
  {
  }

  lemma OneFurther(a: seq<real>, b: seq<real>, i: nat)
    requires i < |a| == |b|
    ensures Apart(a[..i + 1], b[..i + 1]) == Apart(a[..i], b[..i]) + Abs(a[i] - b[i])
    ensures Sum(a[..i + 1]) == Sum(a[..i]) + a[i] && Sum(b[..i + 1]) == Sum(b[..i]) + b[i]
  {
    assert a[..i + 1][..i] == a[..i] && b[..i + 1][..i] == b[..i];
  }

  // The loop over the tokens most frequent.
  method Added(ours: Counts, theirs: Counts, order: seq<Token>, oursTotal: nat, theirsTotal: nat) returns (tv: Number)
    requires oursTotal == Over(ours, order) && theirsTotal == Over(theirs, order)
    ensures tv == Distance(ours, theirs, order)
  {
    hide Share, SharesOf, Of, Over, Apart, Sum, Abs;
    ghost var counted := Counted(ours, theirs, order);
    ghost var a := if counted then SharesOf(ours, order, oursTotal) else [];
    ghost var b := if counted then SharesOf(theirs, order, theirsTotal) else [];
    var k := Lesser(TOP, |order|);
    tv := Finite(0.0);
    var otherOurs, otherTheirs := Finite(1.0), Finite(1.0);
    NothingApart();
    for i := 0 to k
      invariant counted ==> tv == Finite(Apart(a[..i], b[..i]))
      invariant counted ==> otherOurs == Finite(1.0 - Sum(a[..i])) && otherTheirs == Finite(1.0 - Sum(b[..i]))
      invariant !counted && 0 < i ==> tv == NotANumber
      invariant i == 0 ==> tv == Finite(0.0) && otherOurs == otherTheirs == Finite(1.0)
    {
      var t := order[i];
      OfWithin(ours, order, i);
      OfWithin(theirs, order, i);
      var x, y := Quotient(Of(ours, t), oursTotal), Quotient(Of(theirs, t), theirsTotal);
      if counted { OneFurther(a, b, i); }
      tv := Plus(tv, Magnitude(Minus(x, y)));
      otherOurs := Minus(otherOurs, x);
      otherTheirs := Minus(otherTheirs, y);
    }
    var sum := Plus(tv, Magnitude(Minus(otherOurs, otherTheirs)));
    tv := if sum.Finite? then Finite(0.5 * sum.value) else NotANumber;
  }
}
