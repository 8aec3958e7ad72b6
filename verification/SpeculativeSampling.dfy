/** Speculative sampling (src/execution/sampling.cc): a draft is accepted with its own probability, and a
    rejected one is replaced by a draw from the others. Over exact arithmetic, whatever the draft, the token
    that results is distributed as a plain draw. */
module SpeculativeSampling {
  /** A token kept by the sampler's truncations, with its unnormalized weight. */
  datatype Candidate = Candidate(value: real, id: int)

  ghost predicate Valid(c: seq<Candidate>) {
    && (forall i | 0 <= i < |c| :: 0.0 <= c[i].value && 0 <= c[i].id)
    && (forall i, j | 0 <= i < j < |c| :: c[i].id != c[j].id)
  }

  function Counted(x: Candidate, skip: int): real {
    if x.id == skip then 0.0 else x.value
  }

  /** The weight of the first `n` candidates but `skip`. */
  function Weight(c: seq<Candidate>, n: nat, skip: int): real
    requires n <= |c|
  {
    if n == 0 then 0.0 else Weight(c, n - 1, skip) + Counted(c[n - 1], skip)
  }

  /** How far into a total weight a uniform number falls. */
  function Target(u: real, total: real): real {
    u * total
  }

  /** The draw from candidate `i` on: the first whose cumulative weight passes `target`, or the last that
      could be drawn. */
  function Drawn(c: seq<Candidate>, target: real, skip: int, i: nat, last: int): int
    requires i <= |c|
    decreases |c| - i
  {
    if i == |c| then last
    else if c[i].value == 0.0 || c[i].id == skip then Drawn(c, target, skip, i + 1, last)
    else if target < Weight(c, i + 1, skip) then c[i].id
    else Drawn(c, target, skip, i + 1, c[i].id)
  }

  /** Draws one candidate, other than `skip`, by a uniform number. */
  method Draw(c: seq<Candidate>, total: real, u: real, skip: int) returns (id: int)
    ensures id == Drawn(c, Target(u, total), skip, 0, -1)
  {
    var target, cumulative, last := u * total, 0.0, -1;
    for i := 0 to |c|
      invariant cumulative == Weight(c, i, skip)
      invariant Drawn(c, target, skip, 0, -1) == Drawn(c, target, skip, i, last)
    {
      if c[i].value != 0.0 && c[i].id != skip {
        last := c[i].id;
        cumulative := cumulative + c[i].value;
        if target < cumulative { return c[i].id; }
      }
    }
    return last;
  }

  lemma {:induction false} WeightMonotone(c: seq<Candidate>, i: nat, j: nat, skip: int)
    requires Valid(c) && i <= j <= |c|
    ensures Weight(c, i, skip) <= Weight(c, j, skip)
  {
    if i < j { WeightMonotone(c, i, j - 1, skip); }
  }

  /** A target inside a candidate's share of the cumulative weight draws that candidate. */
  lemma {:induction false} DrawnInShare(c: seq<Candidate>, target: real, skip: int, i: nat, last: int, k: nat)
    requires Valid(c) && i <= k < |c|
    requires Weight(c, k, skip) <= target < Weight(c, k + 1, skip)
    ensures Drawn(c, target, skip, i, last) == c[k].id
    decreases k - i
  {
    if i < k {
      WeightMonotone(c, i + 1, k, skip);
      DrawnInShare(c, target, skip, i + 1, if c[i].value == 0.0 || c[i].id == skip then last else c[i].id, k);
    }
  }

  /** Every target below the total lies in some candidate's share. */
  lemma {:induction false} ShareOf(c: seq<Candidate>, target: real, skip: int, n: nat) returns (k: nat)
    requires Valid(c) && n <= |c| && 0.0 <= target < Weight(c, n, skip)
    ensures k < n && Weight(c, k, skip) <= target < Weight(c, k + 1, skip)
  {
    if target < Weight(c, n - 1, skip) { k := ShareOf(c, target, skip, n - 1); } else { k := n - 1; }
  }

  /** A draw gives candidate `k` exactly when the target lies in its share. */
  lemma DrawnIff(c: seq<Candidate>, target: real, skip: int, k: nat)
    requires Valid(c) && k < |c| && 0.0 <= target < Weight(c, |c|, skip)
    ensures Drawn(c, target, skip, 0, -1) == c[k].id <==> Weight(c, k, skip) <= target < Weight(c, k + 1, skip)
  {
    hide Drawn, Weight;
    var j := ShareOf(c, target, skip, |c|);
    DrawnInShare(c, target, skip, 0, -1, j);
    if j < k { WeightMonotone(c, j + 1, k, skip); }
    if k < j { WeightMonotone(c, k + 1, j, skip); }
  }

  /** A target that no cumulative weight passes draws the last candidate that can be drawn, and nothing if there is none. */
  lemma {:induction false} DrawnPast(c: seq<Candidate>, target: real, skip: int, i: nat, last: int)
    requires Valid(c) && i <= |c| && Weight(c, |c|, skip) <= target
    ensures forall k | i <= k < |c| && c[k].value != 0.0 && c[k].id != skip
                       && (forall j | k < j < |c| :: c[j].value == 0.0 || c[j].id == skip) ::
              Drawn(c, target, skip, i, last) == c[k].id
    ensures (forall k | i <= k < |c| :: c[k].value == 0.0 || c[k].id == skip) ==> Drawn(c, target, skip, i, last) == last
    decreases |c| - i
  {
    if i < |c| {
      WeightMonotone(c, i + 1, |c|, skip);
      DrawnPast(c, target, skip, i + 1, if c[i].value == 0.0 || c[i].id == skip then last else c[i].id);
    }
  }

  /** An interval of the unit interval, half-open. */
  datatype Interval = Interval(low: real, high: real) {
    predicate Has(u: real) {
      low <= u < high
    }

    function Length(): real {
      high - low
    }
  }

  /** Candidate `k`'s part of the unit interval. */
  function Share(c: seq<Candidate>, skip: int, k: nat): Interval
    requires k < |c| && Weight(c, |c|, skip) != 0.0
  {
    Interval(Weight(c, k, skip) / Weight(c, |c|, skip), Weight(c, k + 1, skip) / Weight(c, |c|, skip))
  }

  /** The candidates' parts tile the unit interval, in order. */
  lemma SharesTile(c: seq<Candidate>, skip: int, k: nat)
    requires k < |c| && Weight(c, |c|, skip) != 0.0
    ensures k == 0 ==> Share(c, skip, k).low == 0.0
    ensures if k + 1 < |c| then Share(c, skip, k).high == Share(c, skip, k + 1).low else Share(c, skip, k).high == 1.0
  {
    WholeShare(Weight(c, |c|, skip));
  }

  lemma WholeShare(total: real)
    requires total != 0.0
    ensures 0.0 / total == 0.0 && total / total == 1.0
  {
    assert 0.0 / total * total == 0.0 && total / total * total == total;
  }

  lemma ShareHas(c: seq<Candidate>, u: real, skip: int, k: nat)
    requires k < |c| && 0.0 < Weight(c, |c|, skip)
    ensures Share(c, skip, k).Has(u)
            <==> Weight(c, k, skip) <= Target(u, Weight(c, |c|, skip)) < Weight(c, k + 1, skip)
    ensures Share(c, skip, k).Length() == Counted(c[k], skip) / Weight(c, |c|, skip)
  {
    var w, v, total := Weight(c, k, skip), Weight(c, k + 1, skip), Weight(c, |c|, skip);
    assert v == w + Counted(c[k], skip);
    hide Weight, Counted, Target;
    Divided(w, u, total);
    Divided(v, u, total);
    Subtracted(w, v - w, total);
  }

  /** Inverse CDF, exactly: a draw gives candidate `k` if and only if `u` lies in an interval as long as the
      candidate's part of the total. */
  lemma DrawInterval(c: seq<Candidate>, u: real, skip: int, k: nat)
    requires Valid(c) && k < |c| && 0.0 <= u < 1.0 && 0.0 < Weight(c, |c|, skip)
    ensures var total := Weight(c, |c|, skip);
            && (Drawn(c, Target(u, total), skip, 0, -1) == c[k].id <==> Share(c, skip, k).Has(u))
            && Share(c, skip, k).Length() == Counted(c[k], skip) / total
  {
    hide Drawn, Weight, Valid, Share, Target;
    Scaled(u, Weight(c, |c|, skip));
    ShareHas(c, u, skip, k);
    DrawnIff(c, Target(u, Weight(c, |c|, skip)), skip, k);
  }

  lemma Scaled(u: real, total: real)
    requires 0.0 <= u < 1.0 && 0.0 < total
    ensures 0.0 <= Target(u, total) < total
  {
  }

  lemma Divided(w: real, u: real, total: real)
    requires 0.0 < total
    ensures w / total <= u <==> w <= Target(u, total)
  {
    var q := w / total;
    assert q * total == w;
    assert Target(u, total) - w == (u - q) * total;
    if q <= u { assert (u - q) * total >= 0.0; } else { assert (u - q) * total < 0.0; }
  }

  lemma Subtracted(w: real, v: real, total: real)
    requires 0.0 < total
    ensures (w + v) / total - w / total == v / total
  {
  }

  // ------------------------------------------------------------------------ the verdict

  datatype DraftVerdict = DraftVerdict(accepted: bool, token: int)

  /** The draft's weight among the candidates, 0 if it is none of them. */
  function WeightOf(c: seq<Candidate>, draft: int): real {
    if c == [] then 0.0
    else if c[|c| - 1].id == draft then c[|c| - 1].value
    else WeightOf(c[..|c| - 1], draft)
  }

  /** The verdict on a draft, from two uniform numbers: one for acceptance, one for the replacement. */
  function Verdict(c: seq<Candidate>, draft: int, accept: real, replace: real): DraftVerdict {
    var total, weight := Weight(c, |c|, -1), WeightOf(c, draft);
    if weight > 0.0 && Target(accept, total) < weight then DraftVerdict(true, draft)
    else DraftVerdict(false, Drawn(c, Target(replace, total - weight), draft, 0, -1))
  }

  /** The verdict as it is computed. A draft is accepted exactly if the first number is below its part of the total
      weight, and a rejected one is never the token given: another candidate that has weight is. */
  method VerifyDraft(c: seq<Candidate>, draft: int, accept: real, replace: real) returns (v: DraftVerdict)
    requires Valid(c)
    ensures v == Verdict(c, draft, accept, replace)
    ensures (exists k :: 0 <= k < |c| && 0.0 < c[k].value) && 0.0 <= accept < 1.0 && 0.0 <= replace < 1.0 ==>
              && 0.0 < Weight(c, |c|, -1)
              && (v.accepted <==> accept < WeightOf(c, draft) / Weight(c, |c|, -1))
              && (v.accepted <==> v.token == draft)
              && exists k :: 0 <= k < |c| && c[k].id == v.token && 0.0 < c[k].value
  {
    if (exists k :: 0 <= k < |c| && 0.0 < c[k].value) && 0.0 <= accept < 1.0 && 0.0 <= replace < 1.0 {
      var k :| 0 <= k < |c| && 0.0 < c[k].value;
      AcceptedIs(c, draft, accept, replace, k);
    }
    hide Drawn, Weight, WeightOf;
    v := DecideDraft(c, draft, accept, replace);
  }

  method DecideDraft(c: seq<Candidate>, draft: int, accept: real, replace: real) returns (v: DraftVerdict)
    requires Valid(c)
    ensures v == Verdict(c, draft, accept, replace)
  {
    var total, weight := 0.0, 0.0;
    for i := 0 to |c|
      invariant total == Weight(c, i, -1) && weight == WeightOf(c[..i], draft)
    {
      assert c[..i + 1][..i] == c[..i];
      total := total + c[i].value;
      if c[i].id == draft { weight := c[i].value; }
    }
    assert c[..|c|] == c;
    if weight > 0.0 && accept * total < weight { return DraftVerdict(true, draft); }
    var token := Draw(c, total - weight, replace, draft);
    return DraftVerdict(false, token);
  }

  // Without the draft the weights sum to the rest.
  lemma {:induction false} WeightWithout(c: seq<Candidate>, n: nat, draft: int)
    requires Valid(c) && n <= |c|
    ensures Weight(c, n, draft) == Weight(c, n, -1) - WeightOf(c[..n], draft)
    ensures 0.0 <= WeightOf(c[..n], draft) <= Weight(c, n, -1)
    ensures draft < 0 ==> WeightOf(c[..n], draft) == 0.0
  {
    if n > 0 {
      WeightWithout(c, n - 1, draft);
      assert c[..n][..n - 1] == c[..n - 1];
      if c[n - 1].id == draft { NotBefore(c, n - 1, draft); }
    }
  }

  lemma {:induction false} NotBefore(c: seq<Candidate>, n: nat, draft: int)
    requires n <= |c| && forall i | 0 <= i < n :: c[i].id != draft
    ensures WeightOf(c[..n], draft) == 0.0
  {
    if n > 0 {
      NotBefore(c, n - 1, draft);
      assert c[..n][..n - 1] == c[..n - 1];
    }
  }

  // A candidate's own weight, found by its ID.
  lemma {:induction false} WeightOfCandidate(c: seq<Candidate>, n: nat, k: nat)
    requires Valid(c) && k < n <= |c|
    ensures WeightOf(c[..n], c[k].id) == c[k].value
  {
    assert c[..n][..n - 1] == c[..n - 1];
    if k < n - 1 { WeightOfCandidate(c, n - 1, k); }
  }

  // The share of a candidate that cannot be drawn is empty, and of one that can is not.
  lemma NeverSkipped(c: seq<Candidate>, target: real, skip: int) returns (k: nat)
    requires Valid(c) && 0.0 <= target < Weight(c, |c|, skip)
    ensures k < |c| && Drawn(c, target, skip, 0, -1) == c[k].id && c[k].id != skip && 0.0 < c[k].value
  {
    k := ShareOf(c, target, skip, |c|);
    DrawnInShare(c, target, skip, 0, -1, k);
  }

  lemma Totals(c: seq<Candidate>, draft: int, k: nat)
    requires Valid(c) && k < |c| && 0.0 < c[k].value
    ensures 0.0 < Weight(c, |c|, -1) && 0.0 <= WeightOf(c, draft)
    ensures Weight(c, |c|, draft) == Weight(c, |c|, -1) - WeightOf(c, draft)
    ensures if c[k].id == draft then WeightOf(c, draft) == c[k].value else 0.0 < Weight(c, |c|, draft)
  {
    assert c[..|c|] == c;
    WeightWithout(c, |c|, draft);
    WeightMonotone(c, 0, k, -1);
    WeightMonotone(c, k + 1, |c|, -1);
    WeightMonotone(c, 0, k, draft);
    WeightMonotone(c, k + 1, |c|, draft);
    WeightOfCandidate(c, |c|, k);
  }

  lemma AcceptedIff(weight: real, total: real, accept: real)
    requires 0.0 <= weight && 0.0 < total && 0.0 <= accept < 1.0
    ensures (weight > 0.0 && Target(accept, total) < weight) <==> accept < weight / total
    ensures total <= weight ==> weight > 0.0 && Target(accept, total) < weight
  {
    hide Target;
    Divided(weight, accept, total);
    Scaled(accept, total);
  }

  // What the verdict's flag says, and what is given in a rejected draft's place.
  lemma AcceptedIs(c: seq<Candidate>, draft: int, accept: real, replace: real, k: nat)
    requires Valid(c) && k < |c| && 0.0 < c[k].value && 0.0 <= accept < 1.0 && 0.0 <= replace < 1.0
    ensures 0.0 < Weight(c, |c|, -1)
    ensures var v := Verdict(c, draft, accept, replace);
            && (v.accepted <==> accept < WeightOf(c, draft) / Weight(c, |c|, -1))
            && (v.accepted <==> v.token == draft)
            && exists j :: 0 <= j < |c| && c[j].id == v.token && 0.0 < c[j].value
  {
    hide Weight, WeightOf, Drawn, Valid, Target;
    Totals(c, draft, k);
    AcceptedIff(WeightOf(c, draft), Weight(c, |c|, -1), accept);
    if Verdict(c, draft, accept, replace).accepted {
      var j := HasWeight(c, draft);
    } else {
      assert 0.0 < Weight(c, |c|, draft);
      Scaled(replace, Weight(c, |c|, draft));
      var j := NeverSkipped(c, Target(replace, Weight(c, |c|, draft)), draft);
    }
  }

  lemma {:induction false} HasWeight(c: seq<Candidate>, draft: int) returns (k: nat)
    requires 0.0 < WeightOf(c, draft)
    ensures k < |c| && c[k].id == draft && 0.0 < c[k].value
  {
    k := |c| - 1;
    if c[k].id != draft { k := HasWeight(c[..k], draft); }
  }

  /** The draft's weight is its candidate's, and nothing if it is none. */
  lemma WeightOfIs(c: seq<Candidate>, draft: int)
    requires Valid(c)
    ensures forall k | 0 <= k < |c| && c[k].id == draft :: WeightOf(c, draft) == c[k].value
    ensures (forall k | 0 <= k < |c| :: c[k].id != draft) ==> WeightOf(c, draft) == 0.0
  {
    assert c[..|c|] == c;
    forall k | 0 <= k < |c| && c[k].id == draft ensures WeightOf(c, draft) == c[k].value { WeightOfCandidate(c, |c|, k); }
    if forall k | 0 <= k < |c| :: c[k].id != draft { NotBefore(c, |c|, draft); }
  }

  /** Which pairs of uniform numbers give a token: the accepting ones for the draft, and for another candidate
      the rejecting ones whose replacement falls in its share of the rest. */
  lemma VerdictGives(c: seq<Candidate>, draft: int, accept: real, replace: real, k: nat)
    requires Valid(c) && k < |c| && 0.0 < c[k].value
    requires 0.0 <= accept < 1.0 && 0.0 <= replace < 1.0
    ensures 0.0 < Weight(c, |c|, -1)
    ensures c[k].id != draft ==> 0.0 < Weight(c, |c|, draft)
    ensures Verdict(c, draft, accept, replace).token == c[k].id
            <==> var p := WeightOf(c, draft) / Weight(c, |c|, -1);
                 if c[k].id == draft then accept < p else p <= accept && Share(c, draft, k).Has(replace)
  {
    hide Weight, WeightOf, Drawn, Share, Valid, Target;
    Totals(c, draft, k);
    AcceptedIff(WeightOf(c, draft), Weight(c, |c|, -1), accept);
    if !Verdict(c, draft, accept, replace).accepted {
      Scaled(replace, Weight(c, |c|, draft));
      if c[k].id == draft {
        var j := NeverSkipped(c, Target(replace, Weight(c, |c|, draft)), draft);
      } else {
        DrawInterval(c, replace, draft, k);
      }
    }
  }

  /** Whatever the draft, a verdict gives each token exactly as often as a plain draw does: the area of the
      pairs that give it is the length of the interval that draws it. */
  lemma VerdictDistribution(c: seq<Candidate>, draft: int, k: nat)
    requires Valid(c) && k < |c| && 0.0 < c[k].value
    ensures 0.0 < Weight(c, |c|, -1)
    ensures c[k].id != draft ==> 0.0 < Weight(c, |c|, draft)
    ensures var p := WeightOf(c, draft) / Weight(c, |c|, -1);
            (if c[k].id == draft then p else (1.0 - p) * Share(c, draft, k).Length()) == Share(c, -1, k).Length()
  {
    assert c[k].id != -1;
    hide Weight, WeightOf, Share, Valid;
    Totals(c, draft, k);
    ShareHas(c, 0.0, -1, k);
    if c[k].id != draft {
      ShareHas(c, 0.0, draft, k);
      Renormalized(WeightOf(c, draft), Weight(c, |c|, draft), Weight(c, |c|, -1), c[k].value);
    }
  }

  lemma Renormalized(weight: real, rest: real, total: real, value: real)
    requires 0.0 < rest && 0.0 < total == weight + rest
    ensures (1.0 - weight / total) * (value / rest) == value / total
  {
    var p, q := weight / total, value / rest;
    assert p * total == weight && q * rest == value;
    assert (1.0 - p) * total == rest;
    assert (1.0 - p) * q * total == q * ((1.0 - p) * total);
  }
}
