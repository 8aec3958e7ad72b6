/** How often a draft was accepted, by its position (benchmarks/qwen38_spec.cc, Greedy). */
module AcceptanceByPosition {
  import opened Lossless
  import opened Speculation

  function Sum(s: seq<nat>): nat {
    if s == [] then 0 else Sum(s[..|s| - 1]) + s[|s| - 1]
  }

  // One more at a position.
  lemma {:induction false} SumUp(s: seq<nat>, i: nat)
    requires i < |s|
    ensures Sum(s[i := s[i] + 1]) == Sum(s) + 1
  {
    var n := |s| - 1;
    if i == n {
      assert s[i := s[i] + 1][..n] == s[..n];
    } else {
      SumUp(s[..n], i);
      assert s[i := s[i] + 1][..n] == s[..n][i := s[i] + 1];
    }
  }

  lemma {:induction false} SumZero(n: nat)
    ensures Sum(None(n)) == 0
  {
    if 0 < n {
      SumZero(n - 1);
      assert None(n)[..n - 1] == None(n - 1);
    }
  }

  /** Counts a step's rows may add to: an accepted draft was offered, and one offered or accepted at a position follows
      one at each position before it. */
  ghost predicate Nested(accepted: seq<nat>, offered: seq<nat>) {
    && |accepted| == |offered|
    && (forall i | 0 <= i < |offered| :: accepted[i] <= offered[i])
    && (forall i, j | 0 <= i < j < |offered| :: accepted[j] <= accepted[i] && offered[j] <= offered[i])
  }

  /** The first positions up by one. */
  function Raised(s: seq<nat>, n: nat): (r: seq<nat>)
    requires n <= |s|
    ensures |r| == |s| && forall i | 0 <= i < |s| :: r[i] == s[i] + if i < n then 1 else 0
  {
    seq(|s|, i requires 0 <= i < |s| => s[i] + if i < n then 1 else 0)
  }

  lemma {:induction false} SumRaised(s: seq<nat>, n: nat)
    requires n <= |s|
    ensures Sum(Raised(s, n)) == Sum(s) + n
  {
    hide Sum, Raised;
    if n == 0 {
      assert Raised(s, 0) == s;
    } else {
      SumRaised(s, n - 1);
      var before := Raised(s, n - 1);
      SumUp(before, n - 1);
      assert Raised(s, n) == before[n - 1 := before[n - 1] + 1];
    }
  }

  /** A step with no more drafts than the drafter makes. */
  predicate Fits(s: Step, draftRows: nat) {
    1 <= s.kept <= s.rows == |s.drafts| + 1 <= draftRows + 1
  }

  /** Every step of a run that drafts for itself is one. */
  lemma {:induction false} StepsFit(e: Engine, c: Chooser, f: Forcing, count: nat, s: State)
    requires ValidEngine(e) && ValidForcing(f) && f.control.None? && |s.history| == s.pos + 1
    requires forall i | 0 <= i < |s.out.steps| :: Fits(s.out.steps[i], e.draftRows)
    ensures var r := Run(e, c, f, count, s);
            r.Ok? ==> forall i | 0 <= i < |r.value.out.steps| :: Fits(r.value.out.steps[i], e.draftRows)
    decreases count - |s.out.tokens|
  {
    hide Judged, Rows;
    if Goes(f, count, s) {
      var a := Advance(e, c, f, count, s);
      if a.Advanced? {
        AdvanceFits(e, c, f, count, s);
        hide Advance, Fits;
        StepsFit(e, c, f, count, a.state);
      }
    }
  }

  lemma AdvanceFits(e: Engine, c: Chooser, f: Forcing, count: nat, s: State)
    requires ValidEngine(e) && ValidForcing(f) && f.control.None? && |s.history| == s.pos + 1 && |s.out.tokens| < count
    requires forall i | 0 <= i < |s.out.steps| :: Fits(s.out.steps[i], e.draftRows)
    ensures var a := Advance(e, c, f, count, s);
            a.Advanced? ==> forall i | 0 <= i < |a.state.out.steps| :: Fits(a.state.out.steps[i], e.draftRows)
  {
    hide Judged, Rows;
  }

  /** One step's drafts. */
  method AddStep(s: Step, accepted: seq<nat>, offered: seq<nat>) returns (a: seq<nat>, o: seq<nat>)
    requires |accepted| == |offered| && 1 <= s.kept <= s.rows <= |offered| + 1
    ensures a == Raised(accepted, s.kept - 1) && o == Raised(offered, s.rows - 1)
    ensures |a| == |o| == |offered|
    ensures forall i | 0 <= i < |o| ::
              && o[i] == offered[i] + (if i + 1 < s.rows then 1 else 0) && a[i] == accepted[i] + if i + 1 < s.kept then 1 else 0
  {
    a, o := accepted, offered;
    var i := 0;
    while i + 1 < s.rows
      invariant i <= s.rows - 1 && o == Raised(offered, i) && a == Raised(accepted, if i < s.kept then i else s.kept - 1)
    {
      o := o[i := o[i] + 1];
      if i + 1 < s.kept { a := a[i := a[i] + 1]; }
      i := i + 1;
    }
  }

  /** The table of a run: its columns add up to the drafts accepted and offered in all, and no later position was offered
      or accepted more often than an earlier one. */
  method ByPosition(steps: seq<Step>, draftRows: nat) returns (accepted: seq<nat>, offered: seq<nat>)
    requires forall i | 0 <= i < |steps| :: Fits(steps[i], draftRows)
    ensures |accepted| == |offered| == draftRows && Nested(accepted, offered)
    ensures Sum(offered) == Drafts(steps) && Sum(accepted) == Accepts(steps)
    ensures forall i | 0 <= i < draftRows ::
              && accepted[i] == |set k: nat | k < |steps| && i + 1 < steps[k].kept|
              && offered[i] == |set k: nat | k < |steps| && i + 1 < steps[k].rows|
  {
    hide Sum, Nested, Raised, Drafts, Accepts, KeptPast, RowsPast;
    accepted, offered := None(draftRows), None(draftRows);
    Empty(draftRows, steps);
    forall i | 0 <= i < draftRows ensures KeptPast(steps, 0, i) == {} && RowsPast(steps, 0, i) == {} { PastAll(steps, i); }
    for k := 0 to |steps|
      invariant |accepted| == |offered| == draftRows && Nested(accepted, offered)
      invariant Sum(offered) == Drafts(steps[..k]) && Sum(accepted) == Accepts(steps[..k])
      invariant forall i | 0 <= i < draftRows ::
                  accepted[i] == |KeptPast(steps, k, i)| && offered[i] == |RowsPast(steps, k, i)|
    {
      forall i | 0 <= i < draftRows
        ensures |KeptPast(steps, k + 1, i)| == |KeptPast(steps, k, i)| + if i + 1 < steps[k].kept then 1 else 0
        ensures |RowsPast(steps, k + 1, i)| == |RowsPast(steps, k, i)| + if i + 1 < steps[k].rows then 1 else 0
      {
        PastNext(steps, k, i);
      }
      SumRaised(accepted, steps[k].kept - 1);
      SumRaised(offered, steps[k].rows - 1);
      NestedRaised(accepted, offered, steps[k].kept - 1, steps[k].rows - 1);
      OneMore(steps, k);
      accepted, offered := AddStep(steps[k], accepted, offered);
    }
    assert steps[..|steps|] == steps;
    forall i | 0 <= i < draftRows
      ensures KeptPast(steps, |steps|, i) == set k: nat | k < |steps| && i + 1 < steps[k].kept
      ensures RowsPast(steps, |steps|, i) == set k: nat | k < |steps| && i + 1 < steps[k].rows
    {
      PastAll(steps, i);
    }
  }

  // The first steps that kept, or had, a row past a draft's position.
  ghost function KeptPast(steps: seq<Step>, n: nat, i: int): set<nat>
    requires n <= |steps|
  {
    set k: nat | k < n && i + 1 < steps[k].kept
  }

  ghost function RowsPast(steps: seq<Step>, n: nat, i: int): set<nat>
    requires n <= |steps|
  {
    set k: nat | k < n && i + 1 < steps[k].rows
  }

  lemma PastNext(steps: seq<Step>, n: nat, i: int)
    requires n < |steps|
    ensures |KeptPast(steps, n + 1, i)| == |KeptPast(steps, n, i)| + if i + 1 < steps[n].kept then 1 else 0
    ensures |RowsPast(steps, n + 1, i)| == |RowsPast(steps, n, i)| + if i + 1 < steps[n].rows then 1 else 0
  {
    Grown(KeptPast(steps, n, i), KeptPast(steps, n + 1, i), n, i + 1 < steps[n].kept);
    Grown(RowsPast(steps, n, i), RowsPast(steps, n + 1, i), n, i + 1 < steps[n].rows);
  }

  lemma Grown(a: set<nat>, b: set<nat>, n: nat, more: bool)
    requires n !in a && forall k: nat :: k in b <==> k in a || (k == n && more)
    ensures |b| == |a| + if more then 1 else 0
  {
    if more { assert b == a + {n}; } else { assert b == a; }
  }

  lemma PastAll(steps: seq<Step>, i: int)
    ensures KeptPast(steps, |steps|, i) == set k: nat | k < |steps| && i + 1 < steps[k].kept
    ensures RowsPast(steps, |steps|, i) == set k: nat | k < |steps| && i + 1 < steps[k].rows
    ensures KeptPast(steps, 0, i) == {} && RowsPast(steps, 0, i) == {}
  {
  }

  function None(n: nat): (s: seq<nat>)
    ensures |s| == n && forall i | 0 <= i < n :: s[i] == 0
  {
    seq(n, i => 0)
  }

  lemma Empty(n: nat, steps: seq<Step>)
    ensures Nested(None(n), None(n)) && Sum(None(n)) == 0 && Drafts(steps[..0]) == 0 && Accepts(steps[..0]) == 0
  {
    SumZero(n);
  }

  lemma OneMore(steps: seq<Step>, k: nat)
    requires k < |steps|
    ensures Drafts(steps[..k + 1]) == Drafts(steps[..k]) + steps[k].rows - 1
    ensures Accepts(steps[..k + 1]) == Accepts(steps[..k]) + steps[k].kept - 1
  {
    assert steps[..k + 1][..k] == steps[..k];
  }

  lemma NestedRaised(accepted: seq<nat>, offered: seq<nat>, m: nat, n: nat)
    requires Nested(accepted, offered) && m <= n <= |offered|
    ensures Nested(Raised(accepted, m), Raised(offered, n))
  {
  }
}
