/** The script that derives the cases normalizes names too (docs/experiments/backend-proof-p1/bpf1_cases.py, normalize),
    and the bench says it does the same. Where the two agree, and where they do not. */
module ScriptNormalization {
  import opened Normalization

  /** The script's numbers do not wrap. */
  predicate Fits(s: string, cut: nat, f: nat)
    requires cut <= f <= |s| && Digits(s[cut..f])
  {
    var n := Value(s[cut..f]);
    |TAG| <= n && f + n <= |s|
  }

  lemma DigitsFrom(s: string, d: nat, cut: nat, f: nat)
    requires d <= cut <= f <= |s| && Digits(s[d..f])
    ensures Digits(s[cut..f])
  {
    assert s[cut..f] == s[d..f][cut - d..];
  }

  function FirstFit(s: string, cut: nat, f: nat): (c: nat)
    requires cut <= f <= |s| && Digits(s[cut..f])
    ensures cut <= c <= f && Digits(s[c..f]) && (c < f ==> Fits(s, c, f))
    decreases f - cut
  {
    if cut == f || Fits(s, cut, f) then cut else
      DigitsFrom(s, cut, cut + 1, f);
      FirstFit(s, cut + 1, f)
  }

  /** The script takes all the digits before a tag, and passes by those that begin inside a name already replaced. */
  function ScriptRest(s: string, at: nat, from: nat): string
    requires at <= |s| && from <= |s|
    decreases |s| - from
  {
    var f := NextTag(s, from);
    if f == |s| then s[at..]
    else
      var run := RunStart(s, 0, f);
      if run < at then ScriptRest(s, at, f + 1)
      else
        var cut := FirstFit(s, run, f);
        if cut < f then s[at..cut] + TAG + ScriptRest(s, f + Value(s[cut..f]), f + 1)
        else ScriptRest(s, at, f + 1)
  }

  function Scripted(s: string): string {
    ScriptRest(s, 0, 0)
  }

  // A number from a place on is taken for the length of the name a tag starts.
  ghost predicate Taken(s: string, at: nat, f: nat)
    requires f <= |s|
  {
    exists cut: nat :: at <= cut < f && Accepts(s, cut, f)
  }

  // A number before a tag, earlier than the first that fits, is taken by the bench for its sum with the place wraps.
  ghost predicate Wraps(s: string, run: nat, f: nat)
    requires run <= f <= |s| && Digits(s[run..f])
  {
    exists cut: nat :: run <= cut < FirstFit(s, run, f) && WrapsAt(s, cut, f)
  }

  ghost predicate WrapsAt(s: string, cut: nat, f: nat)
    requires cut <= f <= |s|
  {
    cut < f && Digits(s[cut..f]) && Value(s[cut..f]) < SIZE <= f + Value(s[cut..f])
  }

  /** Along the script's scan, at some tag: the digits before it begin inside a replaced name and those after it give a
      length, or a number among them that does not fit wraps. */
  ghost predicate Diverges(s: string, at: nat, from: nat)
    requires at <= |s| && from <= |s|
    decreases |s| - from
  {
    var f := NextTag(s, from);
    if f == |s| then false
    else
      var run := RunStart(s, 0, f);
      if run < at then Taken(s, at, f) || Diverges(s, at, f + 1)
      else
        var cut := FirstFit(s, run, f);
        Wraps(s, run, f) || Diverges(s, if cut < f then f + Value(s[cut..f]) else at, f + 1)
  }

  // The digits seen from a place on.
  lemma {:induction false} RunFrom(s: string, at: nat, f: nat)
    requires f <= |s|
    ensures var run := RunStart(s, 0, f);
            RunStart(s, at, f) == if f <= at then f else if run < at then at else run
    decreases f
  {
    hide Digits, Digit;
    if at < f && 0 < f && Digit(s[f - 1]) { RunFrom(s, at, f - 1); }
  }

  // The bench takes what fits and what wraps.
  lemma TakesMore(s: string, cut: nat, f: nat)
    requires cut < f <= |s| < SIZE && TagAt(s, f) && Digits(s[cut..f])
    ensures Accepts(s, cut, f) <==> Fits(s, cut, f) || WrapsAt(s, cut, f)
    ensures Fits(s, cut, f) ==> Wrapped(f, Number(s[cut..f]).value) == f + Value(s[cut..f])
  {
    AcceptsIff(s, cut, f);
    hide Value;
  }

  // So its cut is the script's, or an earlier one that wraps.
  lemma {:induction false} EarlierCut(s: string, cut: nat, f: nat)
    requires cut <= f <= |s| < SIZE && TagAt(s, f) && Digits(s[cut..f])
    ensures FirstCut(s, cut, f) <= FirstFit(s, cut, f)
    ensures FirstCut(s, cut, f) < FirstFit(s, cut, f) <==> Wraps(s, cut, f)
    decreases f - cut
  {
    hide Accepts, Value, WrapsAt;
    if cut < f {
      TakesMore(s, cut, f);
      if !Fits(s, cut, f) && !WrapsAt(s, cut, f) {
        DigitsFrom(s, cut, cut + 1, f);
        EarlierCut(s, cut + 1, f);
      }
    }
  }

  // The script's rest of the output after one tag, unfolded.
  lemma ScriptUnfolded(s: string, at: nat, from: nat)
    requires at <= |s| && from <= |s| && NextTag(s, from) < |s|
    ensures var f := NextTag(s, from);
            var run := RunStart(s, 0, f);
            var cut := FirstFit(s, run, f);
            ScriptRest(s, at, from) == if at <= run && cut < f
                                       then s[at..cut] + TAG + ScriptRest(s, f + Value(s[cut..f]), f + 1)
                                       else ScriptRest(s, at, f + 1)
  {
    hide TagAt, RunStart, FirstFit, NextTag, Value, Digits, Digit, Number;
  }

  lemma ScriptEnded(s: string, at: nat, from: nat)
    requires at <= |s| && from <= |s| && NextTag(s, from) == |s|
    ensures ScriptRest(s, at, from) == s[at..] == Rest(s, at, from) && !Diverges(s, at, from)
  {
  }

  // A place with something that is no digit between it and where tags are sought comes out as it is.
  lemma {:induction false} ScriptKept(s: string, at: nat, from: nat, c: nat, p: nat)
    requires at <= c <= p < from <= |s| && !Digit(s[p])
    ensures c - at < |ScriptRest(s, at, from)| && ScriptRest(s, at, from)[c - at] == s[c]
    decreases |s| - from
  {
    hide *;
    var f := NextTag(s, from);
    if f == |s| {
      ScriptEnded(s, at, from);
    } else {
      ScriptUnfolded(s, at, from);
      RunAfter(s, 0, p, f);
      var run := RunStart(s, 0, f);
      if run < at || FirstFit(s, run, f) == f { ScriptKept(s, at, f + 1, c, p); }
    }
  }

  // A tag whose digits begin inside a replaced name.
  lemma PassedTag(s: string, at: nat, from: nat)
    requires at <= |s| < SIZE && from <= |s| && NextTag(s, from) < |s| && RunStart(s, 0, NextTag(s, from)) < at
    ensures var f := NextTag(s, from);
            && ScriptRest(s, at, from) == ScriptRest(s, at, f + 1)
            && (if Taken(s, at, f) then Rest(s, at, from) != ScriptRest(s, at, from)
                else Rest(s, at, from) == Rest(s, at, f + 1))
  {
    hide *;
    var f := NextTag(s, from);
    var cut := CutAt(s, at, f);
    Unfolded(s, at, from);
    ScriptUnfolded(s, at, from);
    TakenCut(s, at, f);
    if cut < f {
      Cut(s, at, f, cut, Rest(s, Done(s, at, f, cut), f + 1));
    }
  }

  lemma TakenCut(s: string, at: nat, f: nat)
    requires f < |s| && RunStart(s, 0, f) < at
    ensures Taken(s, at, f) <==> CutAt(s, at, f) < f
  {
    RunFrom(s, at, f);
    hide RunStart, FirstCut, Accepts;
    var cut := CutAt(s, at, f);
    assert cut < f ==> at <= cut;
  }

  // Where the bench puts a tag the script leaves a digit.
  lemma Cut(s: string, at: nat, f: nat, cut: nat, rest: string)
    requires at <= cut < f < |s| && TagAt(s, f) && Accepts(s, cut, f)
    ensures s[at..cut] + TAG + rest != ScriptRest(s, at, f + 1)
  {
    hide *;
    TagNotDigit(s, f);
    CutsDigit(s, cut, f);
    TagThere(s[at..cut], rest);
    ScriptKept(s, at, f + 1, cut, f);
  }

  lemma CutIs(s: string, at: nat, f: nat)
    requires f <= |s|
    ensures CutAt(s, at, f) == FirstCut(s, RunStart(s, at, f), f)
  {
  }

  lemma SameDone(s: string, at: nat, cut: nat, f: nat)
    requires at <= |s| && cut < f <= |s| && Accepts(s, cut, f)
    ensures Done(s, at, f, cut) == Wrapped(f, Number(s[cut..f]).value)
  {
  }

  // Any other tag: the bench takes an earlier number, or the two do the same.
  lemma OtherTag(s: string, at: nat, from: nat)
    requires at <= |s| < SIZE && from <= |s| && NextTag(s, from) < |s| && at <= RunStart(s, 0, NextTag(s, from))
    ensures var f := NextTag(s, from);
            var cut := FirstFit(s, RunStart(s, 0, f), f);
            var done := if cut < f then f + Value(s[cut..f]) else at;
            && done <= |s|
            && (if Wraps(s, RunStart(s, 0, f), f) then Rest(s, at, from) != ScriptRest(s, at, from)
                else (Rest(s, at, from) == ScriptRest(s, at, from) <==> Rest(s, done, f + 1) == ScriptRest(s, done, f + 1)))
  {
    hide *;
    var f := NextTag(s, from);
    var run := RunStart(s, 0, f);
    RunFrom(s, at, f);
    CutIs(s, at, f);
    EarlierCut(s, run, f);
    FitsWithin(s, run, f);
    if Wraps(s, run, f) { WrapsDiffers(s, at, from); } else { SameTag(s, at, from); }
  }

  lemma FitsWithin(s: string, run: nat, f: nat)
    requires run <= f <= |s| && Digits(s[run..f])
    ensures FirstFit(s, run, f) < f ==> f + Value(s[FirstFit(s, run, f)..f]) <= |s|
  {
  }

  lemma WrapsDiffers(s: string, at: nat, from: nat)
    requires at <= |s| < SIZE && from <= |s| && NextTag(s, from) < |s| && at <= RunStart(s, 0, NextTag(s, from))
    requires CutAt(s, at, NextTag(s, from)) < FirstFit(s, RunStart(s, 0, NextTag(s, from)), NextTag(s, from))
    ensures Rest(s, at, from) != ScriptRest(s, at, from)
  {
    hide *;
    var f := NextTag(s, from);
    var cut := CutAt(s, at, f);
    Unfolded(s, at, from);
    ScriptUnfolded(s, at, from);
    var rest := Rest(s, Done(s, at, f, cut), f + 1);
    if FirstFit(s, RunStart(s, 0, f), f) == f {
      Cut(s, at, f, cut, rest);
    } else {
      WrapsSooner(s, at, from, rest);
    }
  }

  // Where the script takes a number too, the bench has taken a longer one.
  lemma WrapsSooner(s: string, at: nat, from: nat, rest: string)
    requires at <= |s| < SIZE && from <= |s| && NextTag(s, from) < |s| && at <= RunStart(s, 0, NextTag(s, from))
    requires CutAt(s, at, NextTag(s, from)) < FirstFit(s, RunStart(s, 0, NextTag(s, from)), NextTag(s, from)) < NextTag(s, from)
    ensures s[at..CutAt(s, at, NextTag(s, from))] + TAG + rest != ScriptRest(s, at, from)
  {
    hide *;
    var f := NextTag(s, from);
    var cut := CutAt(s, at, f);
    ScriptUnfolded(s, at, from);
    CutsDigit(s, cut, f);
    TagThere(s[at..cut], rest);
  }

  lemma CutsDigit(s: string, cut: nat, f: nat)
    requires cut < f <= |s| && Accepts(s, cut, f)
    ensures Digit(s[cut])
  {
    CutDigit(s, cut, f);
  }

  lemma SameTag(s: string, at: nat, from: nat)
    requires at <= |s| < SIZE && from <= |s| && NextTag(s, from) < |s| && at <= RunStart(s, 0, NextTag(s, from))
    requires CutAt(s, at, NextTag(s, from)) == FirstFit(s, RunStart(s, 0, NextTag(s, from)), NextTag(s, from))
    ensures var f := NextTag(s, from);
            var cut := CutAt(s, at, f);
            var done := if cut < f then f + Value(s[cut..f]) else at;
            && done <= |s|
            && (Rest(s, at, from) == ScriptRest(s, at, from) <==> Rest(s, done, f + 1) == ScriptRest(s, done, f + 1))
  {
    hide *;
    var f := NextTag(s, from);
    var cut := CutAt(s, at, f);
    Unfolded(s, at, from);
    ScriptUnfolded(s, at, from);
    if cut < f {
      TakesMore(s, cut, f);
      SameDone(s, at, cut, f);
      var done := Done(s, at, f, cut);
      Cancelled(s[at..cut] + TAG, Rest(s, done, f + 1), ScriptRest(s, done, f + 1));
    }
  }

  lemma DivergesUnfolded(s: string, at: nat, from: nat)
    requires at <= |s| && from <= |s| && NextTag(s, from) < |s|
    ensures var f := NextTag(s, from);
            var run := RunStart(s, 0, f);
            var cut := FirstFit(s, run, f);
            Diverges(s, at, from) <==>
              if run < at then Taken(s, at, f) || Diverges(s, at, f + 1)
              else Wraps(s, run, f) || Diverges(s, if cut < f then f + Value(s[cut..f]) else at, f + 1)
  {
    hide TagAt, RunStart, FirstFit, NextTag, Accepts, Wraps, Taken;
  }

  lemma {:induction false} AgreeFrom(s: string, at: nat, from: nat)
    requires at <= |s| < SIZE && from <= |s|
    ensures Rest(s, at, from) == ScriptRest(s, at, from) <==> !Diverges(s, at, from)
    decreases |s| - from
  {
    hide *;
    var f := NextTag(s, from);
    if f == |s| {
      ScriptEnded(s, at, from);
    } else {
      DivergesUnfolded(s, at, from);
      var run := RunStart(s, 0, f);
      if run < at {
        PassedTag(s, at, from);
        AgreeFrom(s, at, f + 1);
      } else {
        OtherTag(s, at, from);
        var cut := FirstFit(s, run, f);
        AgreeFrom(s, if cut < f then f + Value(s[cut..f]) else at, f + 1);
      }
    }
  }

  /** The bench and the script normalize a name alike if and only if nothing along the scan makes them diverge: digits
      that straddle the end of a replaced name, or a number whose sum with its place wraps. */
  lemma AgreeIff(s: string)
    requires |s| < SIZE
    ensures Normalized(s) == Scripted(s) <==> !Diverges(s, 0, 0)
  {
    AgreeFrom(s, 0, 0);
  }

  // Two tagged names in a row, the first ending in a digit: eleven characters, directly before the length of the second.
  ghost predicate InARow(s: string) {
    && |s| == 25 && Digits(s[0..2]) && Value(s[0..2]) == 11 && TagAt(s, 2)
    && Digits(s[12..15]) && Digits(s[13..15]) && Value(s[13..15]) == 10 && TagAt(s, 15)
  }

  // A tag holds no digit, so the two are all.
  lemma RowTag(s: string, i: nat)
    requires InARow(s) && i < 15 && i != 2
    ensures !TagAt(s, i)
  {
    hide Value;
    var p := if i < 2 then i else if i < 12 then 12 else i;
    if i < 2 { assert s[p] == s[0..2][p]; } else { assert s[p] == s[12..15][p - 12]; }
    assert s[i..i + 10][p - i] == s[p];
  }

  lemma RowRuns(s: string)
    requires InARow(s)
    ensures NextTag(s, 0) == 2 && NextTag(s, 3) == 15
    ensures RunStart(s, 0, 2) == 0 && RunStart(s, 0, 15) == 12
  {
    hide Value;
    forall i {:trigger TagAt(s, i)} | 0 <= i < 15 && i != 2 ensures !TagAt(s, i) { RowTag(s, i); }
    SkipTo(s, 0, 2);
    SkipTo(s, 3, 15);
    assert forall i | 0 <= i < 2 :: s[i] == s[0..2][i];
    assert forall i | 12 <= i < 15 :: s[i] == s[12..15][i - 12];
    assert s[11] == s[2..12][9];
    RunIs(s, 0, 2);
    RunIs(s, 12, 15);
  }

  /** Names on which they differ: the bench replaces both tagged names and the script the first only. */
  lemma RowDiffers(s: string)
    requires InARow(s)
    ensures Normalized(s) != Scripted(s)
  {
    RowRuns(s);
    assert Accepts(s, 13, 15);
    assert Taken(s, 13, 15);
    assert FirstFit(s, 0, 2) == 0;
    hide *;
    DivergesUnfolded(s, 13, 3);
    DivergesUnfolded(s, 0, 0);
    AgreeIff(s);
  }

  /** There is one. */
  lemma RowExample()
    ensures InARow(Decimal(11) + TAG + Decimal(0) + Decimal(10) + TAG)
  {
    var a, b, c := Decimal(11), Decimal(0), Decimal(10);
    var s := a + TAG + b + c + TAG;
    assert |a| == 2 && |b| == 1 && |c| == 2;
    assert s[0..2] == a && s[2..12] == TAG && s[12..15] == b + c && s[13..15] == c && s[15..25] == TAG;
  }

  /** And a number close to 2^64 before a tag, straddling nothing, on which they differ too. */
  lemma OverlongDiffers()
    ensures var s := Decimal(SIZE - 1) + TAG; Normalized(s) != Scripted(s)
  {
    var digits := Decimal(SIZE - 1);
    var s, f := digits + TAG, |digits|;
    NumberAndTag(digits);
    LengthBelow(digits);
    assert !Fits(s, 0, f);
    assert WrapsAt(s, 0, f) && 0 < FirstFit(s, 0, f);
    hide *;
    DivergesUnfolded(s, 0, 0);
    AgreeIff(s);
  }

  lemma LengthBelow(digits: string)
    requires digits == Decimal(SIZE - 1)
    ensures |digits + TAG| < SIZE
  {
    assert Power(8) == 100000000;
    assert Power(16) == 10000000000000000;
    assert Power(20) == 100000000000000000000;
    hide Power;
    DecimalLength(SIZE - 1, 20);
  }
}
