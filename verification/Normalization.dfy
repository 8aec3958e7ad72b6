/** Normalizing a mangled name (benchmarks/ggml_vmm_bench.cc, Normalize): a length-prefixed namespace name the compiler
    made for one translation unit becomes the bare tag. */
module Normalization {
  import opened Results

  const TAG := "_INTERNAL_"

  /** Numbers are std::size_t: 64 bits, and sums wrap. */
  const SIZE := 0x1_0000_0000_0000_0000

  // ------------------------------------------------------------------------------ the parts

  predicate TagAt(s: string, i: nat) {
    i + |TAG| <= |s| && s[i..i + |TAG|] == TAG
  }

  /** The first tag at or after a place, or the name's end. */
  function NextTag(s: string, from: nat): (f: nat)
    requires from <= |s|
    ensures from <= f <= |s| && (f == |s| || TagAt(s, f))
    ensures forall i {:trigger TagAt(s, i)} | from <= i < f :: !TagAt(s, i)
    decreases |s| - from
  {
    if from == |s| || TagAt(s, from) then from else NextTag(s, from + 1)
  }

  predicate Digit(c: char) {
    '0' <= c <= '9'
  }

  predicate Digits(s: string) {
    forall i | 0 <= i < |s| :: Digit(s[i])
  }

  /** What decimal digits stand for. */
  function Value(s: string): nat
    requires Digits(s)
  {
    if s == [] then 0 else 10 * Value(s[..|s| - 1]) + (s[|s| - 1] - '0') as nat
  }

  /** std::from_chars into a std::size_t: digits only, and in range. */
  function Number(s: string): Option<nat> {
    if s != [] && Digits(s) && Value(s) < SIZE then Some(Value(s)) else None
  }

  /** The first digit of the digits that end before a tag, looking no further back than a place. */
  function RunStart(s: string, at: nat, f: nat): (d: nat)
    requires f <= |s|
    ensures d <= f && Digits(s[d..f]) && (at <= d || d == f)
    ensures d == f || d == at || !Digit(s[d - 1])
    decreases f
  {
    if at < f && Digit(s[f - 1]) then
      var d := RunStart(s, at, f - 1);
      assert s[d..f] == s[d..f - 1] + [s[f - 1]];
      d
    else f
  }

  function Wrapped(a: nat, b: nat): nat {
    (a + b) % SIZE
  }

  /** Whether the number from a cut to a tag is taken for the length of the name the tag starts. */
  predicate Accepts(s: string, cut: nat, f: nat)
    requires cut <= f <= |s|
  {
    var n := Number(s[cut..f]);
    n.Some? && |TAG| <= n.value && Wrapped(f, n.value) <= |s|
  }

  function FirstCut(s: string, cut: nat, f: nat): (c: nat)
    requires cut <= f <= |s|
    ensures cut <= c <= f && (c < f ==> Accepts(s, c, f))
    ensures forall k {:trigger Accepts(s, k, f)} | cut <= k < c :: !Accepts(s, k, f)
    decreases f - cut
  {
    if cut == f || Accepts(s, cut, f) then cut else FirstCut(s, cut + 1, f)
  }

  /** The first cut, in the digits before a tag back to a place, that is taken for a length; the tag if there is none. */
  function CutAt(s: string, at: nat, f: nat): (c: nat)
    requires f <= |s|
    ensures c <= f && (c < f ==> at <= c && Accepts(s, c, f))
  {
    FirstCut(s, RunStart(s, at, f), f)
  }

  // What one tag adds to the output, and where the name is then done up to.
  function Emitted(s: string, at: nat, f: nat, cut: nat): string
    requires at <= |s| && cut <= f <= |s| && (cut < f ==> at <= cut)
  {
    if cut < f then s[at..cut] + TAG else ""
  }

  function Done(s: string, at: nat, f: nat, cut: nat): (done: nat)
    requires at <= |s| && cut <= f <= |s| && (cut < f ==> Accepts(s, cut, f))
    ensures done <= |s|
  {
    if cut < f then Wrapped(f, Number(s[cut..f]).value) else at
  }

  /** The rest of the output, once the name up to `at` is done and the next tag is sought from `from`. */
  function Rest(s: string, at: nat, from: nat): string
    requires at <= |s| && from <= |s|
    decreases |s| - from
  {
    var f := NextTag(s, from);
    if f == |s| then s[at..]
    else
      var cut := CutAt(s, at, f);
      Emitted(s, at, f, cut) + Rest(s, Done(s, at, f, cut), f + 1)
  }

  function Normalized(s: string): string {
    Rest(s, 0, 0)
  }

  // ------------------------------------------------------------------------------- the scan

  // One tag.
  lemma Stepped(s: string, at: nat, from: nat)
    requires at <= |s| && from <= |s|
    ensures var f := NextTag(s, from);
            var cut := CutAt(s, at, f);
            Rest(s, at, from) == if f == |s| then s[at..] else Emitted(s, at, f, cut) + Rest(s, Done(s, at, f, cut), f + 1)
  {
    hide TagAt, CutAt, NextTag, Emitted, Done, Accepts;
  }

  lemma FoundAgain(s: string, from: nat)
    requires from <= |s|
    ensures NextTag(s, NextTag(s, from)) == NextTag(s, from)
  {
    assert NextTag(s, |s|) == |s|;
  }

  // Seeking the next tag from where it was found finds it again.
  lemma Sought(s: string, at: nat, from: nat)
    requires at <= |s| && from <= |s|
    ensures Rest(s, at, NextTag(s, from)) == Rest(s, at, from)
  {
    hide *;
    FoundAgain(s, from);
    Stepped(s, at, from);
    Stepped(s, at, NextTag(s, from));
  }

  // What one tag changes, as it is written.
  lemma OneTag(s: string, at: nat, f: nat, cut: nat, out: string, rest: string)
    requires at <= |s| && cut <= f <= |s| && (cut < f ==> at <= cut && Accepts(s, cut, f))
    ensures cut < f ==> Number(s[cut..f]).Some?
    ensures cut < f ==> Done(s, at, f, cut) == Wrapped(f, Number(s[cut..f]).value)
    ensures cut < f ==> out + (Emitted(s, at, f, cut) + rest) == out + s[at..cut] + TAG + rest
    ensures cut == f ==> Done(s, at, f, cut) == at && out + (Emitted(s, at, f, cut) + rest) == out + rest
  {
  }

  lemma AsRest(s: string)
    ensures Normalized(s) == Rest(s, 0, 0)
  {
  }

  /** Back over the digits before a tag, then forward to the first cut that is taken for a length. */
  method CutBefore(s: string, at: nat, found: nat) returns (cut: nat)
    requires at <= |s| && found <= |s|
    ensures cut == CutAt(s, at, found)
  {
    var digits: nat := found;
    while at < digits && Digit(s[digits - 1])
      invariant digits <= found && RunStart(s, at, found) == RunStart(s, at, digits)
    {
      digits := digits - 1;
    }
    cut := digits;
    while cut < found && !Accepts(s, cut, found)
      invariant digits <= cut <= found && FirstCut(s, digits, found) == FirstCut(s, cut, found)
    {
      cut := cut + 1;
    }
  }

  /** The scan over the tags. */
  method Normalize(s: string) returns (out: string)
    requires |s| < SIZE
    ensures out == Normalized(s)
  {
    hide *;
    out := "";
    var at: nat, found: nat := 0, NextTag(s, 0);
    AsRest(s);
    Sought(s, 0, 0);
    FoundAgain(s, 0);
    while found < |s|
      invariant at <= |s| && found <= |s| && NextTag(s, found) == found
      invariant Normalized(s) == out + Rest(s, at, found)
      decreases |s| - found
    {
      Stepped(s, at, found);
      FoundAgain(s, found + 1);
      var cut := CutBefore(s, at, found);
      ghost var done := Done(s, at, found, cut);
      Sought(s, done, found + 1);
      OneTag(s, at, found, cut, out, Rest(s, done, found + 1));
      if cut < found {
        out := out + s[at..cut] + TAG;
        at := Wrapped(found, Number(s[cut..found]).value);
      }
      found := NextTag(s, found + 1);
    }
    Stepped(s, at, found);
    out := out + s[at..];
  }

  // -------------------------------------------------------------------- normalizing composes

  /** When a number is taken for a length: when the tagged name ends within the name, and also when the sum of the
      tag's place and the length wraps. */
  lemma AcceptsIff(s: string, cut: nat, f: nat)
    requires cut < f <= |s| < SIZE && Digits(s[cut..f])
    ensures var n := Value(s[cut..f]);
            Accepts(s, cut, f) <==> |TAG| <= n < SIZE && (f + n <= |s| || SIZE <= f + n)
  {
  }

  // Tags before the place the name is done up to are passed by: the tagged name they are in is replaced as a whole.
  lemma {:induction false} PassedBy(s: string, at: nat, from: nat)
    requires from <= at <= |s|
    ensures Rest(s, at, from) == Rest(s, at, at)
    decreases at - from
  {
    hide *;
    var f := NextTag(s, from);
    if f < at {
      Stepped(s, at, from);
      NoCut(s, at, f);
      PassedBy(s, at, f + 1);
    } else {
      SameNext(s, from, at);
      Sought(s, at, at);
      Sought(s, at, from);
    }
  }

  lemma NoCut(s: string, at: nat, f: nat)
    requires f <= at <= |s|
    ensures CutAt(s, at, f) == f && Emitted(s, at, f, f) == "" && Done(s, at, f, f) == at
    ensures forall rest: string :: Emitted(s, at, f, f) + rest == rest
  {
    assert RunStart(s, at, f) == f;
    assert FirstCut(s, f, f) == f;
  }

  lemma {:induction false} SameNext(s: string, from: nat, at: nat)
    requires from <= |s| && from <= at <= NextTag(s, from)
    ensures NextTag(s, from) == NextTag(s, at)
    decreases at - from
  {
    if from < at { SameNext(s, from + 1, at); }
  }

  lemma TagShift(x: string, s: string, i: nat)
    ensures TagAt(x + s, |x| + i) == TagAt(s, i)
  {
    if i + |TAG| <= |s| { assert (x + s)[|x| + i..|x| + i + |TAG|] == s[i..i + |TAG|]; }
  }

  lemma {:induction false} NextShift(x: string, s: string, from: nat)
    requires from <= |s|
    ensures NextTag(x + s, |x| + from) == |x| + NextTag(s, from)
    decreases |s| - from
  {
    TagShift(x, s, from);
    if from < |s| && !TagAt(s, from) { NextShift(x, s, from + 1); }
  }

  lemma {:induction false} RunShift(x: string, s: string, at: nat, f: nat)
    requires f <= |s|
    ensures RunStart(x + s, |x| + at, |x| + f) == |x| + RunStart(s, at, f)
    decreases f
  {
    hide Digits, Digit;
    assert f == 0 || (x + s)[|x| + f - 1] == s[f - 1];
    if at < f && Digit(s[f - 1]) { RunShift(x, s, at, f - 1); }
  }

  /** Text before a name carries a number before a tag past what a std::size_t holds: the sum with the tag's place stays
      below it in the name alone, and wraps behind the text. */
  ghost predicate Carries(s: string, text: nat, cut: nat, f: nat)
    requires cut <= f <= |s|
  {
    cut < f && Digits(s[cut..f]) && SIZE <= text + f + Value(s[cut..f]) < SIZE + text
  }

  // Behind text a number is taken that is taken alone, or that the text carries; and nothing is both.
  lemma AcceptShift(x: string, s: string, cut: nat, f: nat)
    requires cut < f <= |s| && TagAt(s, f) && |x| + |s| < SIZE
    ensures Accepts(x + s, |x| + cut, |x| + f) <==> Accepts(s, cut, f) || Carries(s, |x|, cut, f)
    ensures !(Accepts(s, cut, f) && Carries(s, |x|, cut, f))
  {
    assert (x + s)[|x| + cut..|x| + f] == s[cut..f];
    if Digits(s[cut..f]) {
      hide Accepts, Value;
      AcceptsIff(s, cut, f);
      AcceptsIff(x + s, |x| + cut, |x| + f);
    }
  }

  // One of the numbers before a tag, from one cut up to another, is carried.
  ghost predicate CarriesOne(s: string, text: nat, cut: nat, end: nat, f: nat)
    requires end <= f <= |s|
  {
    exists c: nat :: cut <= c < end && Carries(s, text, c, f)
  }

  lemma {:induction false} CutShift(x: string, s: string, cut: nat, f: nat)
    requires cut <= f <= |s| && TagAt(s, f) && |x| + |s| < SIZE
    ensures FirstCut(x + s, |x| + cut, |x| + f) <= |x| + FirstCut(s, cut, f)
    ensures FirstCut(x + s, |x| + cut, |x| + f) < |x| + FirstCut(s, cut, f)
            <==> CarriesOne(s, |x|, cut, FirstCut(s, cut, f), f)
    decreases f - cut
  {
    hide Accepts, TagAt, Carries;
    if cut < f {
      AcceptShift(x, s, cut, f);
      if !Accepts(s, cut, f) && !Carries(s, |x|, cut, f) { CutShift(x, s, cut + 1, f); }
    }
  }

  lemma CutAtShift(x: string, s: string, at: nat, f: nat)
    requires at <= |s| && f < |s| && TagAt(s, f) && |x| + |s| < SIZE
    ensures CutAt(x + s, |x| + at, |x| + f) <= |x| + CutAt(s, at, f)
    ensures CutAt(x + s, |x| + at, |x| + f) < |x| + CutAt(s, at, f)
            <==> CarriesOne(s, |x|, RunStart(s, at, f), CutAt(s, at, f), f)
  {
    RunShift(x, s, at, f);
    CutShift(x, s, RunStart(s, at, f), f);
    hide RunStart, FirstCut, TagAt, Accepts, CarriesOne;
  }

  lemma EmittedShift(x: string, s: string, at: nat, f: nat, cut: nat)
    requires at <= |s| && cut <= f < |s| && (cut < f ==> at <= cut)
    ensures Emitted(x + s, |x| + at, |x| + f, |x| + cut) == Emitted(s, at, f, cut)
  {
    if cut < f { assert (x + s)[|x| + at..|x| + cut] == s[at..cut]; }
  }

  lemma DoneShift(x: string, s: string, at: nat, cut: nat, f: nat)
    requires at <= |s| && cut <= f <= |s| && TagAt(s, f) && |x| + |s| < SIZE
    requires cut < f ==> Accepts(s, cut, f) && Accepts(x + s, |x| + cut, |x| + f)
    ensures Done(x + s, |x| + at, |x| + f, |x| + cut) == |x| + Done(s, at, f, cut)
  {
    if cut < f {
      assert (x + s)[|x| + cut..|x| + f] == s[cut..f];
      AcceptShift(x, s, cut, f);
      AcceptsIff(s, cut, f);
      hide Value;
    }
  }

  // What a tag puts out.
  lemma Unfolded(s: string, at: nat, from: nat)
    requires at <= |s| && from <= |s| && NextTag(s, from) < |s|
    ensures var f := NextTag(s, from);
            var cut := CutAt(s, at, f);
            Rest(s, at, from) == if cut < f then s[at..cut] + TAG + Rest(s, Done(s, at, f, cut), f + 1)
                                 else Rest(s, at, f + 1)
  {
    var f := NextTag(s, from);
    var cut := CutAt(s, at, f);
    Stepped(s, at, from);
    hide TagAt, CutAt, NextTag, Rest, Accepts, Number, Wrapped;
    assert cut == f ==> "" + Rest(s, at, f + 1) == Rest(s, at, f + 1);
  }

  lemma Cancelled<T>(a: seq<T>, b: seq<T>, c: seq<T>)
    ensures a + b == a + c <==> b == c
  {
    assert (a + b)[|a|..] == b && (a + c)[|a|..] == c;
  }

  lemma TagNotDigit(s: string, f: nat)
    requires f < |s| && TagAt(s, f)
    ensures !Digit(s[f]) && !Digit(TAG[0])
  {
    assert s[f] == s[f..f + |TAG|][0];
  }

  lemma CutDigit(s: string, cut: nat, f: nat)
    requires cut < f <= |s| && Digits(s[cut..f])
    ensures Digit(s[cut])
  {
    assert s[cut] == s[cut..f][0];
  }

  lemma RunAfter(s: string, at: nat, p: nat, f: nat)
    requires p < f <= |s| && !Digit(s[p])
    ensures p < RunStart(s, at, f)
  {
    var run := RunStart(s, at, f);
    assert forall i | run <= i < f :: s[run..f][i - run] == s[i];
  }

  // A place with something that is no digit between it and where tags are sought comes out as it is.
  lemma {:induction false} Kept(s: string, at: nat, from: nat, c: nat, p: nat)
    requires at <= c <= p < from <= |s| && !Digit(s[p])
    ensures c - at < |Rest(s, at, from)| && Rest(s, at, from)[c - at] == s[c]
    decreases |s| - from
  {
    hide *;
    var f := NextTag(s, from);
    if f == |s| {
      Stepped(s, at, from);
    } else {
      Unfolded(s, at, from);
      RunAfter(s, at, p, f);
      CutAfter(s, at, f);
      if CutAt(s, at, f) == f { Kept(s, at, f + 1, c, p); }
    }
  }

  lemma CutAfter(s: string, at: nat, f: nat)
    requires f <= |s|
    ensures RunStart(s, at, f) <= CutAt(s, at, f)
  {
  }

  // Before the cut at a tag, digits come out as they are.
  lemma KeptDigit(s: string, at: nat, from: nat, c: nat)
    requires from <= |s| && NextTag(s, from) < |s|
    requires at <= c < CutAt(s, at, NextTag(s, from))
    ensures c - at < |Rest(s, at, from)| && Rest(s, at, from)[c - at] == s[c]
  {
    hide *;
    var f := NextTag(s, from);
    TagNotDigit(s, f);
    Unfolded(s, at, from);
    if CutAt(s, at, f) == f { Kept(s, at, f + 1, c, f); }
  }

  // A number behind text that is taken earlier than in the name alone puts a tag in the place of a digit.
  lemma Displaces(x: string, s: string, at: nat, from: nat)
    requires at <= |s| && from <= |s| && |x| + |s| < SIZE && NextTag(s, from) < |s|
    requires CutAt(x + s, |x| + at, |x| + NextTag(s, from)) < |x| + CutAt(s, at, NextTag(s, from))
    ensures Rest(x + s, |x| + at, |x| + from) != Rest(s, at, from)
  {
    hide *;
    var f := NextTag(s, from);
    var cut := CutAt(x + s, |x| + at, |x| + f) - |x|;
    TakenDigit(x, s, at, cut, f);
    KeptDigit(s, at, from, cut);
    NextShift(x, s, from);
    TagComesOut(x + s, |x| + at, |x| + from);
  }

  // At a cut the tag comes out.
  lemma TagComesOut(s: string, at: nat, from: nat)
    requires at <= |s| && from <= |s| && NextTag(s, from) < |s| && at <= CutAt(s, at, NextTag(s, from)) < NextTag(s, from)
    ensures var place := CutAt(s, at, NextTag(s, from)) - at;
            place < |Rest(s, at, from)| && !Digit(Rest(s, at, from)[place])
  {
    hide *;
    var f := NextTag(s, from);
    var cut := CutAt(s, at, f);
    Unfolded(s, at, from);
    TagThere(s[at..cut], Rest(s, Done(s, at, f, cut), f + 1));
  }

  lemma TagThere(text: string, rest: string)
    ensures |text| < |text + TAG + rest| && !Digit((text + TAG + rest)[|text|])
  {
    assert (text + TAG + rest)[|text|] == TAG[0];
  }

  lemma TakenDigit(x: string, s: string, at: nat, cut: int, f: nat)
    requires at <= |s| && f < |s| && TagAt(s, f) && |x| + cut == CutAt(x + s, |x| + at, |x| + f) < |x| + f
    ensures at <= cut < f && Digit(s[cut])
  {
    var c: nat := |x| + cut;
    assert Accepts(x + s, c, |x| + f);
    CutDigit(x + s, c, |x| + f);
  }

  /** Along the scan of a name, text before it carries a number that would be taken before the one that is. */
  ghost predicate Displaced(s: string, text: nat, at: nat, from: nat)
    requires at <= |s| && from <= |s|
    decreases |s| - from
  {
    var f := NextTag(s, from);
    if f == |s| then false
    else
      var cut := CutAt(s, at, f);
      CarriesOne(s, text, RunStart(s, at, f), cut, f) || Displaced(s, text, Done(s, at, f, cut), f + 1)
  }

  lemma DisplacedUnfolded(s: string, text: nat, at: nat, from: nat)
    requires at <= |s| && from <= |s|
    ensures var f := NextTag(s, from);
            var cut := CutAt(s, at, f);
            Displaced(s, text, at, from) <==>
              f < |s| && (CarriesOne(s, text, RunStart(s, at, f), cut, f) || Displaced(s, text, Done(s, at, f, cut), f + 1))
  {
    hide NextTag, CutAt, RunStart, Done, CarriesOne, TagAt, Accepts;
  }

  /** What is left of a name behind text normalizes as it would alone, if and only if the text displaces nothing. */
  lemma {:induction false} RestShift(x: string, s: string, at: nat, from: nat)
    requires at <= |s| && from <= |s| && |x| + |s| < SIZE
    ensures Rest(x + s, |x| + at, |x| + from) == Rest(s, at, from) <==> !Displaced(s, |x|, at, from)
    decreases |s| - from
  {
    hide *;
    var f := NextTag(s, from);
    NextShift(x, s, from);
    DisplacedUnfolded(s, |x|, at, from);
    if f == |s| {
      Stepped(s, at, from);
      Stepped(x + s, |x| + at, |x| + from);
      assert (x + s)[|x| + at..] == s[at..];
    } else {
      CutAtShift(x, s, at, f);
      if CutAt(x + s, |x| + at, |x| + f) < |x| + CutAt(s, at, f) {
        Displaces(x, s, at, from);
      } else {
        SameStep(x, s, at, from);
        RestShift(x, s, Done(s, at, f, CutAt(s, at, f)), f + 1);
      }
    }
  }

  lemma SameStep(x: string, s: string, at: nat, from: nat)
    requires at <= |s| && from <= |s| && |x| + |s| < SIZE && NextTag(s, from) < |s|
    requires CutAt(x + s, |x| + at, |x| + NextTag(s, from)) == |x| + CutAt(s, at, NextTag(s, from))
    ensures var f := NextTag(s, from);
            var done := Done(s, at, f, CutAt(s, at, f));
            Rest(x + s, |x| + at, |x| + from) == Rest(s, at, from)
            <==> Rest(x + s, |x| + done, |x| + (f + 1)) == Rest(s, done, f + 1)
  {
    hide *;
    var f := NextTag(s, from);
    var cut := CutAt(s, at, f);
    var done := Done(s, at, f, cut);
    NextShift(x, s, from);
    Stepped(s, at, from);
    Stepped(x + s, |x| + at, |x| + from);
    DoneShift(x, s, at, cut, f);
    EmittedShift(x, s, at, f, cut);
    Cancelled(Emitted(s, at, f, cut), Rest(x + s, |x| + done, |x| + (f + 1)), Rest(s, done, f + 1));
  }

  /** Digits that give the length of the tagged name after them. */
  ghost predicate Tagged(digits: string, body: string) {
    digits != [] && Digits(digits) && Value(digits) == |body| && TagAt(body, 0)
  }

  /** Text without a tag that does not end in a digit. */
  ghost predicate Plain(pre: string) {
    (forall i {:trigger TagAt(pre, i)} :: 0 <= i ==> !TagAt(pre, i)) && (pre == [] || !Digit(pre[|pre| - 1]))
  }

  lemma {:induction false} SkipTo(s: string, from: nat, f: nat)
    requires from <= f < |s| && TagAt(s, f) && forall i {:trigger TagAt(s, i)} | from <= i < f :: !TagAt(s, i)
    ensures NextTag(s, from) == f
    decreases f - from
  {
    if from < f { SkipTo(s, from + 1, f); }
  }

  lemma {:induction false} RunIs(s: string, d: nat, f: nat)
    requires d <= f <= |s| && (forall i | d <= i < f :: Digit(s[i])) && (d == 0 || !Digit(s[d - 1]))
    ensures RunStart(s, 0, f) == d
    decreases f
  {
    if d < f { RunIs(s, d, f - 1); }
  }

  // A tag holds no digit, so no tag reaches into the length before a tagged name.
  lemma NoTagBefore(pre: string, digits: string, rest: string, i: nat)
    requires Plain(pre) && digits != [] && Digits(digits) && i < |pre| + |digits|
    ensures !TagAt(pre + digits + rest, i)
  {
    var s := pre + digits + rest;
    if i + |TAG| <= |pre| {
      assert s[i..i + |TAG|] == pre[i..i + |TAG|];
      assert TagAt(s, i) == TagAt(pre, i);
    } else if i + |TAG| <= |s| {
      var p := if i < |pre| then |pre| else i;
      assert s[p] == digits[p - |pre|];
      assert s[i..i + |TAG|][p - i] == s[p];
    }
  }

  // The first tag of a name that starts with plain text and a tagged name.
  lemma FirstTag(pre: string, digits: string, body: string, post: string)
    requires Plain(pre) && Tagged(digits, body)
    ensures var s, f := pre + digits + body + post, |pre| + |digits|; NextTag(s, 0) == f < |s| && TagAt(s, f)
  {
    var s, f := pre + digits + body + post, |pre| + |digits|;
    assert s == pre + digits + (body + post);
    assert s[f..f + |TAG|] == body[0..|TAG|];
    forall i {:trigger TagAt(s, i)} | 0 <= i < f ensures !TagAt(s, i) { NoTagBefore(pre, digits, body + post, i); }
    hide Plain, Digits;
    SkipTo(s, 0, f);
  }

  // What it replaces.
  lemma FirstReplaced(pre: string, digits: string, body: string, post: string)
    requires Plain(pre) && Tagged(digits, body) && |pre + digits + body + post| < SIZE
    ensures var s, f := pre + digits + body + post, |pre| + |digits|;
            CutAt(s, 0, f) == |pre| < f && Accepts(s, |pre|, f)
  {
    var s, f := pre + digits + body + post, |pre| + |digits|;
    FirstRun(pre, digits, body + post);
    assert s == pre + digits + (body + post);
    assert s[|pre|..f] == digits;
    hide Plain, Digits, RunStart;
    assert Accepts(s, |pre|, f);
  }

  lemma FirstRun(pre: string, digits: string, rest: string)
    requires Plain(pre) && Digits(digits)
    ensures RunStart(pre + digits + rest, 0, |pre| + |digits|) == |pre|
  {
    var s, f := pre + digits + rest, |pre| + |digits|;
    assert forall i | |pre| <= i < f :: s[i] == digits[i - |pre|];
    RunIs(s, |pre|, f);
  }

  lemma FirstDone(pre: string, digits: string, body: string, post: string)
    requires Tagged(digits, body) && |pre + digits + body + post| < SIZE
    requires Accepts(pre + digits + body + post, |pre|, |pre| + |digits|)
    ensures var s, f := pre + digits + body + post, |pre| + |digits|;
            Emitted(s, 0, f, |pre|) == pre + TAG && Done(s, 0, f, |pre|) == f + |body|
  {
    var s, f := pre + digits + body + post, |pre| + |digits|;
    assert s[|pre|..f] == digits && s[0..|pre|] == pre;
  }

  // A name whose first tag is replaced: where the tag and the cut are, where the tagged name ends, and what comes out.
  ghost predicate Leads(s: string, f: nat, cut: nat, e: nat, text: string) {
    && f < e <= |s| && NextTag(s, 0) == f && TagAt(s, f) && CutAt(s, 0, f) == cut < f
    && Emitted(s, 0, f, cut) == text && Done(s, 0, f, cut) == e
  }

  lemma TaggedLeads(pre: string, digits: string, body: string, post: string)
    requires Plain(pre) && Tagged(digits, body) && |pre + digits + body + post| < SIZE
    ensures Leads(pre + digits + body + post, |pre| + |digits|, |pre|, |pre + digits + body|, pre + TAG)
  {
    assert |TAG| <= |body|;
    FirstTag(pre, digits, body, post);
    FirstReplaced(pre, digits, body, post);
    FirstDone(pre, digits, body, post);
    hide Accepts, TagAt, CutAt, NextTag, Emitted, Done, Plain, Tagged;
  }

  // Once the first tagged name is replaced, only what is after it is left to scan.
  lemma AfterFirst(s: string, f: nat, cut: nat, e: nat, text: string)
    requires Leads(s, f, cut, e, text)
    ensures Normalized(s) == text + Rest(s, e, e)
  {
    hide Accepts, TagAt, CutAt, NextTag, Rest, Emitted, Done;
    Stepped(s, 0, 0);
    PassedBy(s, e, f + 1);
  }

  lemma AfterLead(x: string, post: string, f: nat, cut: nat, text: string)
    requires Leads(x + post, f, cut, |x|, text) && |x| + |post| < SIZE
    ensures Normalized(x + post) == text + Normalized(post) <==> !Displaced(post, |x|, 0, 0)
  {
    hide *;
    AfterFirst(x + post, f, cut, |x|, text);
    RestShift(x, post, 0, 0);
    AsRest(post);
    Cancelled(text, Rest(x + post, |x|, |x|), Normalized(post));
  }

  /** When normalizing composes. Whatever the tagged name holds after its tag, further tags and digits among it, the name
      after it normalizes as it would alone, if and only if what is before it displaces nothing there. */
  lemma ComposesIff(pre: string, digits: string, body: string, post: string)
    requires Plain(pre) && Tagged(digits, body) && |pre + digits + body + post| < SIZE
    ensures Normalized(pre + digits + body + post) == pre + TAG + Normalized(post)
            <==> !Displaced(post, |pre + digits + body|, 0, 0)
  {
    hide *;
    TaggedLeads(pre, digits, body, post);
    AfterLead(pre + digits + body, post, |pre| + |digits|, |pre|, pre + TAG);
  }

  /** No number before a tag is so large that its sum with a place in a longer name could wrap. */
  ghost predicate Short(s: string, size: nat) {
    forall cut: nat, f: nat {:trigger TagAt(s, f), s[cut..f]} |
      cut < f <= |s| && TagAt(s, f) && Digits(s[cut..f]) && Value(s[cut..f]) < SIZE :: size + Value(s[cut..f]) < SIZE
  }

  lemma {:induction false} ShortNotDisplaced(s: string, text: nat, at: nat, from: nat)
    requires at <= |s| && from <= |s| && Short(s, text + |s|)
    ensures !Displaced(s, text, at, from)
    decreases |s| - from
  {
    hide *;
    DisplacedUnfolded(s, text, at, from);
    var f := NextTag(s, from);
    if f < |s| {
      var cut := CutAt(s, at, f);
      ShortCarriesNone(s, text, RunStart(s, at, f), cut, f);
      ShortNotDisplaced(s, text, Done(s, at, f, cut), f + 1);
    }
  }

  lemma ShortCarriesNone(s: string, text: nat, cut: nat, end: nat, f: nat)
    requires end <= f <= |s| && TagAt(s, f) && Short(s, text + |s|)
    ensures !CarriesOne(s, text, cut, end, f)
  {
    hide Value, TagAt;
    forall c: nat | c < f ensures !Carries(s, text, c, f) {
      var digits := s[c..f];
    }
  }

  /** So it composes in every name without such a number after the tagged name. */
  lemma Composes(pre: string, digits: string, body: string, post: string)
    requires Plain(pre) && Tagged(digits, body) && |pre + digits + body + post| < SIZE
    requires Short(post, |pre + digits + body + post|)
    ensures Normalized(pre + digits + body + post) == pre + TAG + Normalized(post)
  {
    hide *;
    ComposesIff(pre, digits, body, post);
    ShortNotDisplaced(post, |pre + digits + body|, 0, 0);
  }

  // ------------------------------------------------------------ names that differ in a tagged name

  /** The first cut before a tag that is taken for a length alone or that text of some length before the name carries. */
  ghost function CutBehind(s: string, text: nat, cut: nat, f: nat): (c: nat)
    requires cut <= f <= |s|
    ensures cut <= c <= f
    ensures c < f ==> Accepts(s, c, f) || Carries(s, text, c, f)
    decreases f - cut
  {
    if cut == f || Accepts(s, cut, f) || Carries(s, text, cut, f) then cut else CutBehind(s, text, cut + 1, f)
  }

  lemma {:induction false} FirstCutBehind(x: string, s: string, cut: nat, f: nat)
    requires cut <= f <= |s| && TagAt(s, f) && |x| + |s| < SIZE
    ensures FirstCut(x + s, |x| + cut, |x| + f) == |x| + CutBehind(s, |x|, cut, f)
    decreases f - cut
  {
    hide Accepts, TagAt, Carries;
    if cut < f {
      AcceptShift(x, s, cut, f);
      if !Accepts(s, cut, f) && !Carries(s, |x|, cut, f) { FirstCutBehind(x, s, cut + 1, f); }
    }
  }

  lemma CutAtBehind(x: string, s: string, at: nat, f: nat)
    requires at <= |s| && f < |s| && TagAt(s, f) && |x| + |s| < SIZE
    ensures CutAt(x + s, |x| + at, |x| + f) == |x| + CutBehind(s, |x|, RunStart(s, at, f), f)
  {
    RunShift(x, s, at, f);
    FirstCutBehind(x, s, RunStart(s, at, f), f);
    hide RunStart, FirstCut, TagAt, Accepts, CutBehind;
  }

  /** How much of the text before a name is put out again once a number there is carried. */
  ghost function Again(s: string, cut: nat, f: nat): (l: int)
    requires cut <= f <= |s| && Digits(s[cut..f])
  {
    SIZE - f - Value(s[cut..f])
  }

  /** Along the scan of a name behind one text and behind another: a number is taken from another cut, or one that both
      carry puts out again ends of the texts that differ, or something of the kind comes later. */
  ghost predicate Differ(x: string, y: string, s: string, at: nat, from: nat)
    requires at <= |s| && from <= |s|
    decreases |s| - from
  {
    var f := NextTag(s, from);
    if f == |s| then false
    else
      var run := RunStart(s, at, f);
      var cut := CutBehind(s, |x|, run, f);
      if cut != CutBehind(s, |y|, run, f) then true
      else if cut == f || Accepts(s, cut, f) then Differ(x, y, s, Done(s, at, f, cut), f + 1)
      else
        var l := Again(s, cut, f);
        || Ends(x, l) != Ends(y, l)
        || Differ(x[..|x| - l], y[..|y| - l], Ends(x, l) + s, 0, l + f + 1)
  }

  /** The last characters of a text. */
  function Ends(x: string, l: nat): string
    requires l <= |x|
  {
    x[|x| - l..]
  }

  // At a tag: one case of the scan behind the two texts.
  lemma DifferUnfolded(x: string, y: string, s: string, at: nat, from: nat)
    requires at <= |s| && from <= |s| && NextTag(s, from) < |s|
    ensures var f := NextTag(s, from);
            var run := RunStart(s, at, f);
            var cut, cut' := CutBehind(s, |x|, run, f), CutBehind(s, |y|, run, f);
            && (cut != cut' ==> Differ(x, y, s, at, from))
            && (cut == cut' && (cut == f || Accepts(s, cut, f)) ==>
                  Differ(x, y, s, at, from) == Differ(x, y, s, Done(s, at, f, cut), f + 1))
            && (cut == cut' && cut < f && !Accepts(s, cut, f) ==>
                  var l := Again(s, cut, f);
                  && 0 < l <= |x| && l <= |y|
                  && Differ(x, y, s, at, from) ==
                     (Ends(x, l) != Ends(y, l) || Differ(x[..|x| - l], y[..|y| - l], Ends(x, l) + s, 0, l + f + 1)))
  {
    hide NextTag, RunStart, CutBehind, Done, TagAt, Accepts, Value;
  }

  // Behind text, a number that is taken alone too.
  lemma TakenBehind(x: string, s: string, at: nat, from: nat, cut: nat)
    requires at <= |s| && from <= |s| && |x| + |s| < SIZE && NextTag(s, from) < |s|
    requires cut == CutBehind(s, |x|, RunStart(s, at, NextTag(s, from)), NextTag(s, from))
    requires cut == NextTag(s, from) || Accepts(s, cut, NextTag(s, from))
    ensures var f := NextTag(s, from);
            && (cut < f ==> at <= cut)
            && Rest(x + s, |x| + at, |x| + from)
               == Emitted(s, at, f, cut) + Rest(x + s, |x| + Done(s, at, f, cut), |x| + (f + 1))
  {
    hide *;
    var f := NextTag(s, from);
    NextShift(x, s, from);
    CutAtBehind(x, s, at, f);
    Stepped(x + s, |x| + at, |x| + from);
    if cut < f { TakenDigit(x, s, at, cut, f); }
    DoneShift(x, s, at, cut, f);
    EmittedShift(x, s, at, f, cut);
  }

  // And one that the text carries: the scan goes on from a place in the text, which is put out again from there.
  lemma CarriedBehind(x: string, s: string, at: nat, from: nat, cut: nat, l: nat)
    requires at <= |s| && from <= |s| && |x| + |s| < SIZE && NextTag(s, from) < |s|
    requires cut == CutBehind(s, |x|, RunStart(s, at, NextTag(s, from)), NextTag(s, from)) < NextTag(s, from)
    requires !Accepts(s, cut, NextTag(s, from)) && Digits(s[cut..NextTag(s, from)])
    requires l == Again(s, cut, NextTag(s, from)) <= |x|
    ensures var f := NextTag(s, from);
            && at <= cut && x[..|x| - l] + (Ends(x, l) + s) == x + s
            && Rest(x + s, |x| + at, |x| + from) == s[at..cut] + TAG + Rest(x + s, |x| - l, |x| + (f + 1))
  {
    hide *;
    var f := NextTag(s, from);
    NextShift(x, s, from);
    CutAtBehind(x, s, at, f);
    TakenDigit(x, s, at, cut, f);
    CarriedDone(x, s, at, cut, f);
    Parted(x, s, l);
    SliceBehind(x, s, at, cut);
    PutOut(x + s, |x| + at, |x| + from, |x| + f, |x| + cut, |x| - l);
  }

  // One tag that puts out some text and a tag.
  lemma PutOut(s: string, at: nat, from: nat, f: nat, cut: nat, done: nat)
    requires at <= cut < f < |s| && from <= |s| && done <= |s|
    requires NextTag(s, from) == f && CutAt(s, at, f) == cut && Done(s, at, f, cut) == done
    ensures Rest(s, at, from) == s[at..cut] + TAG + Rest(s, done, f + 1)
  {
    hide *;
    Unfolded(s, at, from);
  }

  lemma SliceBehind(x: string, s: string, at: nat, cut: nat)
    requires at <= cut <= |s|
    ensures (x + s)[|x| + at..|x| + cut] == s[at..cut]
  {
  }

  lemma CarriedDone(x: string, s: string, at: nat, cut: nat, f: nat)
    requires at <= |s| && cut < f < |s| && TagAt(s, f) && |x| + |s| < SIZE
    requires Digits(s[cut..f]) && !Accepts(s, cut, f) && Accepts(x + s, |x| + cut, |x| + f)
    ensures Done(x + s, |x| + at, |x| + f, |x| + cut) == |x| - Again(s, cut, f)
  {
    assert (x + s)[|x| + cut..|x| + f] == s[cut..f];
    AcceptShift(x, s, cut, f);
    AcceptsIff(x + s, |x| + cut, |x| + f);
    hide Value, Accepts;
  }

  lemma Parted(x: string, s: string, l: nat)
    requires l <= |x|
    ensures x[..|x| - l] + (Ends(x, l) + s) == x + s
  {
  }

  // The end of the text comes out as it is.
  lemma EndsComeOut(x: string, s: string, l: nat, f: nat)
    requires l <= |x| && f < |s| && TagAt(s, f)
    ensures var rest := Rest(x + s, |x| - l, |x| + (f + 1)); l <= |rest| && rest[..l] == Ends(x, l)
  {
    hide *;
    var rest := Rest(x + s, |x| - l, |x| + (f + 1));
    TagNotDigit(s, f);
    if 0 < l { Kept(x + s, |x| - l, |x| + (f + 1), |x| - 1, |x| + f); }
    forall k | 0 <= k < l ensures rest[k] == x[|x| - l + k] {
      Kept(x + s, |x| - l, |x| + (f + 1), |x| - l + k, |x| + f);
    }
    EndsAt(x, l, rest);
  }

  lemma EndsAt(x: string, l: nat, rest: string)
    requires l <= |x| && l <= |rest| && forall k | 0 <= k < l :: rest[k] == x[|x| - l + k]
    ensures rest[..l] == Ends(x, l)
  {
  }

  // Behind text, what is before the cut comes out as it is, and at the cut a tag.
  lemma OutBehind(x: string, s: string, at: nat, from: nat, c: nat)
    requires at <= |s| && from <= |s| && |x| + |s| < SIZE && NextTag(s, from) < |s|
    requires at <= c < |s|
    ensures var f := NextTag(s, from);
            var cut := CutBehind(s, |x|, RunStart(s, at, f), f);
            var rest := Rest(x + s, |x| + at, |x| + from);
            && (c < cut ==> c - at < |rest| && rest[c - at] == s[c])
            && (c == cut < f ==> c - at < |rest| && !Digit(rest[c - at]))
  {
    hide *;
    var f := NextTag(s, from);
    NextShift(x, s, from);
    CutAtBehind(x, s, at, f);
    if c < CutBehind(s, |x|, RunStart(s, at, f), f) {
      KeptDigit(x + s, |x| + at, |x| + from, |x| + c);
    } else if c == CutBehind(s, |x|, RunStart(s, at, f), f) < f {
      TagComesOut(x + s, |x| + at, |x| + from);
    }
  }

  // A number taken earlier behind one text than behind the other puts a tag in the place of a digit.
  lemma CutsDiffer(x: string, y: string, s: string, at: nat, from: nat)
    requires at <= |s| && from <= |s| && |x| + |s| < SIZE && |y| + |s| < SIZE && NextTag(s, from) < |s|
    requires var f := NextTag(s, from);
             CutBehind(s, |x|, RunStart(s, at, f), f) < CutBehind(s, |y|, RunStart(s, at, f), f)
    ensures Rest(x + s, |x| + at, |x| + from) != Rest(y + s, |y| + at, |y| + from)
  {
    hide *;
    var f := NextTag(s, from);
    var cut := CutBehind(s, |x|, RunStart(s, at, f), f);
    assert at <= cut < f && Digit(s[cut]) by {
      CutAtBehind(x, s, at, f);
      TakenDigit(x, s, at, cut, f);
    }
    OutBehind(x, s, at, from, cut);
    OutBehind(y, s, at, from, cut);
  }

  lemma CarriedAlike(x: string, y: string, s: string, at: nat, from: nat, cut: nat, l: nat)
    requires at <= |s| && from <= |s| && |x| + |s| < SIZE && |y| + |s| < SIZE && NextTag(s, from) < |s|
    requires cut == CutBehind(s, |x|, RunStart(s, at, NextTag(s, from)), NextTag(s, from)) < NextTag(s, from)
    requires cut == CutBehind(s, |y|, RunStart(s, at, NextTag(s, from)), NextTag(s, from))
    requires !Accepts(s, cut, NextTag(s, from)) && Digits(s[cut..NextTag(s, from)])
    requires l == Again(s, cut, NextTag(s, from)) <= |x| && l <= |y|
    ensures var f := NextTag(s, from);
            && x[..|x| - l] + (Ends(x, l) + s) == x + s && y[..|y| - l] + (Ends(y, l) + s) == y + s
            && (Rest(x + s, |x| + at, |x| + from) == Rest(y + s, |y| + at, |y| + from)
                <==> Rest(x + s, |x| - l, |x| + (f + 1)) == Rest(y + s, |y| - l, |y| + (f + 1)))
            && (Rest(x + s, |x| - l, |x| + (f + 1)) == Rest(y + s, |y| - l, |y| + (f + 1)) ==> Ends(x, l) == Ends(y, l))
  {
    hide *;
    var f := NextTag(s, from);
    CarriedBehind(x, s, at, from, cut, l);
    CarriedBehind(y, s, at, from, cut, l);
    Cancelled(s[at..cut] + TAG, Rest(x + s, |x| - l, |x| + (f + 1)), Rest(y + s, |y| - l, |y| + (f + 1)));
    EndsComeOut(x, s, l, f);
    EndsComeOut(y, s, l, f);
  }

  /** What is left of a name normalizes alike behind two texts, if and only if they do not differ along its scan. */
  lemma {:induction false} RestBehind(x: string, y: string, s: string, at: nat, from: nat)
    requires at <= |s| && from <= |s| && |x| + |s| < SIZE && |y| + |s| < SIZE
    ensures Rest(x + s, |x| + at, |x| + from) == Rest(y + s, |y| + at, |y| + from) <==> !Differ(x, y, s, at, from)
    decreases |s| - from
  {
    hide *;
    var f := NextTag(s, from);
    if f == |s| {
      NoTagBehind(x, y, s, at, from);
    } else {
      var run := RunStart(s, at, f);
      var cut, cut' := CutBehind(s, |x|, run, f), CutBehind(s, |y|, run, f);
      DifferUnfolded(x, y, s, at, from);
      if cut < cut' {
        CutsDiffer(x, y, s, at, from);
      } else if cut' < cut {
        CutsDiffer(y, x, s, at, from);
      } else if cut == f || Accepts(s, cut, f) {
        var done := Done(s, at, f, cut);
        TakenBehind(x, s, at, from, cut);
        TakenBehind(y, s, at, from, cut);
        Cancelled(Emitted(s, at, f, cut), Rest(x + s, |x| + done, |x| + (f + 1)), Rest(y + s, |y| + done, |y| + (f + 1)));
        RestBehind(x, y, s, done, f + 1);
      } else {
        CarryDigits(s, |x|, cut, f);
        var l: nat := Again(s, cut, f);
        CarriedAlike(x, y, s, at, from, cut, l);
        if Ends(x, l) == Ends(y, l) {
          EndsLength(x, l);
          RestBehind(x[..|x| - l], y[..|y| - l], Ends(x, l) + s, 0, l + f + 1);
        }
      }
    }
  }

  lemma NoTagBehind(x: string, y: string, s: string, at: nat, from: nat)
    requires at <= |s| && from <= |s| && NextTag(s, from) == |s|
    ensures Rest(x + s, |x| + at, |x| + from) == Rest(y + s, |y| + at, |y| + from) && !Differ(x, y, s, at, from)
  {
    NextShift(x, s, from);
    NextShift(y, s, from);
    hide NextTag;
    Stepped(x + s, |x| + at, |x| + from);
    Stepped(y + s, |y| + at, |y| + from);
    hide Rest;
    assert (x + s)[|x| + at..] == s[at..] && (y + s)[|y| + at..] == s[at..];
  }

  lemma CarryDigits(s: string, text: nat, cut: nat, f: nat)
    requires cut <= f <= |s| && Carries(s, text, cut, f)
    ensures Digits(s[cut..f])
  {
  }

  lemma EndsLength(x: string, l: nat)
    requires l <= |x|
    ensures |Ends(x, l)| == l && |x[..|x| - l]| == |x| - l
  {
  }

  /** Two names that differ only in a tagged name normalize alike if and only if the text up to its end does not differ
      along the scan of the rest. So they do if nothing of the rest is displaced in either, and do not if something is in
      one of them alone. */
  lemma AlikeButTag(pre: string, digits: string, body: string, digits': string, body': string, post: string)
    requires Plain(pre) && Tagged(digits, body) && Tagged(digits', body')
    requires |pre + digits + body + post| < SIZE && |pre + digits' + body' + post| < SIZE
    ensures Normalized(pre + digits + body + post) == Normalized(pre + digits' + body' + post)
            <==> !Differ(pre + digits + body, pre + digits' + body', post, 0, 0)
    ensures var a, b := Displaced(post, |pre + digits + body|, 0, 0), Displaced(post, |pre + digits' + body'|, 0, 0);
            && (!a && !b ==> Normalized(pre + digits + body + post) == Normalized(pre + digits' + body' + post))
            && (a != b ==> Normalized(pre + digits + body + post) != Normalized(pre + digits' + body' + post))
  {
    hide *;
    ComposesIff(pre, digits, body, post);
    ComposesIff(pre, digits', body', post);
    var x, y := pre + digits + body, pre + digits' + body';
    TaggedLeads(pre, digits, body, post);
    TaggedLeads(pre, digits', body', post);
    AfterFirst(x + post, |pre| + |digits|, |pre|, |x|, pre + TAG);
    AfterFirst(y + post, |pre| + |digits'|, |pre|, |y|, pre + TAG);
    Cancelled(pre + TAG, Rest(x + post, |x|, |x|), Rest(y + post, |y|, |y|));
    RestBehind(x, y, post, 0, 0);
  }

  // ------------------------------------------------------------------- what changes a name

  /** A name from a place on holds no number, in the digits before a tag, that is taken for a length. */
  ghost predicate Untaken(s: string, from: nat) {
    forall f: nat, cut: nat {:trigger Accepts(s, cut, f)} |
      from <= f < |s| && TagAt(s, f) && RunStart(s, 0, f) <= cut < f :: !Accepts(s, cut, f)
  }

  lemma {:induction false} UnchangedFrom(s: string, from: nat)
    requires from <= |s|
    ensures Rest(s, 0, from) == s <==> Untaken(s, from)
    decreases |s| - from
  {
    hide Accepts, NextTag, Rest, CutAt, Untaken, TagAt;
    var f := NextTag(s, from);
    Stepped(s, 0, from);
    if f == |s| {
      NoTag(s, from);
    } else {
      var cut := CutAt(s, 0, f);
      if cut < f {
        TakenFirst(s, from, f, Rest(s, Done(s, 0, f, cut), f + 1));
      } else {
        UnchangedFrom(s, f + 1);
        UntakenTag(s, from);
      }
    }
  }

  lemma NoTag(s: string, from: nat)
    requires from <= |s| && NextTag(s, from) == |s|
    ensures Untaken(s, from) && s[0..] == s
  {
  }

  // A tag put in the place of a digit changes the name.
  lemma TakenFirst(s: string, from: nat, f: nat, rest: string)
    requires from <= f < |s| && TagAt(s, f) && CutAt(s, 0, f) < f
    ensures Emitted(s, 0, f, CutAt(s, 0, f)) + rest != s && !Untaken(s, from)
  {
    var cut, run := CutAt(s, 0, f), RunStart(s, 0, f);
    assert run <= cut < f && Accepts(s, cut, f);
    assert s[cut] == s[run..f][cut - run];
    assert (Emitted(s, 0, f, cut) + rest)[cut] == TAG[0];
  }

  lemma UntakenTag(s: string, from: nat)
    requires from <= |s| && NextTag(s, from) < |s| && CutAt(s, 0, NextTag(s, from)) == NextTag(s, from)
    ensures Untaken(s, from) == Untaken(s, NextTag(s, from) + 1)
    ensures forall rest: string :: Emitted(s, 0, NextTag(s, from), NextTag(s, from)) + rest == rest
  {
    hide RunStart, FirstCut, Accepts, NextTag;
  }

  /** A name comes out as it went in if and only if no number in it is taken for a length. */
  lemma UnchangedIff(s: string)
    ensures Normalized(s) == s <==> Untaken(s, 0)
  {
    UnchangedFrom(s, 0);
  }

  /** A number in decimal. */
  function Decimal(n: nat): (s: string)
    ensures s != [] && Digits(s) && Value(s) == n
  {
    var last := ['0' + (n % 10) as char];
    if n < 10 then last
    else
      var s := Decimal(n / 10) + last;
      assert s[..|s| - 1] == Decimal(n / 10);
      s
  }

  /** The wrapping sum changes a name it should leave alone: a length no name can have is taken for one. */
  lemma Overlong()
    ensures Normalized(Decimal(SIZE - 1) + TAG) != Decimal(SIZE - 1) + TAG
  {
    var digits := Decimal(SIZE - 1);
    var s, f := digits + TAG, |digits|;
    assert s[f..f + |TAG|] == TAG;
    assert s[0..f] == digits;
    RunIs(s, 0, f);
    assert Accepts(s, 0, f);
    UnchangedIff(s);
  }

  // ------------------------------------------------------------------ a name that is displaced

  function Power(n: nat): nat {
    if n == 0 then 1 else 10 * Power(n - 1)
  }

  lemma {:induction false} ValueBelow(s: string)
    requires Digits(s)
    ensures Value(s) < Power(|s|)
  {
    if s != [] { ValueBelow(s[..|s| - 1]); }
  }

  lemma {:induction false} PowerGrows(m: nat, n: nat)
    requires m <= n
    ensures Power(m) <= Power(n)
  {
    if m < n { PowerGrows(m, n - 1); }
  }

  // A number in decimal is no longer than it need be.
  lemma {:induction false} DecimalLength(n: nat, k: nat)
    requires n < Power(k) && 0 < k
    ensures |Decimal(n)| <= k
    decreases k
  {
    if 10 <= n { DecimalLength(n / 10, k - 1); }
  }

  lemma TwentyDigits()
    ensures |Decimal(SIZE - 21)| == 20
  {
    var digits := Decimal(SIZE - 21);
    assert Power(8) == 100000000;
    assert Power(16) == 10000000000000000;
    assert Power(19) == 10000000000000000000;
    assert Power(20) == 100000000000000000000;
    hide Power;
    DecimalLength(SIZE - 21, 20);
    ValueBelow(digits);
    if |digits| < 20 { PowerGrows(|digits|, 19); }
  }

  // A number and a tag: what the scan finds there.
  lemma NumberAndTag(digits: string)
    requires digits != [] && Digits(digits)
    ensures var s, f := digits + TAG, |digits|;
            NextTag(s, 0) == f && TagAt(s, f) && RunStart(s, 0, f) == 0 && s[0..f] == digits
  {
    var s, f := digits + TAG, |digits|;
    assert s[f..f + |TAG|] == TAG;
    assert s == "" + digits + TAG && Plain("");
    forall i {:trigger TagAt(s, i)} | 0 <= i < f ensures !TagAt(s, i) { NoTagBefore("", digits, TAG, i); }
    SkipTo(s, 0, f);
    assert forall i | 0 <= i < f :: s[i] == digits[i];
    RunIs(s, 0, f);
  }

  lemma NumberDisplaced(digits: string, text: nat)
    requires digits != [] && Digits(digits) && text + |digits| + |TAG| < SIZE
    requires SIZE <= text + |digits| + Value(digits) < SIZE + text
    ensures Displaced(digits + TAG, text, 0, 0)
  {
    var s, f := digits + TAG, |digits|;
    NumberAndTag(digits);
    AcceptsIff(s, 0, f);
    assert !Accepts(s, 0, f);
    assert Carries(s, text, 0, f);
    hide Accepts, Carries, Displaced, NextTag, RunStart, Value;
    assert 0 < CutAt(s, 0, f);
    DisplacedUnfolded(s, text, 0, 0);
  }

  /** There is a name whose parts do not normalize as they would alone. */
  lemma CarriedOver()
    ensures var post := Decimal(SIZE - 21) + TAG;
            Normalized(Decimal(10) + TAG + post) != TAG + Normalized(post)
  {
    var ten, digits := Decimal(10), Decimal(SIZE - 21);
    assert |ten| == 2;
    assert TAG[0..|TAG|] == TAG;
    assert Plain("") && Tagged(ten, TAG);
    hide Plain, Tagged, Displaced, Normalized, Decimal, Value;
    TwentyDigits();
    NumberDisplaced(digits, 12);
    ComposesIff("", ten, TAG, digits + TAG);
    assert "" + ten + TAG == ten + TAG && "" + TAG == TAG;
  }

  // A number and a tag behind text that carries the number: one character of it is put out again.
  lemma NumberCarried(digits: string, text: nat)
    requires |digits| == 20 && Digits(digits) && Value(digits) == SIZE - 21 && 0 < text < 100
    ensures var s := digits + TAG;
            && CutBehind(s, text, 0, 20) == 0 && !Accepts(s, 0, 20) && Digits(s[0..20]) && Again(s, 0, 20) == 1
            && Displaced(s, text, 0, 0)
  {
    var s := digits + TAG;
    NumberAndTag(digits);
    NumberDisplaced(digits, text);
    AcceptsIff(s, 0, 20);
    hide Value, NextTag, RunStart, Displaced, Accepts;
    assert Carries(s, text, 0, 20);
  }

  // Two texts that both carry it differ if their last characters do.
  lemma LastPutOut(x: string, y: string)
    requires 0 < |x| < 100 && 0 < |y| < 100
    ensures var post := Decimal(SIZE - 21) + TAG;
            && Displaced(post, |x|, 0, 0) && Displaced(post, |y|, 0, 0)
            && Differ(x, y, post, 0, 0) == (x[|x| - 1] != y[|y| - 1])
  {
    var digits := Decimal(SIZE - 21);
    hide *;
    var s := digits + TAG;
    TwentyDigits();
    NumberAndTag(digits);
    NumberCarried(digits, |x|);
    NumberCarried(digits, |y|);
    DifferUnfolded(x, y, s, 0, 0);
    OneEnd(x);
    OneEnd(y);
    NothingAfter(Ends(x, 1) + s, 22);
    NoTagBehind(x[..|x| - 1], y[..|y| - 1], Ends(x, 1) + s, 0, 22);
  }

  lemma OneEnd(x: string)
    requires 0 < |x|
    ensures Ends(x, 1) == [x[|x| - 1]]
  {
  }

  lemma NothingAfter(s: string, from: nat)
    requires from <= |s| < from + |TAG|
    ensures NextTag(s, from) == |s|
  {
    hide NextTag;
  }

  /** There are two names that differ only in a tagged name and do not normalize alike, though both displace a number of
      the rest; and two that both displace it and do. */
  lemma BothDisplaced()
    ensures var post := Decimal(SIZE - 21) + TAG;
            && Displaced(post, 13, 0, 0) && Displaced(post, 14, 0, 0)
            && Normalized("11" + (TAG + "a") + post) != Normalized("11" + (TAG + "b") + post)
            && Normalized("12" + (TAG + "ac") + post) == Normalized("12" + (TAG + "bc") + post)
  {
    var post := Decimal(SIZE - 21) + TAG;
    TwentyDigits();
    hide Decimal, Displaced, Differ, Normalized;
    TagHeads("11", "a");
    TagHeads("11", "b");
    TagHeads("12", "ac");
    TagHeads("12", "bc");
    assert Plain("");
    hide Tagged, Plain, Value;
    LastPutOut("11" + (TAG + "a"), "11" + (TAG + "b"));
    LastPutOut("12" + (TAG + "ac"), "12" + (TAG + "bc"));
    assert "" + "11" == "11" && "" + "12" == "12";
    AlikeButTag("", "11", TAG + "a", "11", TAG + "b", post);
    AlikeButTag("", "12", TAG + "ac", "12", TAG + "bc", post);
  }

  lemma TagHeads(digits: string, end: string)
    requires |digits| == 2 && Digits(digits) && Value(digits) == |TAG + end|
    ensures Tagged(digits, TAG + end)
  {
    assert (TAG + end)[0..|TAG|] == TAG;
  }
}
