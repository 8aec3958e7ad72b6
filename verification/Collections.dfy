/** Sequences as lists of different things, and ranges of addresses. */
module Collections {
  /** Nothing is in the sequence twice. */
  ghost predicate Distinct<T>(s: seq<T>) {
    forall i, j | 0 <= i < j < |s| :: s[i] != s[j]
  }

  function Members<T>(s: seq<T>): set<T> {
    set x | x in s
  }

  /** The `m` addresses from `a` on and the `n` from `b` on have none in common. */
  predicate Disjoint(a: nat, m: nat, b: nat, n: nat) {
    a + m <= b || b + n <= a
  }
}
