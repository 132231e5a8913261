module Basics {
  datatype Option<+T> = None | Some(value: T)

  ghost predicate NoRepeats<T>(s: seq<T>) {
    forall i, j :: 0 <= i < j < |s| ==> s[i] != s[j]
  }

  lemma Quotient(b: nat, m: nat, q: nat, t: nat)
    requires m > 0 && b == m * q + t && t < m
    ensures b / m == q
  {
    var d := b / m - q;
    assert m * d == t - b % m;
  }
}
