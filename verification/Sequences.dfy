/** Lists without repetition. */
module Sequences {

  predicate Distinct<T(==)>(s: seq<T>) {
    forall i, j :: 0 <= i < j < |s| ==> s[i] != s[j]
  }

  /** A list without repetition is no longer than any set that holds its elements. */
  lemma {:induction false} DistinctCount<T>(s: seq<T>, all: set<T>)
    requires Distinct(s) && forall i :: 0 <= i < |s| ==> s[i] in all
    ensures |s| <= |all|
    decreases |s|
  {
    if s != [] {
      var rest := s[1..];
      forall i | 0 <= i < |rest| ensures rest[i] in all - {s[0]} {
        assert rest[i] == s[i + 1];
      }
      DistinctCount(rest, all - {s[0]});
    }
  }
}
