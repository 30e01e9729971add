/** Sizes of finite sets. */
module FiniteSets {
  lemma {:induction false} SubsetSize<T>(a: set<T>, b: set<T>)
    requires a <= b
    ensures |a| <= |b|
  {
    if a != {} {
      var x :| x in a;
      SubsetSize(a - {x}, b - {x});
    }
  }

  /** Distinct elements of a set are no more than its size. */
  lemma {:induction false} DistinctSize<T>(s: seq<T>, all: set<T>)
    requires forall i, j :: 0 <= i < j < |s| ==> s[i] != s[j]
    requires forall i :: 0 <= i < |s| ==> s[i] in all
    ensures |s| <= |all|
  {
    if s != [] {
      var last := s[|s| - 1];
      DistinctSize(s[..|s| - 1], all - {last});
    }
  }
}
