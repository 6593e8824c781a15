/** Sequences in which nothing occurs twice. */
module Sequences {
  predicate Distinct<T(==)>(s: seq<T>) {
    forall i, j :: 0 <= i < j < |s| ==> s[i] != s[j]
  }

  function Elements<T>(s: seq<T>): set<T> {
    set x | x in s
  }

  lemma {:induction false} DistinctLength<T>(s: seq<T>, bound: set<T>)
    requires Distinct(s) && Elements(s) <= bound
    ensures |s| <= |bound|
    decreases |s|
  {
    if s != [] {
      var last := s[|s| - 1];
      assert last in Elements(s);
      assert forall x :: x in Elements(s[..|s| - 1]) ==> x in Elements(s) && x != last;
      DistinctLength(s[..|s| - 1], bound - {last});
    }
  }
}
