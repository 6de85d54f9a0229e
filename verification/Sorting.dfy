/** Sorted sequences and where insertion keeps them sorted. */
module Sorting {
  ghost predicate SortedBy<T>(s: seq<T>, key: T -> real) {
    forall i, j :: 0 <= i < j < |s| ==> key(s[i]) <= key(s[j])
  }

  /** Inserting before everything greater, and after everything else, keeps a sequence sorted. */
  lemma PlacedInOrder<T>(s: seq<T>, x: T, key: T -> real, j: nat)
    requires SortedBy(s, key) && j <= |s|
    requires j > 0 ==> key(s[j - 1]) <= key(x)
    requires forall k :: j <= k < |s| ==> key(s[k]) > key(x)
    ensures SortedBy(s[..j] + [x] + s[j..], key)
  {
  }
}
