/** `.sort({ createdAt: -1 })`: newest first. */
module Ordering {

  /** No element has a larger key than one before it. */
  ghost predicate NewestFirst<T>(s: seq<T>, key: T -> int) {
    forall i, j :: 0 <= i < j < |s| ==> key(s[i]) >= key(s[j])
  }

  function Insert<T>(x: T, s: seq<T>, key: T -> int): (r: seq<T>)
    requires NewestFirst(s, key)
    ensures NewestFirst(r, key)
    ensures multiset(r) == multiset(s) + multiset{x}
    ensures r[0] == x || (s != [] && r[0] == s[0])
  {
    if s == [] || key(x) >= key(s[0]) then [x] + s
    else
      var tail := Insert(x, s[1..], key);
      assert s == [s[0]] + s[1..];
      assert key(s[0]) >= key(tail[0]);
      assert forall k :: 0 <= k < |tail| ==> key(s[0]) >= key(tail[k]);
      var r := [s[0]] + tail;
      assert forall k :: 1 <= k < |r| ==> r[k] == tail[k - 1];
      r
  }

  /** The documents in newest-first order: a sorted permutation of the input. */
  function SortNewestFirst<T>(s: seq<T>, key: T -> int): (r: seq<T>)
    ensures NewestFirst(r, key)
    ensures multiset(r) == multiset(s)
  {
    if s == [] then []
    else
      assert s == [s[0]] + s[1..];
      Insert(s[0], SortNewestFirst(s[1..], key), key)
  }

  /** Sorting keeps the length, and so the count of documents. */
  lemma SortKeepsLength<T>(s: seq<T>, key: T -> int)
    ensures |SortNewestFirst(s, key)| == |s|
  {
    assert |multiset(SortNewestFirst(s, key))| == |multiset(s)|;
  }
}
