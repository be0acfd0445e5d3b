// Stable sorting by an integer key, largest first: the ordering behind
// order_by("-created_at") on scans and Counter.most_common() on counts.

module Ordering {

  predicate Descending<T>(xs: seq<T>, key: T -> int) {
    forall i, j :: 0 <= i < j < |xs| ==> key(xs[i]) >= key(xs[j])
  }

  /** x placed before the first element whose key is not larger than its own. */
  function InsertDescending<T(==)>(x: T, xs: seq<T>, key: T -> int): (r: seq<T>)
    requires Descending(xs, key)
    ensures Descending(r, key)
    ensures multiset(r) == multiset(xs) + multiset{x}
  {
    if xs == [] || key(x) >= key(xs[0]) then [x] + xs
    else
      var t := InsertDescending(x, xs[1..], key);
      assert xs == [xs[0]] + xs[1..];
      forall y | y in t ensures key(xs[0]) >= key(y) {
        assert y in multiset(t);
        if y != x {
          assert y in xs[1..];
        }
      }
      [xs[0]] + t
  }

  /**
   * Largest key first, a permutation of xs. Each element is inserted ahead of the
   * equal-keyed elements that came after it, so equal keys keep their order.
   */
  function SortDescending<T(==)>(xs: seq<T>, key: T -> int): (r: seq<T>)
    ensures Descending(r, key)
    ensures multiset(r) == multiset(xs)
  {
    if xs == [] then []
    else
      assert xs == [xs[0]] + xs[1..];
      InsertDescending(xs[0], SortDescending(xs[1..], key), key)
  }

  /** Sorting keeps exactly the elements it was given. */
  lemma SortKeepsElements<T>(xs: seq<T>, key: T -> int, x: T)
    ensures x in SortDescending(xs, key) <==> x in xs
  {
    var r := SortDescending(xs, key);
    assert x in r <==> x in multiset(r);
    assert x in xs <==> x in multiset(xs);
  }

  /** An already descending sequence comes back unchanged. */
  lemma {:induction false} SortDescendingSorted<T>(xs: seq<T>, key: T -> int)
    requires Descending(xs, key)
    ensures SortDescending(xs, key) == xs
  {
    if xs != [] {
      assert Descending(xs[1..], key);
      SortDescendingSorted(xs[1..], key);
    }
  }
}
