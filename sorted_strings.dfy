// Python's `sorted(set(xs))` on a list of strings: the distinct elements in
// ascending code-point order. The CVE providers and their merge all end with it.

module SortedStrings {

  /** Python's `a < b` on str: lexicographic comparison of code points. */
  predicate Less(a: string, b: string)
    decreases |a|
  {
    if a == [] then b != []
    else if b == [] then false
    else if a[0] != b[0] then a[0] < b[0]
    else Less(a[1..], b[1..])
  }

  lemma {:induction false} LessIrreflexive(a: string)
    ensures !Less(a, a)
  {
    if a != [] {
      LessIrreflexive(a[1..]);
    }
  }

  lemma {:induction false} LessAsymmetric(a: string, b: string)
    requires Less(a, b)
    ensures !Less(b, a)
  {
    if a != [] && b != [] && a[0] == b[0] {
      LessAsymmetric(a[1..], b[1..]);
    }
  }

  lemma {:induction false} LessTransitive(a: string, b: string, c: string)
    requires Less(a, b) && Less(b, c)
    ensures Less(a, c)
  {
    if a != [] && a[0] == b[0] && b[0] == c[0] {
      LessTransitive(a[1..], b[1..], c[1..]);
    }
  }

  lemma {:induction false} LessTotal(a: string, b: string)
    requires a != b
    ensures Less(a, b) || Less(b, a)
  {
    if a != [] && b != [] && a[0] == b[0] {
      assert a == [a[0]] + a[1..] && b == [b[0]] + b[1..];
      LessTotal(a[1..], b[1..]);
    }
  }

  predicate StrictlySorted(s: seq<string>) {
    forall i, j :: 0 <= i < j < |s| ==> Less(s[i], s[j])
  }

  function Elems(s: seq<string>): set<string> {
    set x | x in s
  }

  /** Inserts x into a strictly sorted list, leaving it unchanged when x is already there. */
  function Insert(x: string, s: seq<string>): (r: seq<string>)
    requires StrictlySorted(s)
    ensures StrictlySorted(r)
    ensures Elems(r) == Elems(s) + {x}
  {
    if s == [] then [x]
    else if x == s[0] then s
    else if Less(x, s[0]) then
      assert forall j :: 0 < j < |s| ==> Less(x, s[j]) by {
        forall j | 0 < j < |s| ensures Less(x, s[j]) {
          LessTransitive(x, s[0], s[j]);
        }
      }
      [x] + s
    else
      LessTotal(x, s[0]);
      var t := Insert(x, s[1..]);
      forall y | y in t ensures Less(s[0], y) {
        assert y in Elems(t);
        if y != x {
          var k :| 0 <= k < |s[1..]| && s[1..][k] == y;
          assert s[k + 1] == y;
        }
      }
      PrependSorted(s[0], t);
      ElemsCons(s[0], t);
      ElemsCons(s[0], s[1..]);
      assert [s[0]] + s[1..] == s;
      [s[0]] + t
  }

  /** A head below every element of a strictly sorted tail keeps the list strictly sorted. */
  lemma PrependSorted(a: string, t: seq<string>)
    requires StrictlySorted(t)
    requires forall y :: y in t ==> Less(a, y)
    ensures StrictlySorted([a] + t)
  {
    var r := [a] + t;
    forall i, j | 0 <= i < j < |r| ensures Less(r[i], r[j]) {
      assert r[j] == t[j - 1];
      if i > 0 { assert r[i] == t[i - 1]; }
    }
  }

  lemma ElemsCons(a: string, t: seq<string>)
    ensures Elems([a] + t) == {a} + Elems(t)
  {
    assert forall y :: y in [a] + t <==> y == a || y in t;
  }

  /** sorted(set(xs)) */
  function SortedSet(xs: seq<string>): (r: seq<string>)
    ensures StrictlySorted(r)
    ensures Elems(r) == Elems(xs)
  {
    if xs == [] then []
    else
      var r := Insert(xs[|xs| - 1], SortedSet(xs[..|xs| - 1]));
      assert Elems(xs) == Elems(xs[..|xs| - 1]) + {xs[|xs| - 1]} by {
        assert xs == xs[..|xs| - 1] + [xs[|xs| - 1]];
      }
      r
  }

  lemma EmptyElems(s: seq<string>)
    ensures s == [] <==> Elems(s) == {}
  {
    if s != [] {
      assert s[0] in Elems(s);
    }
  }

  /** A strictly sorted list is determined by its elements: sorted(set(xs)) depends only on set(xs). */
  lemma {:induction false} SortedByElems(a: seq<string>, b: seq<string>)
    requires StrictlySorted(a) && StrictlySorted(b)
    requires Elems(a) == Elems(b)
    ensures a == b
  {
    EmptyElems(a);
    EmptyElems(b);
    if a != [] && b != [] {
      assert b[0] in Elems(a);
      assert a[0] in Elems(b);
      if a[0] != b[0] {
        var i :| 0 <= i < |a| && a[i] == b[0];
        var j :| 0 <= j < |b| && b[j] == a[0];
        assert Less(a[0], b[0]) by { assert i > 0; }
        assert Less(b[0], a[0]) by { assert j > 0; }
        LessAsymmetric(a[0], b[0]);
      }
      forall x | x in a[1..] ensures x != a[0] {
        LessIrreflexive(a[0]);
      }
      forall x | x in b[1..] ensures x != b[0] {
        LessIrreflexive(b[0]);
      }
      assert Elems(a[1..]) == Elems(a) - {a[0]};
      assert Elems(b[1..]) == Elems(b) - {b[0]};
      SortedByElems(a[1..], b[1..]);
      assert a == [a[0]] + a[1..] && b == [b[0]] + b[1..];
    }
  }

  /** The result of sorted(set(xs)) does not depend on the order or multiplicity of xs. */
  lemma SortedSetByElems(xs: seq<string>, ys: seq<string>)
    requires Elems(xs) == Elems(ys)
    ensures SortedSet(xs) == SortedSet(ys)
  {
    SortedByElems(SortedSet(xs), SortedSet(ys));
  }
}
