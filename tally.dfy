// A Python dict from strings to counts, kept in insertion order (which is the
// order a dict iterates and serialises in), and the counting it supports:
// `d[k] = d.get(k, 0) + 1`, `d[k] = v`, `sum(d.values())`.

module Tally {

  type Counts = seq<(string, int)>

  predicate DistinctKeys(d: Counts) {
    forall i, j :: 0 <= i < j < |d| ==> d[i].0 != d[j].0
  }

  function Keys(d: Counts): set<string> {
    if d == [] then {} else {d[0].0} + Keys(d[1..])
  }

  lemma {:induction false} KeysAt(d: Counts, i: nat)
    requires i < |d|
    ensures d[i].0 in Keys(d)
  {
    if i > 0 {
      KeysAt(d[1..], i - 1);
    }
  }

  lemma {:induction false} KeysMissing(d: Counts, k: string)
    requires forall i :: 0 <= i < |d| ==> d[i].0 != k
    ensures k !in Keys(d)
  {
    if d != [] {
      KeysMissing(d[1..], k);
    }
  }

  lemma {:induction false} KeysIndex(d: Counts, k: string)
    requires k in Keys(d)
    ensures exists i :: 0 <= i < |d| && d[i].0 == k
  {
    if d[0].0 != k {
      KeysIndex(d[1..], k);
      var i :| 0 <= i < |d[1..]| && d[1..][i].0 == k;
      assert d[i + 1].0 == k;
    }
  }

  /** d.get(k, 0) */
  function Get(d: Counts, k: string): int {
    if d == [] then 0 else if d[0].0 == k then d[0].1 else Get(d[1..], k)
  }

  /** d[k] = v: overwritten in place when k is present, appended at the end otherwise. */
  function Put(d: Counts, k: string, v: int): (r: Counts)
    ensures |r| == if k in Keys(d) then |d| else |d| + 1
    ensures Keys(r) == Keys(d) + {k}
    ensures forall i :: 0 <= i < |d| ==> r[i].0 == d[i].0
  {
    if d == [] then [(k, v)]
    else if d[0].0 == k then [(k, v)] + d[1..]
    else [d[0]] + Put(d[1..], k, v)
  }

  /** sum(d.values()) */
  function Total(d: Counts): int {
    if d == [] then 0 else d[0].1 + Total(d[1..])
  }

  lemma {:induction false} PutGet(d: Counts, k: string, v: int, k': string)
    ensures Get(Put(d, k, v), k') == if k' == k then v else Get(d, k')
  {
    if d != [] && d[0].0 != k {
      PutGet(d[1..], k, v, k');
    }
  }

  lemma {:induction false} PutKeepsDistinct(d: Counts, k: string, v: int)
    requires DistinctKeys(d)
    ensures DistinctKeys(Put(d, k, v))
  {
    if d != [] && d[0].0 != k {
      PutKeepsDistinct(d[1..], k, v);
      var t := Put(d[1..], k, v);
      KeysMissing(d[1..], d[0].0);
      assert d[0].0 !in Keys(t);
      forall j | 0 < j < |[d[0]] + t| ensures ([d[0]] + t)[j].0 != d[0].0 {
        KeysAt(t, j - 1);
      }
    }
  }

  lemma {:induction false} AbsentKeyCountsZero(d: Counts, k: string)
    requires k !in Keys(d)
    ensures Get(d, k) == 0
  {
    if d != [] {
      AbsentKeyCountsZero(d[1..], k);
    }
  }

  /** A dict whose counts are all 0 sums to 0 and answers 0 for every key. */
  lemma {:induction false} AllZero(d: Counts, k: string)
    requires forall i :: 0 <= i < |d| ==> d[i].1 == 0
    ensures Total(d) == 0 && Get(d, k) == 0
  {
    if d != [] {
      AllZero(d[1..], k);
    }
  }

  /** Overwriting one value changes the sum by exactly the difference. */
  lemma {:induction false} PutTotal(d: Counts, k: string, v: int)
    requires DistinctKeys(d)
    ensures Total(Put(d, k, v)) == Total(d) - Get(d, k) + v
  {
    if d == [] {
    } else if d[0].0 == k {
      KeysMissing(d[1..], k);
      AbsentKeyCountsZero(d[1..], k);
    } else {
      PutTotal(d[1..], k, v);
    }
  }

  /** d[k] = d.get(k, 0) + 1 */
  function Bump(d: Counts, k: string): Counts {
    Put(d, k, Get(d, k) + 1)
  }

  function SetOf(xs: seq<string>): set<string> {
    set x | x in xs
  }

  /** How many elements of xs equal k. */
  function Occurrences(xs: seq<string>, k: string): nat {
    if xs == [] then 0
    else Occurrences(xs[..|xs| - 1], k) + (if xs[|xs| - 1] == k then 1 else 0)
  }

  /** Counting a list into a dict that starts from `base`, one `Bump` per element. */
  function CountInto(base: Counts, xs: seq<string>): (r: Counts)
    requires DistinctKeys(base)
    ensures DistinctKeys(r)
  {
    if xs == [] then base
    else
      var prev := CountInto(base, xs[..|xs| - 1]);
      PutKeepsDistinct(prev, xs[|xs| - 1], Get(prev, xs[|xs| - 1]) + 1);
      Bump(prev, xs[|xs| - 1])
  }

  /** Counting one more element is one more Bump. */
  lemma CountIntoStep(base: Counts, xs: seq<string>, i: nat)
    requires DistinctKeys(base)
    requires i < |xs|
    ensures CountInto(base, xs[..i + 1]) == Bump(CountInto(base, xs[..i]), xs[i])
  {
    assert xs[..i + 1][..i] == xs[..i];
  }

  /** Every key's count grows by the number of its occurrences in the list. */
  lemma {:induction false} CountIntoGet(base: Counts, xs: seq<string>, k: string)
    requires DistinctKeys(base)
    ensures Get(CountInto(base, xs), k) == Get(base, k) + Occurrences(xs, k)
  {
    if xs != [] {
      var init, x := xs[..|xs| - 1], xs[|xs| - 1];
      var prev := CountInto(base, init);
      assert CountInto(base, xs) == Put(prev, x, Get(prev, x) + 1);
      CountIntoGet(base, init, k);
      PutGet(prev, x, Get(prev, x) + 1, k);
      assert Occurrences(xs, k) == Occurrences(init, k) + (if x == k then 1 else 0);
    }
  }

  /** The sum of all counts grows by the length of the list. */
  lemma {:induction false} CountIntoTotal(base: Counts, xs: seq<string>)
    requires DistinctKeys(base)
    ensures Total(CountInto(base, xs)) == Total(base) + |xs|
  {
    if xs != [] {
      var prev := CountInto(base, xs[..|xs| - 1]);
      CountIntoTotal(base, xs[..|xs| - 1]);
      PutTotal(prev, xs[|xs| - 1], Get(prev, xs[|xs| - 1]) + 1);
    }
  }

  /** The keys are those of `base`, in their old positions, followed by the new elements of the list. */
  lemma {:induction false} CountIntoKeys(base: Counts, xs: seq<string>)
    requires DistinctKeys(base)
    ensures Keys(CountInto(base, xs)) == Keys(base) + SetOf(xs)
    ensures |CountInto(base, xs)| >= |base|
    ensures forall i :: 0 <= i < |base| ==> CountInto(base, xs)[i].0 == base[i].0
  {
    if xs != [] {
      var init, x := xs[..|xs| - 1], xs[|xs| - 1];
      var prev := CountInto(base, init);
      var r := Put(prev, x, Get(prev, x) + 1);
      assert CountInto(base, xs) == r;
      CountIntoKeys(base, init);
      assert Keys(r) == Keys(prev) + {x};
      assert SetOf(xs) == SetOf(init) + {x} by {
        assert xs == init + [x];
      }
    }
  }
}
