/** Sequence operations the page logic is built from: JavaScript's
    `filter`, `slice(0, n)`, `join` and the insertion order of a `Set`. */
module Seqs {

  /** `xs.filter(keep)`: the elements satisfying `keep`, in order. */
  function Filter<T(!new)>(keep: T -> bool, xs: seq<T>): (r: seq<T>)
    ensures |r| <= |xs|
    ensures forall k :: 0 <= k < |r| ==> keep(r[k]) && r[k] in xs
    ensures forall x :: x in xs && keep(x) ==> x in r
  {
    if |xs| == 0 then []
    else (if keep(xs[0]) then [xs[0]] else []) + Filter(keep, xs[1..])
  }

  /** A filter that every element passes keeps the whole sequence. */
  lemma {:induction false} FilterKeepsAll<T(!new)>(keep: T -> bool, xs: seq<T>)
    requires forall k :: 0 <= k < |xs| ==> keep(xs[k])
    ensures Filter(keep, xs) == xs
    decreases |xs|
  {
    if |xs| > 0 {
      FilterKeepsAll(keep, xs[1..]);
      assert [xs[0]] + xs[1..] == xs;
    }
  }

  /** `xs.slice(0, n)`: the first `n` elements, or all of them. */
  function Take<T>(xs: seq<T>, n: nat): (r: seq<T>)
    ensures |r| == if |xs| <= n then |xs| else n
    ensures forall k :: 0 <= k < |r| ==> r[k] == xs[k]
  {
    if |xs| <= n then xs else xs[..n]
  }

  /** The concatenation of a list of sequences. */
  function Concat<T>(xss: seq<seq<T>>): seq<T> {
    if |xss| == 0 then [] else xss[0] + Concat(xss[1..])
  }

  /** `xs.join(sep)` on strings. */
  function Join(xs: seq<string>, sep: string): string {
    if |xs| == 0 then ""
    else if |xs| == 1 then xs[0]
    else xs[0] + sep + Join(xs[1..], sep)
  }

  predicate NoDuplicates<T(==)>(xs: seq<T>) {
    forall i, j :: 0 <= i < j < |xs| ==> xs[i] != xs[j]
  }

  /** The position of the first occurrence of `x` in `xs`. */
  function FirstIndex<T(==)>(xs: seq<T>, x: T): (k: nat)
    requires x in xs
    ensures k < |xs| && xs[k] == x
    ensures x !in xs[..k]
  {
    if xs[0] == x then 0 else 1 + FirstIndex(xs[1..], x)
  }

  /** Occurrences in `xs` come first in any extension of it. */
  lemma {:induction false} FirstIndexPrefix<T>(xs: seq<T>, ys: seq<T>, x: T)
    requires x in xs
    ensures x in xs + ys
    ensures FirstIndex(xs + ys, x) == FirstIndex(xs, x)
  {
    if xs[0] != x {
      assert (xs + ys)[1..] == xs[1..] + ys;
      FirstIndexPrefix(xs[1..], ys, x);
    }
  }

  /** `Array.from(new Set(xs))`: the distinct elements of `xs`, each kept at
      its first occurrence, in the order a `Set` records insertions. */
  function Dedup<T(==,!new)>(xs: seq<T>): (r: seq<T>)
    ensures NoDuplicates(r)
    ensures forall x :: x in r <==> x in xs
    ensures forall i, j :: 0 <= i < j < |r| ==> FirstIndex(xs, r[i]) < FirstIndex(xs, r[j])
    decreases |xs|
  {
    if |xs| == 0 then []
    else
      var init := xs[..|xs| - 1];
      var last := xs[|xs| - 1];
      assert xs == init + [last];
      var d := Dedup(init);
      forall y | y in init
        ensures FirstIndex(xs, y) == FirstIndex(init, y)
      {
        FirstIndexPrefix(init, [last], y);
      }
      if last in d then d
      else
        assert last !in init;
        assert FirstIndex(xs, last) == |xs| - 1 by {
          assert xs[|xs| - 1] == last && last !in xs[..|xs| - 1];
        }
        d + [last]
  }

  /** The first `n` distinct elements of `xs`, in order of first occurrence. */
  function TakeDistinct<T(==,!new)>(xs: seq<T>, n: nat): (r: seq<T>)
    ensures |r| <= n
    ensures NoDuplicates(r)
    ensures forall k :: 0 <= k < |r| ==> r[k] in xs
    ensures |r| < n ==> forall x :: x in xs ==> x in r
    ensures forall i, j :: 0 <= i < j < |r| ==> FirstIndex(xs, r[i]) < FirstIndex(xs, r[j])
    ensures KeepsEarlier(xs, r)
  {
    var d := Dedup(xs);
    var r := Take(d, n);
    assert forall k :: 0 <= k < |r| ==> r[k] in d;
    assert KeepsEarlier(xs, r) by {
      forall x, k | x in xs && 0 <= k < |r| && FirstIndex(xs, x) < FirstIndex(xs, r[k])
        ensures x in r
      {
        DedupKeepsEarlier(xs, n, x, k);
      }
    }
    r
  }

  /** `r` holds every element of `xs` that first occurs before one of its
      own elements. */
  predicate KeepsEarlier<T(==)>(xs: seq<T>, r: seq<T>)
    requires forall k :: 0 <= k < |r| ==> r[k] in xs
  {
    forall x, k :: x in xs && 0 <= k < |r| && FirstIndex(xs, x) < FirstIndex(xs, r[k]) ==> x in r
  }

  lemma DedupKeepsEarlier<T(!new)>(xs: seq<T>, n: nat, x: T, k: nat)
    requires x in xs && k < |Take(Dedup(xs), n)|
    requires FirstIndex(xs, x) < FirstIndex(xs, Take(Dedup(xs), n)[k])
    ensures x in Take(Dedup(xs), n)
  {
    var d := Dedup(xs);
    var m := |Take(d, n)|;
    assert Take(d, n) == d[..m];
    EarlierInPrefix(xs, d, m, x, k);
  }

  /** In a list ordered by first occurrence in `xs` and holding every
      element of `xs`, an element that occurs earlier than one in a prefix
      is in that prefix. */
  lemma EarlierInPrefix<T>(xs: seq<T>, d: seq<T>, m: nat, x: T, k: nat)
    requires forall i, j :: 0 <= i < j < |d| ==> d[i] in xs && d[j] in xs && FirstIndex(xs, d[i]) < FirstIndex(xs, d[j])
    requires m <= |d| && k < m && x in d && x in xs && d[k] in xs
    requires FirstIndex(xs, x) < FirstIndex(xs, d[k])
    ensures x in d[..m]
  {
    var j :| 0 <= j < |d| && d[j] == x;
    assert forall i :: k < i < |d| ==> FirstIndex(xs, d[k]) < FirstIndex(xs, d[i]);
    assert FirstIndex(xs, d[j]) < FirstIndex(xs, d[k]);
    assert d[..m][j] == x;
  }

  lemma TakeDistinctSingleton<T(!new)>(x: T, n: nat)
    requires n >= 1
    ensures TakeDistinct([x], n) == [x]
  {
    assert [x][..0] == [];
    assert Dedup([x]) == [x];
  }

  /** Taking at least one distinct element gives nothing only from
      nothing. */
  lemma TakeDistinctEmpty<T(!new)>(xs: seq<T>, n: nat)
    requires n >= 1
    ensures TakeDistinct(xs, n) == [] <==> xs == []
  {
    if xs != [] {
      assert xs[0] in xs;
    }
  }

  /** Adjacent slices glue into the longer prefix. */
  lemma PrefixThenSlice<T>(s: seq<T>, lo: nat, hi: nat)
    requires lo <= hi <= |s|
    ensures s[..lo] + s[lo..hi] == s[..hi]
  {
  }
}
