/** Small facts about sequences shared by the whole model. */
module Seqs {

  /** No element occurs twice. */
  predicate Distinct<T(==)>(xs: seq<T>) {
    forall i, j :: 0 <= i < j < |xs| ==> xs[i] != xs[j]
  }

  /** `x` occurs in `xs` before any occurrence of `y`. */
  predicate SeenBefore<T(==)>(xs: seq<T>, x: T, y: T) {
    exists a :: 0 <= a < |xs| && xs[a] == x && y !in xs[..a]
  }

  /** The elements of `r` come in the order of their first occurrence in
      `xs`. */
  predicate FirstSeenOrder<T(==)>(xs: seq<T>, r: seq<T>) {
    forall i, j :: 0 <= i < j < |r| ==> SeenBefore(xs, r[i], r[j])
  }

  /** The distinct elements of `xs` in order of first occurrence, as `unique()`
      returns them. */
  function Dedup<T(==)>(xs: seq<T>): (r: seq<T>)
    ensures Distinct(r)
    ensures forall i :: 0 <= i < |xs| ==> xs[i] in r
    ensures forall i :: 0 <= i < |r| ==> r[i] in xs
    ensures FirstSeenOrder(xs, r)
    decreases |xs|
  {
    if xs == [] then []
    else
      var init := xs[..|xs| - 1];
      var prefix := Dedup(init);
      var last := xs[|xs| - 1];
      assert xs == init + [last];
      if last in prefix then
        FirstSeenRepeat(init, last, prefix);
        prefix
      else
        FirstSeenNew(init, last, prefix);
        prefix + [last]
  }

  /** Another occurrence of an element already seen changes nothing. */
  lemma FirstSeenRepeat<T>(init: seq<T>, last: T, prefix: seq<T>)
    requires FirstSeenOrder(init, prefix)
    ensures FirstSeenOrder(init + [last], prefix)
  {
    var xs := init + [last];
    forall i, j | 0 <= i < j < |prefix| ensures SeenBefore(xs, prefix[i], prefix[j]) {
      assert SeenBefore(init, prefix[i], prefix[j]);
      var a :| 0 <= a < |init| && init[a] == prefix[i] && prefix[j] !in init[..a];
      assert xs[a] == prefix[i] && xs[..a] == init[..a];
    }
  }

  /** A new element goes last: everything before it was seen earlier. */
  lemma FirstSeenNew<T>(init: seq<T>, last: T, prefix: seq<T>)
    requires FirstSeenOrder(init, prefix)
    requires forall i :: 0 <= i < |prefix| ==> prefix[i] in init
    requires last !in init
    ensures FirstSeenOrder(init + [last], prefix + [last])
  {
    var xs, r := init + [last], prefix + [last];
    forall i, j | 0 <= i < j < |r| ensures SeenBefore(xs, r[i], r[j]) {
      if j < |prefix| {
        assert SeenBefore(init, prefix[i], prefix[j]);
        var a :| 0 <= a < |init| && init[a] == prefix[i] && prefix[j] !in init[..a];
        assert xs[a] == r[i] && xs[..a] == init[..a];
      } else {
        var a :| 0 <= a < |init| && init[a] == prefix[i];
        assert xs[a] == r[i] && xs[..a] == init[..a];
      }
    }
  }

  /** The first `n` elements, or all of them when there are fewer: `head(n)`. */
  function Take<T>(xs: seq<T>, n: nat): (r: seq<T>)
    ensures |r| == if n < |xs| then n else |xs|
    ensures forall i :: 0 <= i < |r| ==> r[i] == xs[i]
  {
    if n < |xs| then xs[..n] else xs
  }

  /** Sum of `f` over the elements of `xs`. */
  function SumBy<T>(xs: seq<T>, f: T -> int): int
    decreases |xs|
  {
    if xs == [] then 0 else SumBy(xs[..|xs| - 1], f) + f(xs[|xs| - 1])
  }

  lemma {:induction false} SumByAppend<T>(xs: seq<T>, ys: seq<T>, f: T -> int)
    ensures SumBy(xs + ys, f) == SumBy(xs, f) + SumBy(ys, f)
    decreases |ys|
  {
    if ys == [] {
      assert xs + ys == xs;
    } else {
      var ys' := ys[..|ys| - 1];
      assert (xs + ys)[..|xs + ys| - 1] == xs + ys';
      SumByAppend(xs, ys', f);
    }
  }

  /** Taking one term out of a sum. */
  lemma SumByRemove<T>(ys: seq<T>, i: nat, f: T -> int)
    requires i < |ys|
    ensures SumBy(ys, f) == SumBy(ys[..i] + ys[i + 1..], f) + f(ys[i])
  {
    var x := ys[i];
    assert ys == ys[..i] + [x] + ys[i + 1..];
    SumByAppend(ys[..i], [x], f);
    SumByAppend(ys[..i] + [x], ys[i + 1..], f);
    SumByAppend(ys[..i], ys[i + 1..], f);
    assert SumBy([x], f) == f(x) by {
      assert [x][..0] == [];
    }
  }

  /** A sum does not depend on the order of its terms. */
  lemma {:induction false} SumByPermutation<T>(xs: seq<T>, ys: seq<T>, f: T -> int)
    requires multiset(xs) == multiset(ys)
    ensures SumBy(xs, f) == SumBy(ys, f)
    decreases |xs|
  {
    if xs != [] {
      var xs' := xs[..|xs| - 1];
      var x := xs[|xs| - 1];
      assert xs == xs' + [x];
      assert x in multiset(ys);
      var i :| 0 <= i < |ys| && ys[i] == x;
      var ys' := ys[..i] + ys[i + 1..];
      assert multiset(xs') == multiset(ys') by {
        assert ys == ys[..i] + [x] + ys[i + 1..];
        assert multiset(ys) == multiset(ys') + multiset{x};
        assert multiset(xs) == multiset(xs') + multiset{x};
        assert multiset(xs') == multiset(xs) - multiset{x} == multiset(ys) - multiset{x};
      }
      SumByPermutation(xs', ys', f);
      SumByRemove(ys, i, f);
    }
  }
}
