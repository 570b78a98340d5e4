/** Sorting by a key, the way Python's `sorted(..., key=...)` and pandas'
    `sort_values` order rows. A key is a sequence of integers compared
    element by element, like a Python tuple: strings become their code
    points, a count becomes a one-element key, "missing last" becomes a
    leading flag. */
module Sorting {
  import opened Seqs

  type Key = seq<int>

  /** Lexicographic order on keys; a proper prefix comes first. */
  predicate KeyLe(a: Key, b: Key)
    decreases |a|
  {
    |a| == 0 || (|b| > 0 && (a[0] < b[0] || (a[0] == b[0] && KeyLe(a[1..], b[1..]))))
  }

  lemma {:induction false} KeyLeReflexive(a: Key)
    ensures KeyLe(a, a)
    decreases |a|
  {
    if |a| > 0 {
      KeyLeReflexive(a[1..]);
    }
  }

  lemma {:induction false} KeyLeTotal(a: Key, b: Key)
    ensures KeyLe(a, b) || KeyLe(b, a)
    decreases |a|
  {
    if |a| > 0 && |b| > 0 && a[0] == b[0] {
      KeyLeTotal(a[1..], b[1..]);
    }
  }

  lemma {:induction false} KeyLeTransitive(a: Key, b: Key, c: Key)
    requires KeyLe(a, b) && KeyLe(b, c)
    ensures KeyLe(a, c)
    decreases |a|
  {
    if |a| > 0 && a[0] == b[0] && b[0] == c[0] {
      KeyLeTransitive(a[1..], b[1..], c[1..]);
    }
  }

  lemma {:induction false} KeyLeAntisymmetric(a: Key, b: Key)
    requires KeyLe(a, b) && KeyLe(b, a)
    ensures a == b
    decreases |a|
  {
    if |a| > 0 {
      KeyLeAntisymmetric(a[1..], b[1..]);
      assert a == [a[0]] + a[1..];
      assert b == [b[0]] + b[1..];
    }
  }

  /** Keys that differ in their first component are ordered by it. */
  lemma KeyLeHead(a: Key, b: Key)
    requires |a| > 0 && |b| > 0 && a[0] != b[0]
    ensures KeyLe(a, b) <==> a[0] < b[0]
  {
  }

  /** Every element's key is at most the key of every later element. */
  predicate SortedBy<T>(xs: seq<T>, key: T -> Key) {
    forall i, j :: 0 <= i < j < |xs| ==> KeyLe(key(xs[i]), key(xs[j]))
  }

  /** Inserts `x` before the first element whose key is not smaller, so an
      element inserted this way precedes the equal ones already present. */
  function Insert<T>(x: T, xs: seq<T>, key: T -> Key): (r: seq<T>)
    ensures multiset(r) == multiset(xs) + multiset{x}
    ensures |r| == |xs| + 1
    decreases |xs|
  {
    if xs == [] || KeyLe(key(x), key(xs[0])) then [x] + xs
    else
      assert xs == [xs[0]] + xs[1..];
      [xs[0]] + Insert(x, xs[1..], key)
  }

  /** A lower bound on the keys of `xs` and of `x` bounds the keys of the result. */
  lemma {:induction false} InsertBounded<T>(b: Key, x: T, xs: seq<T>, key: T -> Key)
    requires KeyLe(b, key(x))
    requires forall i :: 0 <= i < |xs| ==> KeyLe(b, key(xs[i]))
    ensures forall i :: 0 <= i < |Insert(x, xs, key)| ==> KeyLe(b, key(Insert(x, xs, key)[i]))
    decreases |xs|
  {
    if xs != [] && !KeyLe(key(x), key(xs[0])) {
      InsertBounded(b, x, xs[1..], key);
    }
  }

  lemma {:induction false} InsertSorted<T>(x: T, xs: seq<T>, key: T -> Key)
    requires SortedBy(xs, key)
    ensures SortedBy(Insert(x, xs, key), key)
    decreases |xs|
  {
    if xs == [] {
    } else if KeyLe(key(x), key(xs[0])) {
      forall j | 0 < j < |xs| ensures KeyLe(key(x), key(xs[j])) {
        KeyLeTransitive(key(x), key(xs[0]), key(xs[j]));
      }
    } else {
      var rest := Insert(x, xs[1..], key);
      InsertSorted(x, xs[1..], key);
      KeyLeTotal(key(x), key(xs[0]));
      InsertBounded(key(xs[0]), x, xs[1..], key);
      assert Insert(x, xs, key) == [xs[0]] + rest;
    }
  }

  lemma {:induction false} InsertDistinct<T>(x: T, xs: seq<T>, key: T -> Key)
    requires Distinct(xs) && x !in xs
    ensures Distinct(Insert(x, xs, key))
    decreases |xs|
  {
    if xs != [] && !KeyLe(key(x), key(xs[0])) {
      var rest := Insert(x, xs[1..], key);
      InsertDistinct(x, xs[1..], key);
      assert xs == [xs[0]] + xs[1..];
      assert xs[0] !in multiset(rest);
      assert Insert(x, xs, key) == [xs[0]] + rest;
    }
  }

  /** Stable insertion sort of `xs` by `key`. */
  function SortBy<T(==)>(xs: seq<T>, key: T -> Key): (r: seq<T>)
    ensures SortedBy(r, key)
    ensures multiset(r) == multiset(xs)
    ensures |r| == |xs|
    ensures Distinct(xs) ==> Distinct(r)
    decreases |xs|
  {
    if xs == [] then []
    else
      assert xs == [xs[0]] + xs[1..];
      var rest := SortBy(xs[1..], key);
      InsertSorted(xs[0], rest, key);
      assert Distinct(xs) ==> xs[0] !in multiset(rest);
      if Distinct(xs) then InsertDistinct(xs[0], rest, key); Insert(xs[0], rest, key)
      else Insert(xs[0], rest, key)
  }

  /** The elements of `xs` whose key is `k`, in their order in `xs`. */
  function WithKey<T>(xs: seq<T>, key: T -> Key, k: Key): seq<T>
    decreases |xs|
  {
    if xs == [] then []
    else (if key(xs[0]) == k then [xs[0]] else []) + WithKey(xs[1..], key, k)
  }

  /** Filtering by key, one element at a time. */
  lemma {:induction false} WithKeyCons<T>(y: T, ys: seq<T>, key: T -> Key, k: Key)
    ensures WithKey([y] + ys, key, k) == (if key(y) == k then [y] else []) + WithKey(ys, key, k)
  {
    assert ([y] + ys)[1..] == ys;
  }

  /** Inserting `x` puts it ahead of every element with the same key and
      leaves their order alone. */
  lemma {:induction false} InsertStable<T>(x: T, xs: seq<T>, key: T -> Key, k: Key)
    ensures WithKey(Insert(x, xs, key), key, k) == (if key(x) == k then [x] else []) + WithKey(xs, key, k)
    decreases |xs|
  {
    if xs == [] || KeyLe(key(x), key(xs[0])) {
      WithKeyCons(x, xs, key, k);
    } else {
      InsertStable(x, xs[1..], key, k);
      InsertPastStable(x, xs, key, k);
    }
  }

  /** The step of `InsertStable` where `x` moves past the smaller head of
      `xs`: that head's key differs from `x`'s. */
  lemma {:induction false} InsertPastStable<T>(x: T, xs: seq<T>, key: T -> Key, k: Key)
    requires xs != [] && !KeyLe(key(x), key(xs[0]))
    requires WithKey(Insert(x, xs[1..], key), key, k) == (if key(x) == k then [x] else []) + WithKey(xs[1..], key, k)
    ensures WithKey(Insert(x, xs, key), key, k) == (if key(x) == k then [x] else []) + WithKey(xs, key, k)
  {
    var mine := if key(x) == k then [x] else [];
    var rest := Insert(x, xs[1..], key);
    var tail := WithKey(xs[1..], key, k);
    var head := if key(xs[0]) == k then [xs[0]] else [];
    assert WithKey(Insert(x, xs, key), key, k) == head + (mine + tail) by {
      assert Insert(x, xs, key) == [xs[0]] + rest;
      WithKeyCons(xs[0], rest, key, k);
    }
    assert WithKey(xs, key, k) == head + tail by {
      assert xs == [xs[0]] + xs[1..];
      WithKeyCons(xs[0], xs[1..], key, k);
    }
    if key(x) == k {
      assert head == [] by {
        KeyLeReflexive(key(x));
      }
    } else {
      assert mine == [];
    }
  }

  /** `SortBy` is stable: elements with equal keys keep their relative
      order, as Python's `sorted` and `list.sort` promise. */
  lemma {:induction false} SortByStable<T>(xs: seq<T>, key: T -> Key, k: Key)
    ensures WithKey(SortBy(xs, key), key, k) == WithKey(xs, key, k)
    decreases |xs|
  {
    if xs != [] {
      SortByStable(xs[1..], key, k);
      InsertStable(xs[0], SortBy(xs[1..], key), key, k);
    }
  }

  /** The code points of a string: Python compares strings this way. */
  function Codes(s: string): (k: Key)
    ensures |k| == |s|
    ensures forall i :: 0 <= i < |s| ==> k[i] == s[i] as int
  {
    seq(|s|, i requires 0 <= i < |s| => s[i] as int)
  }

  /** Lower-cases the ASCII letters; every other character is kept. */
  function LowerChar(c: char): char {
    if 'A' <= c <= 'Z' then (c as int - 'A' as int + 'a' as int) as char else c
  }

  /** The key of `sorted(..., key=lambda x: x.lower())`. */
  function LowerKey(s: string): Key {
    seq(|s|, i requires 0 <= i < |s| => LowerChar(s[i]) as int)
  }
}
