/** Stable descending sort by an integer key: the ordering that Python's
    `sorted(items, key=..., reverse=True)` and `Counter.most_common` produce and
    that a stable `Array.prototype.sort` with comparator `b.key - a.key` produces.
    Elements with equal keys keep their input order. */
module Sorting {
  import opened Sequences

  predicate SortedDesc<T>(s: seq<T>, key: T -> int)
  {
    forall i, j :: 0 <= i < j < |s| ==> key(s[i]) >= key(s[j])
  }

  /** Inserts x into t behind every element whose key is at least key(x). */
  function Insert<T>(t: seq<T>, x: T, key: T -> int): (r: seq<T>)
    ensures |r| == |t| + 1
    decreases |t|
  {
    if t == [] || key(t[|t| - 1]) >= key(x) then t + [x]
    else Insert(t[..|t| - 1], x, key) + [t[|t| - 1]]
  }

  /** Insertion sort, one input element at a time from the left. */
  function SortDesc<T>(s: seq<T>, key: T -> int): (r: seq<T>)
    ensures |r| == |s|
  {
    if s == [] then [] else Insert(SortDesc(s[..|s| - 1], key), s[|s| - 1], key)
  }

  /** The n elements of largest key, ties in input order: `sorted(s, reverse=True)[:n]`. */
  function TopDesc<T>(s: seq<T>, key: T -> int, n: nat): (r: seq<T>)
    ensures |r| == Min(n, |s|)
  {
    Take(SortDesc(s, key), n)
  }

  /** The elements of s whose key equals v, in order. */
  function Filter<T>(s: seq<T>, key: T -> int, v: int): seq<T>
  {
    if s == [] then []
    else Filter(s[..|s| - 1], key, v) + (if key(s[|s| - 1]) == v then [s[|s| - 1]] else [])
  }

  lemma {:induction false} FilterAppend<T>(a: seq<T>, b: seq<T>, key: T -> int, v: int)
    ensures Filter(a + b, key, v) == Filter(a, key, v) + Filter(b, key, v)
    decreases |b|
  {
    if b == [] {
      assert a + b == a;
    } else {
      var b' := b[..|b| - 1];
      assert (a + b)[..|a + b| - 1] == a + b';
      FilterAppend(a, b', key, v);
    }
  }

  /** Filtering a prefix gives a prefix of the filtered list. */
  lemma {:induction false} FilterPrefix<T>(s: seq<T>, n: nat, key: T -> int, v: int)
    requires n <= |s|
    ensures Filter(s[..n], key, v) <= Filter(s, key, v)
  {
    assert s == s[..n] + s[n..];
    FilterAppend(s[..n], s[n..], key, v);
  }

  lemma {:induction false} InsertMultiset<T>(t: seq<T>, x: T, key: T -> int)
    ensures multiset(Insert(t, x, key)) == multiset(t) + multiset{x}
    decreases |t|
  {
    if t == [] || key(t[|t| - 1]) >= key(x) {
    } else {
      var t' := t[..|t| - 1];
      InsertMultiset(t', x, key);
      assert t == t' + [t[|t| - 1]];
    }
  }

  lemma {:induction false} InsertSorted<T>(t: seq<T>, x: T, key: T -> int)
    requires SortedDesc(t, key)
    ensures SortedDesc(Insert(t, x, key), key)
    decreases |t|
  {
    if t == [] || key(t[|t| - 1]) >= key(x) {
    } else {
      var t', last := t[..|t| - 1], t[|t| - 1];
      InsertSorted(t', x, key);
      var u := Insert(t', x, key);
      InsertMultiset(t', x, key);
      forall i | 0 <= i < |u|
        ensures key(u[i]) >= key(last)
      {
        assert u[i] in multiset(u);
        if u[i] != x {
          assert u[i] in multiset(t');
          var j :| 0 <= j < |t'| && t'[j] == u[i];
          assert t[j] == u[i];
        }
      }
    }
  }

  /** Inserting x adds it at the end of its key class and disturbs no other class. */
  lemma {:induction false} InsertFilter<T>(t: seq<T>, x: T, key: T -> int, v: int)
    ensures Filter(Insert(t, x, key), key, v) == Filter(t, key, v) + (if key(x) == v then [x] else [])
    decreases |t|
  {
    if t == [] || key(t[|t| - 1]) >= key(x) {
      FilterAppend(t, [x], key, v);
      assert [x][..0] == [];
    } else {
      var t', last := t[..|t| - 1], t[|t| - 1];
      InsertFilter(t', x, key, v);
      var u := Insert(t', x, key);
      assert (u + [last])[..|u|] == u;
      assert Filter(u + [last], key, v)
          == Filter(t', key, v) + (if key(x) == v then [x] else []) + (if key(last) == v then [last] else []);
    }
  }

  /** The sort is ordered by non-increasing key. */
  lemma {:induction false} SortDescSorted<T>(s: seq<T>, key: T -> int)
    ensures SortedDesc(SortDesc(s, key), key)
  {
    if s != [] {
      SortDescSorted(s[..|s| - 1], key);
      InsertSorted(SortDesc(s[..|s| - 1], key), s[|s| - 1], key);
    }
  }

  /** The sort is a permutation of its input. */
  lemma {:induction false} SortDescMultiset<T>(s: seq<T>, key: T -> int)
    ensures multiset(SortDesc(s, key)) == multiset(s)
  {
    if s != [] {
      SortDescMultiset(s[..|s| - 1], key);
      InsertMultiset(SortDesc(s[..|s| - 1], key), s[|s| - 1], key);
      assert s == s[..|s| - 1] + [s[|s| - 1]];
    }
  }

  /** The sort is stable: within each key value the input order is kept. */
  lemma {:induction false} SortDescStable<T>(s: seq<T>, key: T -> int, v: int)
    ensures Filter(SortDesc(s, key), key, v) == Filter(s, key, v)
  {
    if s != [] {
      SortDescStable(s[..|s| - 1], key, v);
      InsertFilter(SortDesc(s[..|s| - 1], key), s[|s| - 1], key, v);
    }
  }

  /** A projection of the sort is a permutation of the projected input. */
  lemma {:induction false} InsertProjection<T, U>(t: seq<T>, x: T, key: T -> int, f: T -> U)
    ensures multiset(MapSeq(Insert(t, x, key), f)) == multiset(MapSeq(t, f)) + multiset{f(x)}
    decreases |t|
  {
    if t == [] || key(t[|t| - 1]) >= key(x) {
      assert (t + [x])[..|t|] == t;
      assert MapSeq(Insert(t, x, key), f) == MapSeq(t, f) + [f(x)];
    } else {
      var t', last := t[..|t| - 1], t[|t| - 1];
      var u := Insert(t', x, key);
      InsertProjection(t', x, key, f);
      assert Insert(t, x, key) == u + [last];
      assert (u + [last])[..|u|] == u;
      assert MapSeq(u + [last], f) == MapSeq(u, f) + [f(last)];
      assert MapSeq(t, f) == MapSeq(t', f) + [f(last)];
    }
  }

  lemma {:induction false} SortDescProjection<T, U>(s: seq<T>, key: T -> int, f: T -> U)
    ensures multiset(MapSeq(SortDesc(s, key), f)) == multiset(MapSeq(s, f))
  {
    if s != [] {
      var s', x := s[..|s| - 1], s[|s| - 1];
      SortDescProjection(s', key, f);
      InsertProjection(SortDesc(s', key), x, key, f);
      assert SortDesc(s, key) == Insert(SortDesc(s', key), x, key);
      assert MapSeq(s, f) == MapSeq(s', f) + [f(x)];
    }
  }

  /** TopDesc is ordered by non-increasing key and is drawn from its input. */
  lemma TopDescSorted<T>(s: seq<T>, key: T -> int, n: nat)
    ensures SortedDesc(TopDesc(s, key, n), key)
    ensures multiset(TopDesc(s, key, n)) <= multiset(s)
  {
    var r := SortDesc(s, key);
    SortDescSorted(s, key);
    SortDescMultiset(s, key);
    assert r == r[..Min(n, |s|)] + r[Min(n, |s|)..];
  }

  /** TopDesc keeps ties in input order. */
  lemma TopDescStable<T>(s: seq<T>, key: T -> int, n: nat, v: int)
    ensures Filter(TopDesc(s, key, n), key, v) <= Filter(s, key, v)
  {
    FilterPrefix(SortDesc(s, key), Min(n, |s|), key, v);
    SortDescStable(s, key, v);
  }

  /** No element that TopDesc drops outranks one that it keeps. */
  lemma TopDescTop<T>(s: seq<T>, key: T -> int, n: nat, x: T, y: T)
    requires x in TopDesc(s, key, n)
    requires y in multiset(s) - multiset(TopDesc(s, key, n))
    ensures key(x) >= key(y)
  {
    var r := SortDesc(s, key);
    var k := Min(n, |s|);
    SortDescSorted(s, key);
    SortDescMultiset(s, key);
    assert r == r[..k] + r[k..];
    assert y in multiset(r[k..]);
    var i :| 0 <= i < k && r[i] == x;
    var j :| 0 <= j < |r[k..]| && r[k..][j] == y;
    assert r[k + j] == y;
  }

  /** Moves a[i] left past the elements of smaller key: one step of insertion sort. */
  method InsertInPlace<T>(a: array<T>, i: nat, key: T -> int)
    requires i < a.Length
    modifies a
    ensures a[..i + 1] == Insert(old(a[..i]), old(a[i]), key)
    ensures a[i + 1..] == old(a[i + 1..])
  {
    ghost var t := a[..i];
    var x := a[i];
    var j := ShiftRight(a, i, x, key, t);
    a[j] := x;
    ghost var r := t[..j] + [x] + t[j..];
    forall k | 0 <= k <= i
      ensures a[k] == r[k]
    {
      if k < j {
        assert r[k] == t[k];
      } else if k > j {
        assert r[k] == t[k - 1];
      }
    }
    assert a[..i + 1] == r;
  }

  /** Shifts the elements of a[..i] whose key is below key(x) one place right and
      returns the hole left for x. */
  method ShiftRight<T>(a: array<T>, i: nat, x: T, key: T -> int, ghost t: seq<T>) returns (j: nat)
    requires i < a.Length && t == a[..i]
    modifies a
    ensures j <= i
    ensures forall k :: 0 <= k < j ==> a[k] == t[k]
    ensures forall k :: j < k <= i ==> a[k] == t[k - 1]
    ensures forall k :: i < k < a.Length ==> a[k] == old(a[k])
    ensures Insert(t, x, key) == t[..j] + [x] + t[j..]
  {
    j := i;
    while j > 0 && key(a[j - 1]) < key(x)
      invariant 0 <= j <= i
      invariant forall k :: 0 <= k < j ==> a[k] == t[k]
      invariant forall k :: j < k <= i ==> a[k] == t[k - 1]
      invariant forall k :: i < k < a.Length ==> a[k] == old(a[k])
      invariant forall k :: j <= k < i ==> key(t[k]) < key(x)
    {
      a[j] := a[j - 1];
      j := j - 1;
    }
    InsertAt(t, j, x, key);
  }

  /** Inserting x into t places it at j when t[..j] ends with a key at least key(x)
      and every key of t[j..] is below key(x). */
  lemma {:induction false} InsertAt<T>(t: seq<T>, j: nat, x: T, key: T -> int)
    requires j <= |t| && (j == 0 || key(t[j - 1]) >= key(x))
    requires forall k :: j <= k < |t| ==> key(t[k]) < key(x)
    ensures Insert(t, x, key) == t[..j] + [x] + t[j..]
    decreases |t|
  {
    if j < |t| {
      var t', last := t[..|t| - 1], t[|t| - 1];
      InsertAt(t', j, x, key);
      assert t'[..j] == t[..j];
      assert t[j..] == t'[j..] + [last];
    }
  }

  /** SortInPlace: the in-place stable sort of an array by non-increasing key. */
  method SortInPlace<T>(a: array<T>, key: T -> int)
    modifies a
    ensures a[..] == SortDesc(old(a[..]), key)
  {
    ghost var s := a[..];
    var i := 0;
    while i < a.Length
      invariant 0 <= i <= a.Length
      invariant a[..i] == SortDesc(s[..i], key)
      invariant a[i..] == s[i..]
    {
      assert a[i] == s[i];
      InsertInPlace(a, i, key);
      assert s[..i + 1][..i] == s[..i];
      i := i + 1;
    }
    assert s[..a.Length] == s;
  }
}
