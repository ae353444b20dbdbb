/** Python's `collections.Counter` as the models use it: `c[k] += v`, `c[k]`,
    `c.items()` in first-insertion order, `sum(c.values())` and `c.most_common(n)`. */
module Counters {
  import opened Sequences
  import opened Sorting

  /** The entries (key, count) of a Counter, in the order `items()` yields them. */
  type Counter<K> = seq<(K, int)>

  function Count<K>(e: (K, int)): int { e.1 }

  function Keys<K>(c: seq<(K, int)>): (ks: seq<K>)
    ensures |ks| == |c|
  {
    seq(|c|, i requires 0 <= i < |c| => c[i].0)
  }

  predicate DistinctKeys<K(==)>(c: Counter<K>)
  {
    Distinct(Keys(c))
  }

  /** `c[k]`: the count of k, 0 for a key never added. */
  function Get<K(==)>(c: Counter<K>, k: K): int
  {
    var i := IndexOf(Keys(c), k);
    if i < 0 then 0 else c[i].1
  }

  /** `c[k] += v`: updates the entry of k where it stands, or appends a new entry. */
  function Add<K(==)>(c: Counter<K>, k: K, v: int): (r: Counter<K>)
  {
    var i := IndexOf(Keys(c), k);
    if i < 0 then c + [(k, v)] else c[i := (k, c[i].1 + v)]
  }

  /** `sum(c.values())`, or the sum of the weights of a list of (key, weight) entries. */
  function Total<K>(c: seq<(K, int)>): int
  {
    if c == [] then 0 else Total(c[..|c| - 1]) + c[|c| - 1].1
  }

  /** Sum of the weights of the entries with key k. */
  function SumFor<K(==)>(es: seq<(K, int)>, k: K): int
  {
    if es == [] then 0
    else SumFor(es[..|es| - 1], k) + (if es[|es| - 1].0 == k then es[|es| - 1].1 else 0)
  }

  /** The Counter that `for k, v in es: c[k] += v` builds from an empty Counter. */
  function Tally<K(==)>(es: seq<(K, int)>): Counter<K>
  {
    if es == [] then [] else Add(Tally(es[..|es| - 1]), es[|es| - 1].0, es[|es| - 1].1)
  }

  /** One unit entry per element: `for x in xs: c[x] += 1`. */
  function Ones<K>(xs: seq<K>): (es: seq<(K, int)>)
    ensures |es| == |xs|
  {
    seq(|xs|, i requires 0 <= i < |xs| => (xs[i], 1))
  }

  /** `c.most_common(n)`: the n entries of largest count, ties in insertion order. */
  function MostCommon<K>(c: Counter<K>, n: nat): (r: Counter<K>)
    ensures |r| == Min(n, |c|)
  {
    TopDesc(c, Count, n)
  }

  // ---------------------------------------------------------------- Add

  /** Adding to a key already present keeps the key order; a new key goes last. */
  lemma AddKeys<K>(c: Counter<K>, k: K, v: int)
    ensures Keys(Add(c, k, v)) == if k in Keys(c) then Keys(c) else Keys(c) + [k]
  {
    var i := IndexOf(Keys(c), k);
    if i >= 0 {
      assert Keys(c[i := (k, c[i].1 + v)]) == Keys(c);
    } else {
      assert Keys(c + [(k, v)]) == Keys(c) + [k];
    }
  }

  lemma IndexOfSnoc<K>(s: seq<K>, y: K, x: K)
    ensures IndexOf(s + [y], x) == if x in s then IndexOf(s, x) else if x == y then |s| else -1
  {
    var r := IndexOf(s + [y], x);
    if x in s {
      var i := IndexOf(s, x);
      assert (s + [y])[i] == x;
      assert forall j :: 0 <= j < i ==> (s + [y])[j] == s[j];
    } else if x == y {
      assert (s + [y])[|s|] == x;
    } else {
      assert x !in s + [y];
    }
  }

  /** `c[k] += v` changes the count of k by v and no other count. */
  lemma AddGet<K>(c: Counter<K>, k: K, v: int, j: K)
    ensures Get(Add(c, k, v), j) == Get(c, j) + (if j == k then v else 0)
  {
    var i := IndexOf(Keys(c), k);
    AddKeys(c, k, v);
    if i < 0 {
      IndexOfSnoc(Keys(c), k, j);
    }
  }

  lemma {:induction false} TotalUpdate<K>(c: seq<(K, int)>, i: nat, e: (K, int))
    requires i < |c|
    ensures Total(c[i := e]) == Total(c) - c[i].1 + e.1
  {
    var c' := c[..|c| - 1];
    if i < |c| - 1 {
      TotalUpdate(c', i, e);
      assert c[i := e][..|c| - 1] == c'[i := e];
    } else {
      assert c[i := e][..|c| - 1] == c';
    }
  }

  lemma {:induction false} TotalAppend<K>(a: seq<(K, int)>, b: seq<(K, int)>)
    ensures Total(a + b) == Total(a) + Total(b)
    decreases |b|
  {
    if b == [] {
      assert a + b == a;
    } else {
      assert (a + b)[..|a + b| - 1] == a + b[..|b| - 1];
      TotalAppend(a, b[..|b| - 1]);
    }
  }

  /** `c[k] += v` raises the sum of all counts by v. */
  lemma AddTotal<K>(c: Counter<K>, k: K, v: int)
    ensures Total(Add(c, k, v)) == Total(c) + v
  {
    var i := IndexOf(Keys(c), k);
    if i < 0 {
      assert (c + [(k, v)])[..|c|] == c;
    } else {
      TotalUpdate(c, i, (k, c[i].1 + v));
    }
  }

  // ---------------------------------------------------------------- Tally

  lemma KeysSnoc<K>(es: seq<(K, int)>)
    requires es != []
    ensures Keys(es) == Keys(es[..|es| - 1]) + [es[|es| - 1].0]
  {
  }

  /** Keys are kept in first-seen order, each once. */
  lemma {:induction false} TallyKeys<K>(es: seq<(K, int)>)
    ensures Keys(Tally(es)) == Dedup(Keys(es))
    ensures DistinctKeys(Tally(es))
  {
    if es != [] {
      var es' := es[..|es| - 1];
      TallyKeys(es');
      KeysSnoc(es);
      assert Keys(es)[..|es| - 1] == Keys(es');
      AddKeys(Tally(es'), es[|es| - 1].0, es[|es| - 1].1);
    }
  }

  /** The count of every key is the sum of the weights added under it. */
  lemma {:induction false} TallyGet<K>(es: seq<(K, int)>, k: K)
    ensures Get(Tally(es), k) == SumFor(es, k)
  {
    if es != [] {
      TallyGet(es[..|es| - 1], k);
      AddGet(Tally(es[..|es| - 1]), es[|es| - 1].0, es[|es| - 1].1, k);
    }
  }

  /** Tallying keeps the grand total. */
  lemma {:induction false} TallyTotal<K>(es: seq<(K, int)>)
    ensures Total(Tally(es)) == Total(es)
  {
    if es != [] {
      TallyTotal(es[..|es| - 1]);
      AddTotal(Tally(es[..|es| - 1]), es[|es| - 1].0, es[|es| - 1].1);
    }
  }

  /** The last step of a tally, in the form loop invariants use. */
  lemma TallySnoc<K>(es: seq<(K, int)>, e: (K, int))
    ensures Tally(es + [e]) == Add(Tally(es), e.0, e.1)
  {
    assert (es + [e])[..|es|] == es;
  }

  lemma {:induction false} SumForAppend<K>(a: seq<(K, int)>, b: seq<(K, int)>, k: K)
    ensures SumFor(a + b, k) == SumFor(a, k) + SumFor(b, k)
    decreases |b|
  {
    if b == [] {
      assert a + b == a;
    } else {
      assert (a + b)[..|a + b| - 1] == a + b[..|b| - 1];
      SumForAppend(a, b[..|b| - 1], k);
    }
  }

  /** Tallying two lists one after the other adds their counts key by key, so
      the counts do not depend on the order in which the lists are tallied. */
  lemma TallyAppend<K>(a: seq<(K, int)>, b: seq<(K, int)>, k: K)
    ensures Get(Tally(a + b), k) == Get(Tally(a), k) + Get(Tally(b), k)
    ensures Get(Tally(a + b), k) == Get(Tally(b + a), k)
  {
    TallyGet(a + b, k);
    TallyGet(b + a, k);
    TallyGet(a, k);
    TallyGet(b, k);
    SumForAppend(a, b, k);
    SumForAppend(b, a, k);
  }

  /** `for k, v in es: c[k] += v`, continuing a tally of before. */
  method AddEach<K(==)>(c: Counter<K>, ghost before: seq<(K, int)>, es: seq<(K, int)>) returns (c': Counter<K>)
    requires c == Tally(before)
    ensures c' == Tally(before + es)
  {
    c' := c;
    var i := 0;
    assert before + es[..0] == before;
    while i < |es|
      invariant 0 <= i <= |es|
      invariant c' == Tally(before + es[..i])
    {
      TallySnoc(before + es[..i], es[i]);
      assert before + es[..i + 1] == before + es[..i] + [es[i]];
      c' := Add(c', es[i].0, es[i].1);
      i := i + 1;
    }
    assert es[..|es|] == es;
  }

  /** With unit weights the count of x is its number of occurrences. */
  lemma {:induction false} OnesSumFor<K>(xs: seq<K>, k: K)
    ensures SumFor(Ones(xs), k) == multiset(xs)[k]
  {
    if xs != [] {
      var xs' := xs[..|xs| - 1];
      OnesSumFor(xs', k);
      assert Ones(xs)[..|xs| - 1] == Ones(xs');
      assert xs == xs' + [xs[|xs| - 1]];
    }
  }

  /** Counting one per occurrence: counts are occurrence numbers, all at least 1,
      and they add up to the number of elements. */
  lemma TallyOnes<K>(xs: seq<K>)
    ensures forall k :: Get(Tally(Ones(xs)), k) == multiset(xs)[k]
    ensures Total(Tally(Ones(xs))) == |xs|
    ensures |Tally(Ones(xs))| == |Elems(xs)|
  {
    forall k
      ensures Get(Tally(Ones(xs)), k) == multiset(xs)[k]
    {
      TallyGet(Ones(xs), k);
      OnesSumFor(xs, k);
    }
    TallyTotal(Ones(xs));
    OnesTotal(xs);
    TallyKeys(Ones(xs));
    assert Keys(Ones(xs)) == xs;
    DistinctCard(Dedup(xs));
  }

  lemma OnesAppend<K>(a: seq<K>, b: seq<K>)
    ensures Ones(a + b) == Ones(a) + Ones(b)
  {
    assert forall i :: 0 <= i < |a + b| ==> Ones(a + b)[i] == (Ones(a) + Ones(b))[i];
  }

  /** Counting one more item adds one to its count. */
  lemma TallyOnesSnoc<K>(xs: seq<K>, x: K)
    ensures Tally(Ones(xs + [x])) == Add(Tally(Ones(xs)), x, 1)
  {
    OnesAppend(xs, [x]);
    TallySnoc(Ones(xs), (x, 1));
  }

  lemma {:induction false} OnesTotal<K>(xs: seq<K>)
    ensures Total(Ones(xs)) == |xs|
  {
    if xs != [] {
      OnesTotal(xs[..|xs| - 1]);
      assert Ones(xs)[..|xs| - 1] == Ones(xs[..|xs| - 1]);
    }
  }

  /** Adding only positive weights leaves every stored count positive. */
  lemma {:induction false} TallyPositive<K>(es: seq<(K, int)>)
    requires forall i :: 0 <= i < |es| ==> es[i].1 > 0
    ensures forall i :: 0 <= i < |Tally(es)| ==> Tally(es)[i].1 > 0
  {
    if es != [] {
      var es' := es[..|es| - 1];
      TallyPositive(es');
    }
  }

  lemma GetMember<K>(c: Counter<K>, i: nat)
    requires DistinctKeys(c) && i < |c|
    ensures Get(c, c[i].0) == c[i].1
  {
    assert Keys(c)[i] == c[i].0;
  }

  // ---------------------------------------------------------------- most_common

  function Fst<K>(e: (K, int)): K { e.0 }

  lemma KeysMapSeq<K>(c: seq<(K, int)>)
    ensures Keys(c) == MapSeq(c, Fst)
  {
    forall i | 0 <= i < |c|
      ensures Keys(c)[i] == MapSeq(c, Fst)[i]
    {
      MapSeqAt(c, Fst, i);
    }
  }

  /** Sorting by count keeps the keys distinct. */
  lemma SortDescDistinctKeys<K>(c: Counter<K>)
    requires DistinctKeys(c)
    ensures DistinctKeys(SortDesc(c, Count))
  {
    var r := SortDesc(c, Count);
    KeysMapSeq(c);
    KeysMapSeq(r);
    SortDescProjection(c, Count, Fst);
    DistinctMultiset(Keys(c));
    DistinctMultiset(Keys(r));
  }

  /** `most_common(n)` of a counter lists distinct keys of the counter, each with
      its own count, ordered by non-increasing count. */
  lemma MostCommonEntries<K>(c: Counter<K>, n: nat)
    requires DistinctKeys(c)
    ensures var t := MostCommon(c, n);
      SortedDesc(t, Count) && DistinctKeys(t)
      && forall i :: 0 <= i < |t| ==> t[i].0 in Keys(c) && Get(c, t[i].0) == t[i].1
  {
    var t := MostCommon(c, n);
    var r := SortDesc(c, Count);
    TopDescSorted(c, Count, n);
    SortDescDistinctKeys(c);
    assert forall i :: 0 <= i < |t| ==> Keys(t)[i] == Keys(r)[i];
    forall i | 0 <= i < |t|
      ensures t[i].0 in Keys(c) && Get(c, t[i].0) == t[i].1
    {
      assert t[i] in multiset(t);
      var j :| 0 <= j < |c| && c[j] == t[i];
      assert Keys(c)[j] == t[i].0;
      GetMember(c, j);
    }
  }

  /** No key that `most_common(n)` leaves out has a larger count than one it keeps,
      and when the counter has at most n keys none is left out. */
  lemma MostCommonTop<K>(c: Counter<K>, n: nat)
    requires DistinctKeys(c)
    ensures var t := MostCommon(c, n);
      forall i, k :: 0 <= i < |t| && k in Keys(c) && k !in Keys(t) ==> Get(c, k) <= t[i].1
    ensures |c| <= n ==> forall k :: k in Keys(c) ==> k in Keys(MostCommon(c, n))
  {
    var t := MostCommon(c, n);
    forall i, k | 0 <= i < |t| && k in Keys(c) && k !in Keys(t)
      ensures Get(c, k) <= t[i].1
    {
      var j :| 0 <= j < |c| && Keys(c)[j] == k;
      GetMember(c, j);
      forall l | 0 <= l < |t|
        ensures t[l] != c[j]
      {
        assert Keys(t)[l] == t[l].0;
      }
      assert c[j] in multiset(c) && c[j] !in multiset(t);
      assert c[j] in multiset(c) - multiset(t);
      TopDescTop(c, Count, n, t[i], c[j]);
    }
    if |c| <= n {
      SortDescMultiset(c, Count);
      assert t == SortDesc(c, Count);
      forall k | k in Keys(c)
        ensures k in Keys(t)
      {
        var j :| 0 <= j < |c| && Keys(c)[j] == k;
        assert c[j] in multiset(t);
        var l :| 0 <= l < |t| && t[l] == c[j];
        assert Keys(t)[l] == k;
      }
    }
  }
}
