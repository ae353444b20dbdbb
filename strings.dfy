/** String operations the Python code relies on: `<` on `str`, `tuple(sorted((a, b)))`,
    `sorted()` of a set of names, `str.strip()` and `str.find(sub, start)`. */
module Strings {
  import opened Sequences

  /** Python's `a < b` on `str`: lexicographic by code point, a proper prefix first. */
  predicate StrLess(a: string, b: string)
  {
    if a == [] then b != []
    else if b == [] then false
    else if a[0] == b[0] then StrLess(a[1..], b[1..])
    else a[0] < b[0]
  }

  lemma {:induction false} StrLessIrreflexive(a: string)
    ensures !StrLess(a, a)
  {
    if a != [] {
      StrLessIrreflexive(a[1..]);
    }
  }

  lemma {:induction false} StrLessAsymmetric(a: string, b: string)
    ensures !(StrLess(a, b) && StrLess(b, a))
  {
    if a != [] && b != [] && a[0] == b[0] {
      StrLessAsymmetric(a[1..], b[1..]);
    }
  }

  lemma {:induction false} StrLessTransitive(a: string, b: string, c: string)
    requires StrLess(a, b) && StrLess(b, c)
    ensures StrLess(a, c)
  {
    if a != [] && b != [] && c != [] && a[0] == b[0] && b[0] == c[0] {
      StrLessTransitive(a[1..], b[1..], c[1..]);
    }
  }

  /** Distinct strings are comparable. */
  lemma {:induction false} StrLessTotal(a: string, b: string)
    requires a != b
    ensures StrLess(a, b) || StrLess(b, a)
  {
    if a != [] && b != [] && a[0] == b[0] {
      assert a == [a[0]] + a[1..] && b == [b[0]] + b[1..];
      StrLessTotal(a[1..], b[1..]);
    }
  }

  /** `tuple(sorted((a, b)))`: the pair with its smaller string first. */
  function SortedPair(a: string, b: string): (p: (string, string))
  {
    if StrLess(b, a) then (b, a) else (a, b)
  }

  /** SortedPair is the canonical key of an unordered pair: it is ordered, it holds
      the same two strings, and two pairs get the same key exactly when they are
      equal up to order. */
  lemma SortedPairKey(a: string, b: string, x: string, y: string)
    ensures var p := SortedPair(a, b); p.0 == p.1 || StrLess(p.0, p.1)
    ensures SortedPair(a, b) == SortedPair(x, y) <==> (a == x && b == y) || (a == y && b == x)
  {
    if a != b {
      StrLessTotal(a, b);
    }
    if x != y {
      StrLessTotal(x, y);
    }
    StrLessAsymmetric(a, b);
    StrLessAsymmetric(x, y);
  }

  // ---------------------------------------------------------------- sorted(set)

  predicate Increasing(s: seq<string>)
  {
    forall i, j :: 0 <= i < j < |s| ==> StrLess(s[i], s[j])
  }

  function InsertStr(t: seq<string>, x: string): (r: seq<string>)
    ensures |r| == |t| + 1
    ensures multiset(r) == multiset(t) + multiset{x}
  {
    if t == [] || !StrLess(x, t[|t| - 1]) then t + [x]
    else
      var t' := t[..|t| - 1];
      assert t == t' + [t[|t| - 1]];
      InsertStr(t', x) + [t[|t| - 1]]
  }

  /** `sorted(names)` for a list of names, ascending by code point. */
  function SortStrings(s: seq<string>): (r: seq<string>)
    ensures multiset(r) == multiset(s)
  {
    if s == [] then []
    else
      assert s == s[..|s| - 1] + [s[|s| - 1]];
      InsertStr(SortStrings(s[..|s| - 1]), s[|s| - 1])
  }

  lemma {:induction false} InsertStrIncreasing(t: seq<string>, x: string)
    requires Increasing(t) && x !in t
    ensures Increasing(InsertStr(t, x))
  {
    if t == [] {
    } else if !StrLess(x, t[|t| - 1]) {
      var last := t[|t| - 1];
      assert x != last;
      StrLessTotal(x, last);
      forall i | 0 <= i < |t| - 1
        ensures StrLess(t[i], x)
      {
        StrLessTransitive(t[i], last, x);
      }
    } else {
      var t', last := t[..|t| - 1], t[|t| - 1];
      InsertStrIncreasing(t', x);
      var u := InsertStr(t', x);
      forall i | 0 <= i < |u|
        ensures StrLess(u[i], last)
      {
        assert u[i] in multiset(u);
        if u[i] != x {
          var j :| 0 <= j < |t'| && t'[j] == u[i];
          assert t[j] == u[i];
        }
      }
    }
  }

  /** Sorting distinct names gives them in strictly increasing order. */
  lemma {:induction false} SortStringsIncreasing(s: seq<string>)
    requires Distinct(s)
    ensures Increasing(SortStrings(s))
  {
    if s != [] {
      var s', x := s[..|s| - 1], s[|s| - 1];
      SortStringsIncreasing(s');
      assert x !in multiset(s');
      InsertStrIncreasing(SortStrings(s'), x);
    }
  }

  // ---------------------------------------------------------------- combinations

  /** `[(x, y) for y in ys]` */
  function PairWith(x: string, ys: seq<string>): (ps: seq<(string, string)>)
    ensures |ps| == |ys|
  {
    if ys == [] then [] else [(x, ys[0])] + PairWith(x, ys[1..])
  }

  /** `itertools.combinations(l, 2)`: pairs of positions i < j, in lexicographic order. */
  function Combinations(l: seq<string>): seq<(string, string)>
  {
    if |l| < 2 then [] else PairWith(l[0], l[1..]) + Combinations(l[1..])
  }

  /** There are k(k-1)/2 pairs of k names. */
  lemma {:induction false} CombinationsLength(l: seq<string>)
    ensures 2 * |Combinations(l)| == |l| * (|l| - 1)
  {
    if |l| >= 2 {
      CombinationsLength(l[1..]);
      assert |l| * (|l| - 1) == 2 * (|l| - 1) + (|l| - 1) * (|l| - 2);
    }
  }

  lemma {:induction false} PairWithCount(x: string, ys: seq<string>, a: string, b: string)
    requires Distinct(ys)
    ensures multiset(PairWith(x, ys))[(a, b)] == if a == x && b in ys then 1 else 0
  {
    if ys != [] {
      PairWithCount(x, ys[1..], a, b);
      assert ys == [ys[0]] + ys[1..];
      assert ys[0] !in ys[1..];
    }
  }

  lemma IncreasingDistinct(l: seq<string>)
    requires Increasing(l)
    ensures Distinct(l)
  {
    forall i, j | 0 <= i < j < |l|
      ensures l[i] != l[j]
    {
      StrLessIrreflexive(l[i]);
    }
  }

  /** The head of an increasing list is below everything after it. */
  lemma IncreasingHead(l: seq<string>, x: string)
    requires Increasing(l) && l != [] && x in l[1..]
    ensures StrLess(l[0], x) && x != l[0]
  {
    var i :| 0 <= i < |l[1..]| && l[1..][i] == x;
    assert l[i + 1] == x;
    StrLessIrreflexive(x);
  }

  /** On an increasing list of names, each ordered pair of its names occurs once. */
  lemma {:induction false} CombinationsCount(l: seq<string>, a: string, b: string)
    requires Increasing(l)
    ensures multiset(Combinations(l))[(a, b)] == if a in l && b in l && StrLess(a, b) then 1 else 0
  {
    StrLessIrreflexive(a);
    if |l| >= 2 {
      var rest := l[1..];
      assert l == [l[0]] + rest;
      assert Increasing(rest);
      IncreasingDistinct(rest);
      PairWithCount(l[0], rest, a, b);
      CombinationsCount(rest, a, b);
      if a in rest {
        IncreasingHead(l, a);
      }
      if b in rest {
        IncreasingHead(l, b);
      }
      StrLessAsymmetric(a, b);
    }
  }

  // ---------------------------------------------------------------- strip and find

  /** The characters Python's `str.isspace()` accepts. */
  predicate IsSpace(c: char)
  {
    || ('\t' <= c <= '\r')
    || ('\U{1C}' <= c <= ' ')
    || c == '\U{85}' || c == '\U{A0}' || c == '\U{1680}'
    || ('\U{2000}' <= c <= '\U{200A}')
    || c == '\U{2028}' || c == '\U{2029}' || c == '\U{202F}' || c == '\U{205F}' || c == '\U{3000}'
  }

  /** The bounds [lo, hi) that `str.strip()` keeps: every character outside them
      is whitespace, and a non-empty kept part starts and ends with a non-space. */
  function StripBounds(s: string): (b: (nat, nat))
    ensures b.0 <= b.1 <= |s|
    ensures forall k :: 0 <= k < b.0 ==> IsSpace(s[k])
    ensures forall k :: b.1 <= k < |s| ==> IsSpace(s[k])
    ensures b.0 < b.1 ==> !IsSpace(s[b.0]) && !IsSpace(s[b.1 - 1])
  {
    var lo := LeadingSpaces(s, 0);
    (lo, TrailingEnd(s, lo, |s|))
  }

  /** First index at or after i holding a non-space, or |s|. */
  function LeadingSpaces(s: string, i: nat): (lo: nat)
    requires i <= |s|
    ensures i <= lo <= |s|
    ensures forall k :: i <= k < lo ==> IsSpace(s[k])
    ensures lo < |s| ==> !IsSpace(s[lo])
    decreases |s| - i
  {
    if i == |s| || !IsSpace(s[i]) then i else LeadingSpaces(s, i + 1)
  }

  /** Least hi >= lo such that s[hi..j] is all whitespace. */
  function TrailingEnd(s: string, lo: nat, j: nat): (hi: nat)
    requires lo <= j <= |s|
    ensures lo <= hi <= j
    ensures forall k :: hi <= k < j ==> IsSpace(s[k])
    ensures hi > lo ==> !IsSpace(s[hi - 1])
    decreases j
  {
    if j == lo || !IsSpace(s[j - 1]) then j else TrailingEnd(s, lo, j - 1)
  }

  /** `s.strip()` */
  function Strip(s: string): (r: string)
    ensures |r| <= |s|
  {
    s[StripBounds(s).0..StripBounds(s).1]
  }

  /** `s.find(c, start)`: the first index at or after start holding c, or -1. */
  function FindFrom(s: string, c: char, start: nat): (i: int)
    ensures i == -1 || start <= i < |s|
    ensures i >= 0 ==> s[i] == c && forall k :: start <= k < i ==> s[k] != c
    ensures i == -1 ==> forall k :: start <= k < |s| ==> s[k] != c
    decreases |s| - start
  {
    if start >= |s| then -1
    else if s[start] == c then start
    else FindFrom(s, c, start + 1)
  }
}
