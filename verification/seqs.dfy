/**
 * The array operations the components use on their in-memory lists:
 * `Array.prototype.filter`, a stable descending `sort` by an integer key, and
 * `reduce` sums, together with the facts the components rely on.
 */
module Seqs {
  import opened Wrappers

  /** `a` is an order-preserving subsequence of `b` (`a` is `b` with some elements dropped). */
  predicate IsSubsequence<T(==)>(a: seq<T>, b: seq<T>)
    decreases |b|
  {
    a == [] || (b != [] && ((a[0] == b[0] && IsSubsequence(a[1..], b[1..])) || IsSubsequence(a, b[1..])))
  }

  /** `s.findIndex(x => key(x) === k)`: the first index whose key is `k`; `None` stands for -1. */
  function FindKey<T, K(==)>(s: seq<T>, key: T -> K, k: K): (r: Option<nat>)
    ensures r.Some? ==> r.value < |s| && key(s[r.value]) == k
    ensures r.Some? ==> forall j :: 0 <= j < r.value ==> key(s[j]) != k
    ensures r.None? ==> forall j :: 0 <= j < |s| ==> key(s[j]) != k
    decreases |s|
  {
    if s == [] then None
    else if key(s[0]) == k then Some(0)
    else match FindKey(s[1..], key, k)
      case None => None
      case Some(i) => Some(i + 1)
  }

  /** The set of the string keys (ids) of a list's elements. */
  function KeySet<T>(s: seq<T>, key: T -> string): (ks: set<string>)
    ensures forall x :: x in ks <==> exists i :: 0 <= i < |s| && key(s[i]) == x
  {
    set i | 0 <= i < |s| :: key(s[i])
  }

  /** Appending an element adds exactly its key. */
  lemma KeySetSnoc<T>(s: seq<T>, x: T, key: T -> string)
    ensures KeySet(s + [x], key) == KeySet(s, key) + {key(x)}
  {
    var l := s + [x];
    forall y | y in KeySet(l, key)
      ensures y in KeySet(s, key) + {key(x)}
    {
      var i :| 0 <= i < |l| && key(l[i]) == y;
      if i < |s| {
        assert l[i] == s[i];
      }
    }
    forall y | y in KeySet(s, key)
      ensures y in KeySet(l, key)
    {
      var i :| 0 <= i < |s| && key(s[i]) == y;
      assert l[i] == s[i];
    }
    assert l[|s|] == x;
  }

  /** `s.filter(p)`: the elements satisfying `p`, in their original order. */
  function Filter<T(==)>(s: seq<T>, p: T -> bool): (r: seq<T>)
    ensures |r| <= |s|
    ensures forall i :: 0 <= i < |r| ==> r[i] in s && p(r[i])
    ensures forall i :: 0 <= i < |s| ==> (s[i] in r <==> p(s[i]))
    ensures multiset(r) <= multiset(s)
    ensures (forall i :: 0 <= i < |s| ==> p(s[i])) ==> r == s
  {
    if s == [] then
      []
    else
      assert s == [s[0]] + s[1..];
      (if p(s[0]) then [s[0]] else []) + Filter(s[1..], p)
  }

  /** The result of `Filter` keeps the order of its input. */
  lemma {:induction false} FilterIsSubsequence<T>(s: seq<T>, p: T -> bool)
    ensures IsSubsequence(Filter(s, p), s)
  {
    if s != [] {
      FilterIsSubsequence(s[1..], p);
      if p(s[0]) {
        assert Filter(s, p)[1..] == Filter(s[1..], p);
      } else {
        var r := Filter(s, p);
        assert r == Filter(s[1..], p);
      }
    }
  }

  /** Lists holding the same elements as often contain the same elements. */
  lemma SameMembers<T>(a: seq<T>, b: seq<T>)
    requires multiset(a) == multiset(b)
    ensures forall x :: x in a <==> x in b
  {
    forall x
      ensures x in a <==> x in b
    {
      assert x in a <==> x in multiset(a);
      assert x in b <==> x in multiset(b);
    }
  }

  /** Filtering distributes over concatenation. */
  lemma {:induction false} FilterAppend<T>(a: seq<T>, b: seq<T>, p: T -> bool)
    ensures Filter(a + b, p) == Filter(a, p) + Filter(b, p)
  {
    if a == [] {
      assert a + b == b;
    } else {
      assert (a + b)[1..] == a[1..] + b;
      FilterAppend(a[1..], b, p);
    }
  }

  /** Nothing survives a filter that rejects every element. */
  lemma {:induction false} FilterNone<T>(s: seq<T>, p: T -> bool)
    requires forall i :: 0 <= i < |s| ==> !p(s[i])
    ensures Filter(s, p) == []
  {
    if s != [] {
      FilterNone(s[1..], p);
    }
  }

  /** Number of elements satisfying `p` (`s.filter(p).length`). */
  function Count<T>(s: seq<T>, p: T -> bool): (n: nat)
    ensures n <= |s|
    decreases |s|
  {
    if s == [] then 0 else (if p(s[0]) then 1 else 0) + Count(s[1..], p)
  }

  /** Counting is the length of the filtered list. */
  lemma {:induction false} CountIsFilterLength<T>(s: seq<T>, p: T -> bool)
    ensures Count(s, p) == |Filter(s, p)|
    decreases |s|
  {
    if s != [] {
      CountIsFilterLength(s[1..], p);
    }
  }

  /** When exactly the first `n` elements satisfy `p`, `n` of them do. */
  lemma {:induction false} CountSplit<T>(s: seq<T>, n: nat, p: T -> bool)
    requires n <= |s|
    requires forall i :: 0 <= i < n ==> p(s[i])
    requires forall i :: n <= i < |s| ==> !p(s[i])
    ensures Count(s, p) == n
    decreases |s|
  {
    if s != [] {
      assert n > 0 ==> p(s[0]);
      assert n == 0 ==> !p(s[0]);
      CountSplit(s[1..], if n > 0 then n - 1 else 0, p);
    }
  }

  /** `key` is non-increasing along `s`. */
  predicate SortedDesc<T>(s: seq<T>, key: T -> int) {
    forall i, j :: 0 <= i < j < |s| ==> key(s[i]) >= key(s[j])
  }

  /** Prepending an element no smaller than the current head keeps a list sorted. */
  lemma SortedCons<T>(h: T, t: seq<T>, key: T -> int)
    requires SortedDesc(t, key)
    requires t != [] ==> key(h) >= key(t[0])
    ensures SortedDesc([h] + t, key)
  {
    var r := [h] + t;
    forall i, j | 0 <= i < j < |r|
      ensures key(r[i]) >= key(r[j])
    {
      if i == 0 {
        assert r[j] == t[j - 1];
        if j > 1 {
          assert key(t[0]) >= key(t[j - 1]);
        }
      } else {
        assert r[i] == t[i - 1] && r[j] == t[j - 1];
      }
    }
  }

  /** Inserts `x` in front of the first element whose key is not larger than `x`'s. */
  function Insert<T(==)>(x: T, s: seq<T>, key: T -> int): (r: seq<T>)
    requires SortedDesc(s, key)
    ensures SortedDesc(r, key)
    ensures multiset(r) == multiset(s) + multiset{x}
    ensures |r| == |s| + 1
    ensures r[0] == x || (s != [] && r[0] == s[0])
  {
    if s == [] || key(s[0]) <= key(x) then
      SortedCons(x, s, key);
      [x] + s
    else
      var t := Insert(x, s[1..], key);
      assert s == [s[0]] + s[1..];
      SortedCons(s[0], t, key);
      [s[0]] + t
  }

  /**
   * `s.sort((a, b) => key(b) - key(a))`: a stable insertion sort putting larger keys first.
   * JavaScript's `sort` is stable, and an element that comes earlier in the input is inserted in
   * front of the equal-keyed elements that follow it.
   */
  function SortDesc<T(==)>(s: seq<T>, key: T -> int): (r: seq<T>)
    ensures SortedDesc(r, key)
    ensures multiset(r) == multiset(s)
    ensures |r| == |s|
  {
    if s == [] then
      []
    else
      var r := Insert(s[0], SortDesc(s[1..], key), key);
      assert s == [s[0]] + s[1..];
      assert |r| == |multiset(r)|;
      r
  }

  /** When every key ties, the stable sort keeps the input order. */
  lemma {:induction false} SortDescAllTies<T>(s: seq<T>, key: T -> int)
    requires forall i, j :: 0 <= i < |s| && 0 <= j < |s| ==> key(s[i]) == key(s[j])
    ensures SortDesc(s, key) == s
  {
    if s != [] {
      SortDescAllTies(s[1..], key);
      assert SortDesc(s[1..], key) == s[1..];
      assert s == [s[0]] + s[1..];
    }
  }

  /** Sorting a list already in order changes nothing. */
  lemma {:induction false} SortDescOfSorted<T>(s: seq<T>, key: T -> int)
    requires SortedDesc(s, key)
    ensures SortDesc(s, key) == s
  {
    if s != [] {
      SortDescOfSorted(s[1..], key);
      assert SortDesc(s, key) == Insert(s[0], s[1..], key);
      assert s == [s[0]] + s[1..];
    }
  }

  /** The elements of `s` whose key is `k`, in list order. */
  function Ties<T>(s: seq<T>, key: T -> int, k: int): seq<T> {
    if s == [] then [] else (if key(s[0]) == k then [s[0]] else []) + Ties(s[1..], key, k)
  }

  lemma TiesCons<T>(h: T, t: seq<T>, key: T -> int, k: int)
    ensures Ties([h] + t, key, k) == (if key(h) == k then [h] else []) + Ties(t, key, k)
  {
    assert ([h] + t)[0] == h && ([h] + t)[1..] == t;
  }

  /** Two blocks, one of them empty, can be written in either order. */
  lemma SwapAroundEmpty<T>(a: seq<T>, b: seq<T>, c: seq<T>)
    requires a == [] || b == []
    ensures a + (b + c) == b + (a + c)
  {
    if a == [] {
      assert a + (b + c) == b + c && a + c == c;
    } else {
      assert b + (a + c) == a + c && b + c == c;
    }
  }

  /** Inserting `x` puts it in front of every element with the same key, behind none of them. */
  lemma {:induction false} InsertKeepsTies<T>(x: T, t: seq<T>, key: T -> int, k: int)
    requires SortedDesc(t, key)
    ensures Ties(Insert(x, t, key), key, k) == (if key(x) == k then [x] else []) + Ties(t, key, k)
    decreases |t|, 1
  {
    if t == [] || key(t[0]) <= key(x) {
      assert Insert(x, t, key) == [x] + t;
      TiesCons(x, t, key, k);
    } else {
      InsertBehindKeepsTies(x, t, key, k);
    }
  }

  /** The step of `InsertKeepsTies` where `x` goes behind the head, whose key is larger. */
  lemma {:induction false} InsertBehindKeepsTies<T>(x: T, t: seq<T>, key: T -> int, k: int)
    requires SortedDesc(t, key)
    requires t != [] && key(t[0]) > key(x)
    ensures Ties(Insert(x, t, key), key, k) == (if key(x) == k then [x] else []) + Ties(t, key, k)
    decreases |t|, 0
  {
    var hx: seq<T> := if key(x) == k then [x] else [];
    var h0: seq<T> := if key(t[0]) == k then [t[0]] else [];
    var rest := Insert(x, t[1..], key);
    var tail := Ties(t[1..], key, k);
    assert Insert(x, t, key) == [t[0]] + rest;
    InsertKeepsTies(x, t[1..], key, k);
    TiesCons(t[0], rest, key, k);
    assert t == [t[0]] + t[1..];
    TiesCons(t[0], t[1..], key, k);
    SwapAroundEmpty(h0, hx, tail);
  }

  /**
   * The sort is stable: for every key, the elements with that key come out in
   * the order they went in.
   */
  lemma {:induction false} SortDescStable<T>(s: seq<T>, key: T -> int, k: int)
    ensures Ties(SortDesc(s, key), key, k) == Ties(s, key, k)
  {
    if s != [] {
      SortDescStable(s[1..], key, k);
      InsertKeepsTies(s[0], SortDesc(s[1..], key), key, k);
    }
  }

  /** Stability for every key at once. */
  lemma SortDescStableAll<T>(s: seq<T>, key: T -> int)
    ensures forall k :: Ties(SortDesc(s, key), key, k) == Ties(s, key, k)
  {
    forall k
      ensures Ties(SortDesc(s, key), key, k) == Ties(s, key, k)
    {
      SortDescStable(s, key, k);
    }
  }

  /** `s.reduce((acc, x) => acc + f(x), 0)`. */
  function SumBy<T>(s: seq<T>, f: T -> int): int {
    if s == [] then 0 else f(s[0]) + SumBy(s[1..], f)
  }

  /** Sums add up over concatenation. */
  lemma {:induction false} SumByAppend<T>(a: seq<T>, b: seq<T>, f: T -> int)
    ensures SumBy(a + b, f) == SumBy(a, f) + SumBy(b, f)
  {
    if a == [] {
      assert a + b == b;
    } else {
      assert (a + b)[1..] == a[1..] + b;
      SumByAppend(a[1..], b, f);
    }
  }

  /** With non-negative terms, a filtered sum never exceeds the full sum. */
  lemma {:induction false} SumByFilterBounded<T>(s: seq<T>, p: T -> bool, f: T -> int)
    requires forall i :: 0 <= i < |s| ==> f(s[i]) >= 0
    ensures 0 <= SumBy(Filter(s, p), f) <= SumBy(s, f)
  {
    if s != [] {
      SumByFilterBounded(s[1..], p, f);
      var head := if p(s[0]) then [s[0]] else [];
      SumByAppend(head, Filter(s[1..], p), f);
    }
  }

  /** Sums do not depend on the order of the terms. */
  lemma {:induction false} SumByPermutation<T>(a: seq<T>, b: seq<T>, f: T -> int)
    requires multiset(a) == multiset(b)
    ensures SumBy(a, f) == SumBy(b, f)
    decreases |a|
  {
    if a == [] {
      assert |b| == |multiset(b)| == 0;
    } else {
      assert a[0] in multiset(b);
      var j :| 0 <= j < |b| && b[j] == a[0];
      var rest := b[..j] + b[j + 1..];
      assert b == b[..j] + [b[j]] + b[j + 1..];
      assert a == [a[0]] + a[1..];
      assert multiset(b) == multiset(b[..j]) + multiset{b[j]} + multiset(b[j + 1..]);
      assert multiset(rest) == multiset(b[..j]) + multiset(b[j + 1..]);
      assert multiset(a) == multiset{a[0]} + multiset(a[1..]);
      assert multiset(a[1..]) == multiset(a) - multiset{a[0]};
      assert multiset(rest) == multiset(b) - multiset{b[j]};
      SumByPermutation(a[1..], rest, f);
      SumByAppend(b[..j], b[j + 1..], f);
      SumByAppend(b[..j] + [b[j]], b[j + 1..], f);
      SumByAppend(b[..j], [b[j]], f);
    }
  }
}
