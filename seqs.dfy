/**
 * The array operations the modelled code calls (filter, find, flatMap, a stable sort), as functions
 * on sequences, with the facts about them that the rest of the model uses.
 */
module Seqs {
  import opened Wrappers

  /** `r` is `s` with some elements deleted: what is kept stays in its original relative order. */
  predicate IsSubsequence<T(==)>(r: seq<T>, s: seq<T>)
    decreases |s|
  {
    |r| <= |s| &&
    (|r| == 0 || (r[0] == s[0] && IsSubsequence(r[1..], s[1..])) || IsSubsequence(r, s[1..]))
  }

  /** Every sequence is a subsequence of itself. */
  lemma {:induction false} SubsequenceOfSelf<T>(s: seq<T>)
    ensures IsSubsequence(s, s)
  {
    if |s| > 0 {
      SubsequenceOfSelf(s[1..]);
    }
  }

  /** A subsequence stays one when the sequence grows at the end, and when both grow by the same element. */
  lemma {:induction false} SubsequenceAppend<T>(r: seq<T>, s: seq<T>, x: T)
    requires IsSubsequence(r, s)
    ensures IsSubsequence(r, s + [x])
    ensures IsSubsequence(r + [x], s + [x])
    decreases |s|
  {
    if |s| == 0 {
      assert r == [];
      assert r + [x] == s + [x];
      SubsequenceOfSelf(s + [x]);
    } else {
      assert (s + [x])[1..] == s[1..] + [x];
      if |r| == 0 {
        SubsequenceAppend(r, s[1..], x);
        assert r + [x] == [x];
      } else if r[0] == s[0] && IsSubsequence(r[1..], s[1..]) {
        SubsequenceAppend(r[1..], s[1..], x);
        assert (r + [x])[1..] == r[1..] + [x];
      } else {
        SubsequenceAppend(r, s[1..], x);
      }
    }
  }

  /** No element occurs twice. */
  predicate Distinct<T(==)>(s: seq<T>) {
    forall i, j :: 0 <= i < j < |s| ==> s[i] != s[j]
  }

  /** The elements of `s` that satisfy `p`, in order (Array.prototype.filter). */
  function Filter<T>(s: seq<T>, p: T -> bool): (r: seq<T>)
    ensures |r| <= |s|
  {
    if |s| == 0 then []
    else if p(s[0]) then [s[0]] + Filter(s[1..], p)
    else Filter(s[1..], p)
  }

  /** The filter keeps an element that satisfies `p` as often as `s` holds it, and drops the others. */
  lemma {:induction false} FilterCounts<T>(s: seq<T>, p: T -> bool)
    ensures forall v :: multiset(Filter(s, p))[v] == if p(v) then multiset(s)[v] else 0
  {
    if |s| > 0 {
      FilterCounts(s[1..], p);
      assert s == [s[0]] + s[1..];
    }
  }

  /** The filter keeps exactly the elements that satisfy `p`, in their original order. */
  lemma {:induction false} FilterKeeps<T>(s: seq<T>, p: T -> bool)
    ensures forall i :: 0 <= i < |Filter(s, p)| ==> p(Filter(s, p)[i])
    ensures forall i :: 0 <= i < |Filter(s, p)| ==> Filter(s, p)[i] in s
    ensures forall i :: 0 <= i < |s| && p(s[i]) ==> s[i] in Filter(s, p)
    ensures IsSubsequence(Filter(s, p), s)
  {
    if |s| > 0 {
      FilterKeeps(s[1..], p);
      var rest := Filter(s[1..], p);
      assert forall i :: 1 <= i < |s| ==> s[i] == s[1..][i - 1];
      if p(s[0]) {
        assert ([s[0]] + rest)[1..] == rest;
      }
    }
  }

  /**
   * The filter keeps exactly the elements that satisfy `p`, each as often as `s` holds it, in
   * their original order.
   */
  lemma FilterSpec<T>(s: seq<T>, p: T -> bool)
    ensures forall i :: 0 <= i < |Filter(s, p)| ==> p(Filter(s, p)[i])
    ensures forall i :: 0 <= i < |Filter(s, p)| ==> Filter(s, p)[i] in s
    ensures forall i :: 0 <= i < |s| && p(s[i]) ==> s[i] in Filter(s, p)
    ensures IsSubsequence(Filter(s, p), s)
    ensures forall v :: multiset(Filter(s, p))[v] == if p(v) then multiset(s)[v] else 0
  {
    FilterKeeps(s, p);
    FilterCounts(s, p);
  }

  /** A filter that no element passes leaves nothing. */
  lemma {:induction false} FilterKeepsNone<T>(s: seq<T>, p: T -> bool)
    requires forall i :: 0 <= i < |s| ==> !p(s[i])
    ensures Filter(s, p) == []
  {
    if |s| > 0 {
      assert forall i :: 0 <= i < |s[1..]| ==> s[1..][i] == s[i + 1];
      FilterKeepsNone(s[1..], p);
    }
  }

  /** Filtering distributes over concatenation. */
  lemma {:induction false} FilterConcat<T>(a: seq<T>, b: seq<T>, p: T -> bool)
    ensures Filter(a + b, p) == Filter(a, p) + Filter(b, p)
  {
    if |a| == 0 {
      assert a + b == b;
    } else {
      assert (a + b)[1..] == a[1..] + b;
      FilterConcat(a[1..], b, p);
    }
  }

  /** A filter that every element passes changes nothing. */
  lemma {:induction false} FilterKeepsAll<T>(s: seq<T>, p: T -> bool)
    requires forall x :: x in s ==> p(x)
    ensures Filter(s, p) == s
  {
    if |s| > 0 {
      FilterKeepsAll(s[1..], p);
    }
  }

  /** The first element of `s` that satisfies `p`, if any (Array.prototype.find). */
  function Find<T>(s: seq<T>, p: T -> bool): (r: Option<T>)
    ensures r.None? <==> forall i :: 0 <= i < |s| ==> !p(s[i])
  {
    if |s| == 0 then None
    else if p(s[0]) then Some(s[0])
    else Find(s[1..], p)
  }

  /** What `find` returns is the first element that satisfies `p`. */
  lemma {:induction false} FindFirst<T>(s: seq<T>, p: T -> bool)
    requires Find(s, p).Some?
    ensures exists i :: 0 <= i < |s| && s[i] == Find(s, p).value && p(s[i]) && forall j :: 0 <= j < i ==> !p(s[j])
  {
    if !p(s[0]) {
      FindFirst(s[1..], p);
      var i :| 0 <= i < |s[1..]| && s[1..][i] == Find(s, p).value && p(s[1..][i]) &&
        forall j :: 0 <= j < i ==> !p(s[1..][j]);
      assert s[i + 1] == s[1..][i];
      assert forall j :: 0 < j < i + 1 ==> s[j] == s[1..][j - 1];
    }
  }

  /** Searching a concatenation searches the left part first. */
  lemma {:induction false} FindConcat<T>(a: seq<T>, b: seq<T>, p: T -> bool)
    ensures Find(a + b, p) == if Find(a, p).Some? then Find(a, p) else Find(b, p)
  {
    if |a| == 0 {
      assert a + b == b;
    } else {
      assert (a + b)[1..] == a[1..] + b;
      FindConcat(a[1..], b, p);
    }
  }

  /** The concatenation of the inner sequences (Array.prototype.flatMap with the identity). */
  function Flatten<T>(ss: seq<seq<T>>): (r: seq<T>)
  {
    if |ss| == 0 then [] else ss[0] + Flatten(ss[1..])
  }

  /** An element is in the concatenation exactly when it is in one of the inner sequences. */
  lemma {:induction false} FlattenMember<T>(ss: seq<seq<T>>, x: T)
    ensures x in Flatten(ss) <==> exists i :: 0 <= i < |ss| && x in ss[i]
  {
    if |ss| > 0 {
      FlattenMember(ss[1..], x);
      assert forall i :: 1 <= i < |ss| ==> ss[i] == ss[1..][i - 1];
      if x in Flatten(ss[1..]) {
        var i :| 0 <= i < |ss[1..]| && x in ss[1..][i];
        assert x in ss[i + 1];
      }
    }
  }

  /** `s` is ordered by non-decreasing `key`. */
  ghost predicate SortedBy<T>(s: seq<T>, key: T -> real) {
    forall i, j :: 0 <= i < j < |s| ==> key(s[i]) <= key(s[j])
  }

  /** Inserts `x` before the first element whose key is not smaller than `x`'s. */
  function InsertBy<T>(x: T, s: seq<T>, key: T -> real): (r: seq<T>)
    ensures |r| == |s| + 1
  {
    if |s| == 0 then [x]
    else if key(x) <= key(s[0]) then [x] + s
    else [s[0]] + InsertBy(x, s[1..], key)
  }

  /** Insertion adds exactly `x`. */
  lemma {:induction false} InsertByPermutes<T>(x: T, s: seq<T>, key: T -> real)
    ensures multiset(InsertBy(x, s, key)) == multiset{x} + multiset(s)
  {
    if |s| > 0 && key(x) > key(s[0]) {
      InsertByPermutes(x, s[1..], key);
      assert s == [s[0]] + s[1..];
    }
  }

  /** A lower bound on the keys of `x` and of `s` bounds the keys after insertion. */
  lemma {:induction false} InsertByBound<T>(x: T, s: seq<T>, key: T -> real, b: real)
    requires b <= key(x)
    requires forall i :: 0 <= i < |s| ==> b <= key(s[i])
    ensures forall i :: 0 <= i < |s| + 1 ==> b <= key(InsertBy(x, s, key)[i])
  {
    if |s| > 0 && key(x) > key(s[0]) {
      InsertByBound(x, s[1..], key, b);
    }
  }

  /** Insertion into an ordered sequence keeps it ordered. */
  lemma {:induction false} InsertBySorted<T>(x: T, s: seq<T>, key: T -> real)
    requires SortedBy(s, key)
    ensures SortedBy(InsertBy(x, s, key), key)
  {
    if |s| > 0 && key(x) > key(s[0]) {
      InsertBySorted(x, s[1..], key);
      InsertByBound(x, s[1..], key, key(s[0]));
    }
  }

  /**
   * A stable sort by ascending `key`: the model of Array.prototype.sort with the comparator
   * `(a, b) => key(a) - key(b)` (the standard requires this sort to be stable).
   */
  function SortBy<T>(s: seq<T>, key: T -> real): (r: seq<T>)
    ensures |r| == |s|
    ensures multiset(r) == multiset(s)
    ensures SortedBy(r, key)
  {
    if |s| == 0 then []
    else
      var rest := SortBy(s[1..], key);
      InsertByPermutes(s[0], rest, key);
      InsertBySorted(s[0], rest, key);
      assert s == [s[0]] + s[1..];
      InsertBy(s[0], rest, key)
  }

  /** The elements whose key is `k`. */
  function KeyIs<T>(key: T -> real, k: real): T -> bool {
    x => key(x) == k
  }

  /** Insertion filtered on key `k` adds `x` in front of the filtered rest, if `x` has key `k`. */
  lemma {:induction false} InsertByStable<T>(x: T, s: seq<T>, key: T -> real, k: real)
    ensures Filter(InsertBy(x, s, key), KeyIs(key, k)) ==
            (if key(x) == k then [x] else []) + Filter(s, KeyIs(key, k))
  {
    if |s| == 0 {
    } else if key(x) <= key(s[0]) {
      FilterConcat([x], s, KeyIs(key, k));
    } else {
      InsertByStable(x, s[1..], key, k);
      InsertByStableStep(x, s, key, k);
    }
  }

  /** The step of InsertByStable where `x` goes past the first element. */
  lemma InsertByStableStep<T>(x: T, s: seq<T>, key: T -> real, k: real)
    requires |s| > 0 && key(x) > key(s[0])
    requires Filter(InsertBy(x, s[1..], key), KeyIs(key, k)) ==
             (if key(x) == k then [x] else []) + Filter(s[1..], KeyIs(key, k))
    ensures Filter(InsertBy(x, s, key), KeyIs(key, k)) ==
            (if key(x) == k then [x] else []) + Filter(s, KeyIs(key, k))
  {
    var p := KeyIs(key, k);
    var inserted := [s[0]] + InsertBy(x, s[1..], key);
    assert inserted[1..] == InsertBy(x, s[1..], key);
    if p(s[0]) {
      assert Filter(inserted, p) == [s[0]] + Filter(s[1..], p);
    } else {
      assert Filter(inserted, p) == Filter(inserted[1..], p);
    }
  }

  /** Stability: elements with equal keys keep their original relative order. */
  lemma {:induction false} SortByStable<T>(s: seq<T>, key: T -> real, k: real)
    ensures Filter(SortBy(s, key), KeyIs(key, k)) == Filter(s, KeyIs(key, k))
  {
    if |s| > 0 {
      var p := KeyIs(key, k);
      SortByStable(s[1..], key, k);
      InsertByStable(s[0], SortBy(s[1..], key), key, k);
      FilterConcat([s[0]], s[1..], p);
      assert [s[0]] + s[1..] == s;
    }
  }

  /** In a sequence without repetitions every element occurs at most once. */
  lemma {:induction false} DistinctMultiplicity<T>(s: seq<T>, x: T)
    requires Distinct(s)
    ensures multiset(s)[x] <= 1
  {
    if |s| > 0 {
      assert s == [s[0]] + s[1..];
      DistinctMultiplicity(s[1..], x);
      if s[0] == x {
        assert x !in s[1..];
      }
    }
  }

  /** A permutation of a sequence without repetitions has none either. */
  lemma DistinctPermutation<T>(a: seq<T>, b: seq<T>)
    requires multiset(a) == multiset(b)
    requires Distinct(a)
    ensures Distinct(b)
  {
    forall i, j | 0 <= i < j < |b|
      ensures b[i] != b[j]
    {
      if b[i] == b[j] {
        var v := b[i];
        assert b == b[..j] + [b[j]] + b[j + 1..];
        assert v in b[..j];
        assert multiset(b)[v] == multiset(b[..j])[v] + 1 + multiset(b[j + 1..])[v];
        DistinctMultiplicity(a, v);
        assert false;
      }
    }
  }
}
