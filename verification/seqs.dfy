/** Sequence building blocks shared by the modules: JavaScript's
    `Array.prototype.filter`, `[...new Set(xs)]`, `slice(0, n)` and a stable
    comparator sort. */
module Seqs {

  function Min(a: int, b: int): int {
    if a <= b then a else b
  }

  /** `s.slice(0, n)`: the first `n` elements, or all of them when fewer. */
  function Take<T>(s: seq<T>, n: nat): (r: seq<T>)
    ensures |r| == Min(n, |s|)
    ensures r <= s
  {
    if |s| <= n then s else s[..n]
  }

  /** `s.filter(p)`: the elements satisfying `p`, in their original order. */
  function Filter<T(!new)>(s: seq<T>, p: T -> bool): (r: seq<T>)
    ensures |r| <= |s|
    ensures forall i :: 0 <= i < |r| ==> p(r[i])
    ensures forall x :: multiset(r)[x] == if p(x) then multiset(s)[x] else 0
  {
    if |s| == 0 then []
    else
      assert s == [s[0]] + s[1..];
      (if p(s[0]) then [s[0]] else []) + Filter(s[1..], p)
  }

  /** The filtered list holds exactly the elements of `s` that satisfy `p`. */
  lemma FilterMembers<T(!new)>(s: seq<T>, p: T -> bool)
    ensures forall x :: x in Filter(s, p) <==> x in s && p(x)
  {
    var r := Filter(s, p);
    forall x
      ensures x in r <==> x in s && p(x)
    {
      assert x in r <==> x in multiset(r);
      assert x in s <==> x in multiset(s);
    }
  }

  /** Filtering distributes over concatenation. */
  lemma {:induction false} FilterAppend<T(!new)>(a: seq<T>, b: seq<T>, p: T -> bool)
    ensures Filter(a + b, p) == Filter(a, p) + Filter(b, p)
    decreases |a|
  {
    if |a| == 0 {
      assert a + b == b;
    } else {
      var c := a + b;
      assert c[0] == a[0] && c[1..] == a[1..] + b;
      FilterAppend(a[1..], b, p);
      var head := if p(a[0]) then [a[0]] else [];
      var fa, fb := Filter(a[1..], p), Filter(b, p);
      calc {
        Filter(c, p);
        head + Filter(c[1..], p);
        head + (fa + fb);
        { assert head + (fa + fb) == (head + fa) + fb; }
        (head + fa) + fb;
        Filter(a, p) + fb;
      }
    }
  }

  /** `r` is `s` with some elements left out, the rest in their order. */
  predicate IsSubsequence<T(==)>(r: seq<T>, s: seq<T>)
    decreases |s|
  {
    |r| == 0
    || (|s| > 0 && ((r[0] == s[0] && IsSubsequence(r[1..], s[1..])) || IsSubsequence(r, s[1..])))
  }

  /** Filtering keeps the survivors in their original order. */
  lemma {:induction false} FilterSubsequence<T(!new)>(s: seq<T>, p: T -> bool)
    ensures IsSubsequence(Filter(s, p), s)
    decreases |s|
  {
    if |s| > 0 {
      var r, t := Filter(s, p), Filter(s[1..], p);
      FilterSubsequence(s[1..], p);
      if p(s[0]) {
        assert r == [s[0]] + t;
        assert r[0] == s[0] && r[1..] == t;
      } else {
        assert r == t;
      }
    }
  }

  /** Filtering twice by the same test changes nothing more. */
  lemma {:induction false} FilterIdempotent<T(!new)>(s: seq<T>, p: T -> bool)
    ensures Filter(Filter(s, p), p) == Filter(s, p)
    decreases |s|
  {
    if |s| > 0 {
      var r, t := Filter(s, p), Filter(s[1..], p);
      FilterIdempotent(s[1..], p);
      if p(s[0]) {
        assert r == [s[0]] + t;
        assert r[0] == s[0] && r[1..] == t;
      } else {
        assert r == t;
      }
    }
  }

  /** Number of elements satisfying `p`. */
  function Count<T(!new)>(s: seq<T>, p: T -> bool): nat {
    |Filter(s, p)|
  }

  /** Counting peels off the first element. */
  lemma CountCons<T(!new)>(s: seq<T>, p: T -> bool)
    requires |s| > 0
    ensures Count(s, p) == (if p(s[0]) then 1 else 0) + Count(s[1..], p)
  {
  }

  predicate NoDuplicates<T(==)>(s: seq<T>) {
    forall i, j :: 0 <= i < j < |s| ==> s[i] != s[j]
  }

  /** Filtering a list without duplicates leaves one without duplicates. */
  lemma {:induction false} FilterNoDuplicates<T(!new)>(s: seq<T>, p: T -> bool)
    requires NoDuplicates(s)
    ensures NoDuplicates(Filter(s, p))
    decreases |s|
  {
    if |s| > 0 {
      var rest := Filter(s[1..], p);
      FilterNoDuplicates(s[1..], p);
      forall k | 0 <= k < |rest|
        ensures rest[k] != s[0]
      {
        var x := rest[k];
        assert x in multiset(rest);
        assert x in multiset(s[1..]);
        var m :| 0 <= m < |s[1..]| && s[1..][m] == x;
        assert s[m + 1] == x;
      }
    }
  }

  /** `[...new Set(s)]`: a `Set` remembers insertion order, so each value is
      appended the first time it is seen. */
  function Dedup<T(==, !new)>(s: seq<T>): (r: seq<T>)
    ensures NoDuplicates(r)
    ensures forall x :: x in r <==> x in s
    ensures |r| <= |s|
  {
    if |s| == 0 then []
    else
      var init := s[..|s| - 1];
      var last := s[|s| - 1];
      assert s == init + [last];
      var d := Dedup(init);
      if last in d then d else d + [last]
  }

  /** `x` is met in `s` before `y` is: some occurrence of `x` has no `y`
      ahead of it. */
  predicate SeenBefore<T(==)>(s: seq<T>, x: T, y: T) {
    exists k :: 0 <= k < |s| && s[k] == x && y !in s[..k]
  }

  /** `r` lists its values in the order they first appear in `s`. */
  predicate FirstSeenOrder<T(==)>(r: seq<T>, s: seq<T>) {
    forall i, j :: 0 <= i < j < |r| ==> SeenBefore(s, r[i], r[j])
  }

  /** Appending to `s` does not change which of two values came first. */
  lemma SeenBeforeExtend<T>(s: seq<T>, t: seq<T>, x: T, y: T)
    requires SeenBefore(s, x, y)
    ensures SeenBefore(s + t, x, y)
  {
    var k :| 0 <= k < |s| && s[k] == x && y !in s[..k];
    assert (s + t)[..k] == s[..k];
    assert (s + t)[k] == x;
  }

  /** `Dedup` lists the values in the order of their first occurrence. */
  lemma {:induction false} DedupFirstSeen<T(!new)>(s: seq<T>)
    ensures FirstSeenOrder(Dedup(s), s)
    decreases |s|
  {
    if |s| > 0 {
      var init := s[..|s| - 1];
      var last := s[|s| - 1];
      assert s == init + [last];
      var d := Dedup(init);
      DedupFirstSeen(init);
      forall i, j | 0 <= i < j < |d|
        ensures SeenBefore(s, d[i], d[j])
      {
        SeenBeforeExtend(init, [last], d[i], d[j]);
      }
      if last !in d {
        forall i | 0 <= i < |d|
          ensures SeenBefore(s, d[i], last)
        {
          assert d[i] in init;
          var k :| 0 <= k < |init| && init[k] == d[i];
          assert s[..k] == init[..k];
          assert s[k] == d[i];
        }
        var r := d + [last];
        forall i, j | 0 <= i < j < |r|
          ensures SeenBefore(s, r[i], r[j])
        {
          assert r[i] == d[i];
          if j < |d| {
            assert r[j] == d[j];
          }
        }
      }
    }
  }

  /** Dropping the head of a list in first-occurrence order leaves one, and
      the head came before everything after it. */
  lemma FirstSeenTail<T>(d: seq<T>, s: seq<T>)
    requires |d| > 0 && FirstSeenOrder(d, s)
    ensures FirstSeenOrder(d[1..], s)
    ensures forall x :: x in d[1..] ==> SeenBefore(s, d[0], x)
  {
    var tail := d[1..];
    forall i, j | 0 <= i < j < |tail|
      ensures SeenBefore(s, tail[i], tail[j])
    {
      assert tail[i] == d[i + 1] && tail[j] == d[j + 1];
    }
    forall x | x in tail
      ensures SeenBefore(s, d[0], x)
    {
      var n :| 0 <= n < |tail| && tail[n] == x;
      assert d[n + 1] == x;
    }
  }

  /** A value seen before everything in a list in first-occurrence order can
      go in front of it. */
  lemma FirstSeenCons<T>(x: T, rest: seq<T>, s: seq<T>)
    requires FirstSeenOrder(rest, s)
    requires forall y :: y in rest ==> SeenBefore(s, x, y)
    ensures FirstSeenOrder([x] + rest, s)
  {
    var r := [x] + rest;
    forall i, j | 0 <= i < j < |r|
      ensures SeenBefore(s, r[i], r[j])
    {
      assert r[j] == rest[j - 1];
      if i > 0 {
        assert r[i] == rest[i - 1];
      }
    }
  }

  /** Filtering keeps first-occurrence order. */
  lemma {:induction false} FilterFirstSeen<T(!new)>(d: seq<T>, s: seq<T>, p: T -> bool)
    requires FirstSeenOrder(d, s)
    ensures FirstSeenOrder(Filter(d, p), s)
    decreases |d|
  {
    if |d| > 0 {
      var rest := Filter(d[1..], p);
      assert FirstSeenOrder(rest, s) by {
        FirstSeenTail(d, s);
        FilterFirstSeen(d[1..], s, p);
      }
      if p(d[0]) {
        assert forall y :: y in rest ==> SeenBefore(s, d[0], y) by {
          FirstSeenTail(d, s);
          FilterMembers(d[1..], p);
        }
        FirstSeenCons(d[0], rest, s);
        assert Filter(d, p) == [d[0]] + rest;
      } else {
        assert Filter(d, p) == rest;
      }
    }
  }

  /** First-occurrence order: the deduplicated form of a prefix of `s` is a
      prefix of the deduplicated form of `s`, so values seen earlier always
      come first. */
  lemma {:induction false} DedupPrefix<T(!new)>(s: seq<T>, k: nat)
    requires k <= |s|
    ensures Dedup(s[..k]) <= Dedup(s)
    decreases |s|
  {
    if k < |s| {
      var init := s[..|s| - 1];
      assert s[..k] == init[..k];
      DedupPrefix(init, k);
    } else {
      assert s[..k] == s;
    }
  }

  /** `le` is a total preorder: every two values compare, transitively. */
  ghost predicate TotalPreorder<T(!new)>(le: (T, T) -> bool) {
    && (forall a, b :: le(a, b) || le(b, a))
    && (forall a, b, c :: le(a, b) && le(b, c) ==> le(a, c))
  }

  predicate Sorted<T>(s: seq<T>, le: (T, T) -> bool) {
    forall i, j :: 0 <= i < j < |s| ==> le(s[i], s[j])
  }

  /** Inserts `x` before the first element it may precede, so `x` goes
      ahead of the elements equal to it. */
  function Insert<T(!new)>(x: T, s: seq<T>, le: (T, T) -> bool): (r: seq<T>)
    requires TotalPreorder(le)
    requires Sorted(s, le)
    ensures multiset(r) == multiset(s) + multiset{x}
    ensures Sorted(r, le)
  {
    if |s| == 0 || le(x, s[0]) then
      [x] + s
    else
      var rest := Insert(x, s[1..], le);
      assert s == [s[0]] + s[1..];
      assert forall y :: y in rest ==> le(s[0], y) by {
        forall y | y in rest
          ensures le(s[0], y)
        {
          assert y in multiset(rest);
          if y != x {
            assert y in multiset(s[1..]);
            var j :| 0 <= j < |s[1..]| && s[1..][j] == y;
            assert s[j + 1] == y;
          }
        }
      }
      [s[0]] + rest
  }

  /** Insertion sort under the total preorder `le`: the result is ordered and
      holds the same elements as `s`. Each element goes ahead of the equal
      elements that followed it, as in JavaScript's stable `sort`. */
  function SortBy<T(!new)>(s: seq<T>, le: (T, T) -> bool): (r: seq<T>)
    requires TotalPreorder(le)
    ensures multiset(r) == multiset(s)
    ensures Sorted(r, le)
  {
    if |s| == 0 then []
    else
      assert s == [s[0]] + s[1..];
      Insert(s[0], SortBy(s[1..], le), le)
  }

  /** A permutation of a duplicate-free sequence is duplicate-free. */
  lemma PermutationNoDuplicates<T>(a: seq<T>, b: seq<T>)
    requires multiset(a) == multiset(b)
    requires NoDuplicates(a)
    ensures NoDuplicates(b)
  {
    forall i, j | 0 <= i < j < |b|
      ensures b[i] != b[j]
    {
      if b[i] == b[j] {
        var x := b[i];
        assert multiset(b)[x] >= 2 by {
          assert b == b[..j] + [b[j]] + b[j + 1..];
          assert x in b[..j];
        }
        DistinctCountsOnce(a, x);
      }
    }
  }

  /** In a duplicate-free sequence every value occurs at most once. */
  lemma {:induction false} DistinctCountsOnce<T>(a: seq<T>, x: T)
    requires NoDuplicates(a)
    ensures multiset(a)[x] <= 1
    decreases |a|
  {
    if |a| > 0 {
      assert a == [a[0]] + a[1..];
      DistinctCountsOnce(a[1..], x);
      if a[0] == x {
        assert x !in a[1..];
      }
    }
  }
}
