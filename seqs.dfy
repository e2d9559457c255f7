/** Sequence operations that the source takes from `Array.prototype`
    (`filter`, `map`, `slice`) and from insertion-ordered `Set`s. */
module Seqs {

  /** `s.filter(p)`: the elements of `s` that satisfy `p`, in their order. */
  function Filter<T(!new)>(s: seq<T>, p: T -> bool): (r: seq<T>)
    ensures |r| <= |s|
    ensures forall x :: x in r <==> x in s && p(x)
    decreases |s|
  {
    if s == [] then []
    else
      assert s == s[..|s| - 1] + [s[|s| - 1]];
      Filter(s[..|s| - 1], p) + (if p(s[|s| - 1]) then [s[|s| - 1]] else [])
  }

  /** `s.map(f)`. */
  function Map<T, U>(s: seq<T>, f: T -> U): (r: seq<U>)
    ensures |r| == |s|
    ensures forall i :: 0 <= i < |s| ==> r[i] == f(s[i])
    decreases |s|
  {
    if s == [] then [] else Map(s[..|s| - 1], f) + [f(s[|s| - 1])]
  }

  lemma MapSnoc<T, U>(s: seq<T>, x: T, f: T -> U)
    ensures Map(s + [x], f) == Map(s, f) + [f(x)]
  {
    assert (s + [x])[..|s|] == s;
  }

  /** `s.slice(0, end)` with JavaScript's treatment of a negative `end`
      (counted from the back) and of an `end` past the length. */
  function SliceTo<T>(s: seq<T>, end: int): (r: seq<T>)
    ensures r <= s
    ensures 0 <= end ==> |r| == if end < |s| then end else |s|
    ensures end < 0 ==> |r| == if |s| + end < 0 then 0 else |s| + end
  {
    if end >= 0 then (if end < |s| then s[..end] else s)
    else if |s| + end < 0 then [] else s[..|s| + end]
  }

  /** No element occurs twice. */
  predicate Distinct<T(==)>(s: seq<T>) {
    forall i, j :: 0 <= i < j < |s| ==> s[i] != s[j]
  }

  /** `a` is `b` with some elements left out, the rest kept in order. */
  predicate IsSubseq<T(==)>(a: seq<T>, b: seq<T>)
    decreases |b|
  {
    if a == [] then true
    else if b == [] then false
    else if a[|a| - 1] == b[|b| - 1] then IsSubseq(a[..|a| - 1], b[..|b| - 1])
    else IsSubseq(a, b[..|b| - 1])
  }

  /** Index of the first occurrence of `x` in `s`. */
  function FirstIndex<T(==)>(s: seq<T>, x: T): (k: nat)
    requires x in s
    ensures k < |s| && s[k] == x
    ensures forall j :: 0 <= j < k ==> s[j] != x
  {
    if s[0] == x then 0 else 1 + FirstIndex(s[1..], x)
  }

  /** `Array.from(new Set(s))`: the distinct elements of `s`, each at the
      place of its first occurrence. */
  function Dedup<T(==,!new)>(s: seq<T>): (r: seq<T>)
    ensures forall x :: x in r <==> x in s
    decreases |s|
  {
    if s == [] then []
    else
      var d := Dedup(s[..|s| - 1]);
      if s[|s| - 1] in d then d else d + [s[|s| - 1]]
  }

  /** The values of `Dedup(s)` are distinct and in the order of their first
      occurrence in `s`. */
  lemma {:induction false} DedupOrdered<T(!new)>(s: seq<T>)
    ensures Distinct(Dedup(s))
    ensures forall i, j :: 0 <= i < j < |Dedup(s)| ==> FirstIndex(s, Dedup(s)[i]) < FirstIndex(s, Dedup(s)[j])
    decreases |s|
  {
    if s != [] {
      var init, last := s[..|s| - 1], s[|s| - 1];
      DedupOrdered(init);
      assert s == init + [last];
      FirstIndexPrefix(init, last);
    }
  }

  /** The first `n` distinct elements of `s` hold `x`, unless `n` elements
      met before it already fill them. */
  lemma DedupSliceMissing<T(!new)>(s: seq<T>, n: nat, x: T)
    requires x in s
    ensures var r := SliceTo(Dedup(s), n);
      x in r || (|r| == n && forall y :: y in r ==> y in s && FirstIndex(s, y) < FirstIndex(s, x))
  {
    var d := Dedup(s);
    var r := SliceTo(d, n);
    if x !in r {
      DedupOrdered(s);
      var k :| 0 <= k < |d| && d[k] == x;
      forall y | y in r
        ensures y in s && FirstIndex(s, y) < FirstIndex(s, x)
      {
        var i :| 0 <= i < |r| && r[i] == y;
        assert d[i] == y && i < k;
      }
    }
  }

  /** `Set.prototype.add` on an insertion-ordered set whose contents are the
      distinct values of `added`: the set afterwards holds those of
      `added + [x]`. */
  method AddToSet<T(==,!new)>(members: seq<T>, x: T, ghost added: seq<T>) returns (r: seq<T>)
    requires members == Dedup(added)
    ensures r == Dedup(added + [x])
  {
    DedupSnoc(added, x);
    if x in members {
      r := members;
    } else {
      r := members + [x];
    }
  }

  /** The step from the distinct values of `s` to those of `s + [x]`. */
  lemma DedupSnoc<T(!new)>(s: seq<T>, x: T)
    ensures Dedup(s + [x]) == if x in s then Dedup(s) else Dedup(s) + [x]
  {
    assert (s + [x])[..|s|] == s;
  }

  /** `s.flatMap(f)`. */
  function FlatMap<T, U>(s: seq<T>, f: T -> seq<U>): seq<U> {
    if s == [] then [] else FlatMap(s[..|s| - 1], f) + f(s[|s| - 1])
  }

  /** The step a loop over `s[..i]` takes. */
  lemma FlatMapSnoc<T, U>(s: seq<T>, i: nat, f: T -> seq<U>)
    requires i < |s|
    ensures FlatMap(s[..i + 1], f) == FlatMap(s[..i], f) + f(s[i])
  {
    assert s[..i + 1][..i] == s[..i];
  }

  /** An element of `s.flatMap(f)` comes from some element of `s`, and every
      element that `f` yields for an element of `s` is in it. */
  lemma {:induction false} FlatMapMembers<T(!new), U(!new)>(s: seq<T>, f: T -> seq<U>)
    ensures forall x :: x in FlatMap(s, f) <==> exists t :: t in s && x in f(t)
    decreases |s|
  {
    if s != [] {
      var init, last := s[..|s| - 1], s[|s| - 1];
      FlatMapMembers(init, f);
      assert s == init + [last];
      assert FlatMap(s, f) == FlatMap(init, f) + f(last);
      forall x | x in FlatMap(s, f)
        ensures exists t :: t in s && x in f(t)
      {
        if x in FlatMap(init, f) {
          var t :| t in init && x in f(t);
          assert t in s;
        } else {
          assert x in f(last);
        }
      }
      forall x, t | t in s && x in f(t)
        ensures x in FlatMap(s, f)
      {
        if t != last {
          assert t in init;
        }
      }
    }
  }

  /** Appending an element does not move the first occurrences of the earlier
      elements, and a new element's first occurrence is at the end. */
  lemma {:induction false} FirstIndexPrefix<T>(init: seq<T>, last: T)
    ensures forall x :: x in init ==> FirstIndex(init + [last], x) == FirstIndex(init, x)
    ensures last !in init ==> FirstIndex(init + [last], last) == |init|
  {
    forall x | x in init
      ensures FirstIndex(init + [last], x) == FirstIndex(init, x)
    {
      var k := FirstIndex(init, x);
      assert (init + [last])[k] == x;
      var k' := FirstIndex(init + [last], x);
      assert k' <= k;
      assert init[k'] == x;
    }
  }

  // ---------------------------------------------------------------------
  // Facts about Filter

  lemma {:induction false} FilterConcat<T(!new)>(a: seq<T>, b: seq<T>, p: T -> bool)
    ensures Filter(a + b, p) == Filter(a, p) + Filter(b, p)
    decreases |b|
  {
    if b == [] {
      assert a + b == a;
    } else {
      var b' := b[..|b| - 1];
      assert (a + b)[..|a + b| - 1] == a + b';
      assert (a + b)[|a + b| - 1] == b[|b| - 1];
      FilterConcat(a, b', p);
    }
  }

  /** The step a loop over `s[..i]` takes. */
  lemma FilterSnoc<T(!new)>(s: seq<T>, i: nat, p: T -> bool)
    requires i < |s|
    ensures Filter(s[..i + 1], p) == Filter(s[..i], p) + (if p(s[i]) then [s[i]] else [])
  {
    assert s[..i + 1][..i] == s[..i];
  }

  lemma {:induction false} FilterIdentity<T(!new)>(s: seq<T>, p: T -> bool)
    requires forall x :: x in s ==> p(x)
    ensures Filter(s, p) == s
    decreases |s|
  {
    if s != [] {
      assert s == s[..|s| - 1] + [s[|s| - 1]];
      FilterIdentity(s[..|s| - 1], p);
    }
  }

  /** Filtering twice is filtering once by the conjunction. */
  lemma {:induction false} FilterFilter<T(!new)>(s: seq<T>, p: T -> bool, q: T -> bool, pq: T -> bool)
    requires forall x :: pq(x) == (p(x) && q(x))
    ensures Filter(Filter(s, p), q) == Filter(s, pq)
    decreases |s|
  {
    if s != [] {
      var init, last := s[..|s| - 1], s[|s| - 1];
      FilterFilter(init, p, q, pq);
      FilterConcat(Filter(init, p), if p(last) then [last] else [], q);
    }
  }

  /** `filter` keeps every occurrence of each element that passes, and no
      other. */
  lemma {:induction false} FilterMultiset<T(!new)>(s: seq<T>, p: T -> bool)
    ensures forall x :: multiset(Filter(s, p))[x] == if p(x) then multiset(s)[x] else 0
    decreases |s|
  {
    if s != [] {
      var init := s[..|s| - 1];
      assert s == init + [s[|s| - 1]];
      FilterMultiset(init, p);
    }
  }

  /** Filters by predicates that agree on `s` give the same result. */
  lemma {:induction false} FilterCongruent<T(!new)>(s: seq<T>, p: T -> bool, q: T -> bool)
    requires forall x :: x in s ==> p(x) == q(x)
    ensures Filter(s, p) == Filter(s, q)
    decreases |s|
  {
    if s != [] {
      assert s == s[..|s| - 1] + [s[|s| - 1]];
      FilterCongruent(s[..|s| - 1], p, q);
    }
  }

  /** Filtering keeps the survivors in their order. */
  lemma {:induction false} FilterIsSubseq<T(!new)>(s: seq<T>, p: T -> bool)
    ensures IsSubseq(Filter(s, p), s)
    decreases |s|
  {
    if s != [] {
      var init, last := s[..|s| - 1], s[|s| - 1];
      FilterIsSubseq(init, p);
      if p(last) {
        var r := Filter(s, p);
        assert r == Filter(init, p) + [last];
        assert r[..|r| - 1] == Filter(init, p);
        assert r[|r| - 1] == s[|s| - 1];
        assert IsSubseq(r[..|r| - 1], s[..|s| - 1]);
        assert IsSubseq(r, s);
      } else {
        SubseqSnoc(Filter(init, p), init, last);
        assert s == init + [last];
        assert Filter(s, p) == Filter(init, p);
      }
    }
  }

  /** Filtering a sequence that has no duplicates leaves none. */
  lemma {:induction false} FilterDistinct<T(!new)>(s: seq<T>, p: T -> bool)
    requires Distinct(s)
    ensures Distinct(Filter(s, p))
    decreases |s|
  {
    if s != [] {
      var init, last := s[..|s| - 1], s[|s| - 1];
      FilterDistinct(init, p);
      assert last !in init;
    }
  }

  // ---------------------------------------------------------------------
  // Facts about IsSubseq

  lemma {:induction false} SubseqDropLast<T>(a: seq<T>, b: seq<T>)
    requires a != [] && IsSubseq(a, b)
    ensures IsSubseq(a[..|a| - 1], b)
    decreases |b|
  {
    var a' := a[..|a| - 1];
    var b' := b[..|b| - 1];
    if a[|a| - 1] == b[|b| - 1] {
      if a' != [] {
        if a'[|a'| - 1] == b[|b| - 1] {
          SubseqDropLast(a', b');
          assert a'[..|a'| - 1] == a[..|a| - 2];
        } else {
          assert IsSubseq(a', b');
        }
      }
    } else {
      SubseqDropLast(a, b');
      if a' != [] && a'[|a'| - 1] == b[|b| - 1] {
        SubseqDropLast(a', b');
      }
    }
  }

  lemma {:induction false} SubseqSnoc<T>(a: seq<T>, b: seq<T>, x: T)
    requires IsSubseq(a, b)
    ensures IsSubseq(a, b + [x])
  {
    assert (b + [x])[..|b|] == b;
    if a != [] && a[|a| - 1] == x {
      SubseqDropLast(a, b);
    }
  }

  /** A prefix of a subsequence is a subsequence. */
  lemma {:induction false} SubseqPrefix<T>(a: seq<T>, b: seq<T>, n: nat)
    requires IsSubseq(a, b) && n <= |a|
    ensures IsSubseq(a[..n], b)
    decreases |a| - n
  {
    if n == |a| {
      assert a[..n] == a;
    } else {
      SubseqPrefix(a, b, n + 1);
      SubseqDropLast(a[..n + 1], b);
      assert a[..n + 1][..n] == a[..n];
    }
  }

  /** Every element of a subsequence occurs in the sequence. */
  lemma {:induction false} SubseqMembers<T>(a: seq<T>, b: seq<T>)
    requires IsSubseq(a, b)
    ensures forall x :: x in a ==> x in b
    decreases |b|
  {
    if a != [] && b != [] {
      var b' := b[..|b| - 1];
      assert b == b' + [b[|b| - 1]];
      if a[|a| - 1] == b[|b| - 1] {
        var a' := a[..|a| - 1];
        SubseqMembers(a', b');
        assert a == a' + [a[|a| - 1]];
      } else {
        SubseqMembers(a, b');
      }
    }
  }

  // ---------------------------------------------------------------------
  // Distinct and multisets

  lemma {:induction false} DistinctCounts<T>(s: seq<T>)
    requires Distinct(s)
    ensures forall x :: multiset(s)[x] <= 1
    decreases |s|
  {
    if s != [] {
      var init, last := s[..|s| - 1], s[|s| - 1];
      assert s == init + [last];
      DistinctCounts(init);
      assert last !in init;
    }
  }

  lemma CountsDistinct<T>(s: seq<T>)
    requires forall x :: multiset(s)[x] <= 1
    ensures Distinct(s)
  {
    forall i, j | 0 <= i < j < |s|
      ensures s[i] != s[j]
    {
      RepeatCounts(s, i, j);
    }
  }

  /** Two positions holding the same value make it occur at least twice. */
  lemma RepeatCounts<T>(s: seq<T>, i: nat, j: nat)
    requires i < j < |s|
    ensures s[i] == s[j] ==> multiset(s)[s[j]] >= 2
  {
    var x := s[j];
    assert s == s[..i] + [s[i]] + s[i + 1..j] + [x] + s[j + 1..];
    assert multiset(s) == multiset(s[..i]) + multiset{s[i]} + multiset(s[i + 1..j]) + multiset{x} + multiset(s[j + 1..]);
  }

  /** A permutation of a sequence without duplicates has none. */
  lemma DistinctPermutation<T>(a: seq<T>, b: seq<T>)
    requires Distinct(a) && multiset(a) == multiset(b)
    ensures Distinct(b)
  {
    DistinctCounts(a);
    CountsDistinct(b);
  }
}
