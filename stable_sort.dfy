/** The stable sort behind `Array.prototype.sort(compare)`: `le(a, b)` holds
    when `compare(a, b) <= 0`, i.e. when `a` may stay in front of `b`. */
module StableSort {
  import opened Seqs

  ghost predicate TotalPreorder<T(!new)>(le: (T, T) -> bool) {
    && (forall x, y :: le(x, y) || le(y, x))
    && (forall x, y, z :: le(x, y) && le(y, z) ==> le(x, z))
  }

  predicate Sorted<T>(s: seq<T>, le: (T, T) -> bool) {
    forall i, j :: 0 <= i < j < |s| ==> le(s[i], s[j])
  }

  /** Put `x` in front of the first element it may precede. */
  function Insert<T>(x: T, t: seq<T>, le: (T, T) -> bool): (r: seq<T>)
    ensures |r| == |t| + 1
    ensures multiset(r) == multiset(t) + multiset{x}
  {
    if t == [] then [x]
    else if le(x, t[0]) then [x] + t
    else
      assert t == [t[0]] + t[1..];
      [t[0]] + Insert(x, t[1..], le)
  }

  /** Insertion sort; an element is inserted in front of every element that
      came after it in the input and compares equal, so ties keep their order. */
  function Sort<T>(s: seq<T>, le: (T, T) -> bool): (r: seq<T>)
    ensures |r| == |s|
    ensures multiset(r) == multiset(s)
  {
    if s == [] then []
    else
      assert s == [s[0]] + s[1..];
      Insert(s[0], Sort(s[1..], le), le)
  }

  lemma {:induction false} InsertSorted<T(!new)>(x: T, t: seq<T>, le: (T, T) -> bool)
    requires TotalPreorder(le) && Sorted(t, le)
    ensures Sorted(Insert(x, t, le), le)
    decreases |t|
  {
    if t != [] && !le(x, t[0]) {
      InsertSorted(x, t[1..], le);
      var r := Insert(x, t, le);
      assert le(t[0], x);
      forall j | 1 <= j < |r|
        ensures le(t[0], r[j])
      {
        assert r[j] in multiset(t[1..]) + multiset{x} by {
          assert r[j] in multiset(r[1..]);
        }
      }
    }
  }

  /** The result is ordered. */
  lemma {:induction false} SortSorted<T(!new)>(s: seq<T>, le: (T, T) -> bool)
    requires TotalPreorder(le)
    ensures Sorted(Sort(s, le), le)
    decreases |s|
  {
    if s != [] {
      SortSorted(s[1..], le);
      InsertSorted(s[0], Sort(s[1..], le), le);
    }
  }

  /** A predicate that only holds of mutually equivalent elements: one
      class of ties. */
  ghost predicate TieClass<T(!new)>(p: T -> bool, le: (T, T) -> bool) {
    forall x, y :: p(x) && p(y) ==> le(x, y)
  }

  lemma {:induction false} InsertStable<T(!new)>(x: T, t: seq<T>, le: (T, T) -> bool, p: T -> bool)
    requires TieClass(p, le)
    ensures Filter(Insert(x, t, le), p) == Filter([x] + t, p)
    decreases |t|
  {
    if t != [] && !le(x, t[0]) {
      InsertStable(x, t[1..], le, p);
      InsertPastHead(x, t, le, p);
    }
  }

  /** When `x` moves past the head of `t`, the two are not in one class of
      ties, so the kept elements come out in the order of `[x] + t`. */
  lemma InsertPastHead<T(!new)>(x: T, t: seq<T>, le: (T, T) -> bool, p: T -> bool)
    requires t != [] && !le(x, t[0]) && !(p(x) && p(t[0]))
    requires Filter(Insert(x, t[1..], le), p) == Filter([x] + t[1..], p)
    ensures Filter(Insert(x, t, le), p) == Filter([x] + t, p)
  {
    var head, rest := t[0], t[1..];
    calc {
      Filter(Insert(x, t, le), p);
      Filter([head] + Insert(x, rest, le), p);
      { FilterConcat([head], Insert(x, rest, le), p); }
      Filter([head], p) + Filter(Insert(x, rest, le), p);
      Filter([head], p) + Filter([x] + rest, p);
      { FilterCons(head, [x] + rest, p); }
      Filter([head] + ([x] + rest), p);
      { FilterSwap(head, x, rest, p); }
      Filter([x] + ([head] + rest), p);
      { assert [head] + rest == t; }
      Filter([x] + t, p);
    }
  }

  lemma FilterCons<T(!new)>(a: T, rest: seq<T>, p: T -> bool)
    ensures Filter([a] + rest, p) == Filter([a], p) + Filter(rest, p)
  {
    FilterConcat([a], rest, p);
  }

  /** Two neighbours that are not both kept may trade places. */
  lemma FilterSwap<T(!new)>(a: T, b: T, rest: seq<T>, p: T -> bool)
    requires !(p(a) && p(b))
    ensures Filter([a] + ([b] + rest), p) == Filter([b] + ([a] + rest), p)
  {
    var fa, fb, fr := Filter([a], p), Filter([b], p), Filter(rest, p);
    calc {
      Filter([a] + ([b] + rest), p);
      { FilterCons(a, [b] + rest, p); }
      fa + Filter([b] + rest, p);
      { FilterCons(b, rest, p); }
      fa + (fb + fr);
      { FilterSingleton(a, p); FilterSingleton(b, p); assert fa == [] || fb == []; }
      fb + (fa + fr);
      { FilterCons(a, rest, p); }
      fb + Filter([a] + rest, p);
      { FilterCons(b, [a] + rest, p); }
      Filter([b] + ([a] + rest), p);
    }
  }

  lemma FilterSingleton<T(!new)>(a: T, p: T -> bool)
    ensures Filter([a], p) == if p(a) then [a] else []
  {
    assert [a][..0] == [];
  }

  /** Stability: within each class of ties, the order of the input is kept. */
  lemma {:induction false} SortStable<T(!new)>(s: seq<T>, le: (T, T) -> bool, p: T -> bool)
    requires TieClass(p, le)
    ensures Filter(Sort(s, le), p) == Filter(s, p)
    decreases |s|
  {
    if s != [] {
      var rest := s[1..];
      calc {
        Filter(Sort(s, le), p);
        { InsertStable(s[0], Sort(rest, le), le, p); }
        Filter([s[0]] + Sort(rest, le), p);
        { FilterConcat([s[0]], Sort(rest, le), p); }
        Filter([s[0]], p) + Filter(Sort(rest, le), p);
        { SortStable(rest, le, p); }
        Filter([s[0]], p) + Filter(rest, p);
        { FilterConcat([s[0]], rest, p); assert [s[0]] + rest == s; }
        Filter(s, p);
      }
    }
  }

  /** The elements of a tie class in a prefix of the sorted sequence are
      the first elements of that class in the input. */
  lemma SortedPrefixTies<T(!new)>(s: seq<T>, le: (T, T) -> bool, p: T -> bool, n: int)
    requires TieClass(p, le)
    ensures Filter(SliceTo(Sort(s, le), n), p) <= Filter(s, p)
  {
    var sorted := Sort(s, le);
    var r := SliceTo(sorted, n);
    SortStable(s, le, p);
    assert sorted == r + sorted[|r|..];
    FilterConcat(r, sorted[|r|..], p);
  }

  /** An ordered input is returned unchanged. */
  lemma {:induction false} SortOfSorted<T>(s: seq<T>, le: (T, T) -> bool)
    requires Sorted(s, le)
    ensures Sort(s, le) == s
    decreases |s|
  {
    if s != [] {
      SortOfSorted(s[1..], le);
      assert s == [s[0]] + s[1..];
    }
  }

  /** Sorting twice by the same key is sorting once. */
  lemma SortIdempotent<T(!new)>(s: seq<T>, le: (T, T) -> bool)
    requires TotalPreorder(le)
    ensures Sort(Sort(s, le), le) == Sort(s, le)
  {
    SortSorted(s, le);
    SortOfSorted(Sort(s, le), le);
  }
}
