/** The filter panel's editing of its local filters
    (src/components/FilterPanel.jsx): toggling one value of one dimension,
    counting the selected values, and clearing. */
module FilterPanel {
  import opened Wrappers
  import opened Seqs
  import opened FilterSets

  /** `current.filter(v => v !== value)`. */
  function Without(current: seq<string>, value: string): (r: seq<string>)
    ensures value !in r
    ensures forall v :: v != value ==> (v in r <==> v in current)
    ensures IsSubseq(r, current)
    ensures |r| + multiset(current)[value] == |current|
  {
    FilterIsSubseq(current, v => v != value);
    WithoutCount(current, value);
    Filter(current, v => v != value)
  }

  /** Removing a value removes each of its occurrences and nothing else. */
  lemma {:induction false} WithoutCount(s: seq<string>, value: string)
    ensures |Filter(s, v => v != value)| + multiset(s)[value] == |s|
    decreases |s|
  {
    if s != [] {
      var init := s[..|s| - 1];
      assert s == init + [s[|s| - 1]];
      WithoutCount(init, value);
    }
  }

  /** `handleToggle(filterType, value)` applied to `prev`: a selected value is
      removed, any other is appended, and every other dimension keeps its
      values. */
  function HandleToggle(prev: FilterSet, filterType: string, value: string): (r: FilterSet)
    ensures value in Values(prev, filterType) <==> value !in Values(r, filterType)
    ensures forall v :: v != value ==> (v in Values(r, filterType) <==> v in Values(prev, filterType))
    ensures value in Values(prev, filterType) ==> IsSubseq(Values(r, filterType), Values(prev, filterType))
    ensures value !in Values(prev, filterType) ==> Values(r, filterType) == Values(prev, filterType) + [value]
    ensures forall k :: k != filterType ==> Values(r, k) == Values(prev, k)
    ensures HasKey(r, filterType)
    ensures WellFormed(prev) ==> WellFormed(r)
  {
    var current := Values(prev, filterType);
    var updated := if value in current then Without(current, value) else current + [value];
    PutKeys(prev, filterType, updated);
    Put(prev, filterType, updated)
  }

  /** Toggling a value that is not selected, then toggling it again,
      restores every dimension's values. */
  lemma ToggleTwice(prev: FilterSet, filterType: string, value: string)
    requires value !in Values(prev, filterType)
    ensures forall k :: Values(HandleToggle(HandleToggle(prev, filterType, value), filterType, value), k)
                     == Values(prev, k)
  {
    var current := Values(prev, filterType);
    var once := HandleToggle(prev, filterType, value);
    assert Values(once, filterType) == current + [value];
    FilterConcat(current, [value], v => v != value);
    FilterIdentity(current, v => v != value);
    assert Values(HandleToggle(once, filterType, value), filterType) == current;
  }

  /** `getActiveCount()`: the lengths of all value lists added up, a `null`
      list counting 0. */
  function ActiveCount(f: FilterSet): (n: nat)
    ensures forall k :: |Values(f, k)| <= n
  {
    if f == [] then 0
    else (if f[0].values.Some? then |f[0].values.value| else 0) + ActiveCount(f[1..])
  }

  /** Setting a dimension changes the count by the difference in its length. */
  lemma {:induction false} ActiveCountPut(f: FilterSet, k: string, vs: seq<string>)
    ensures ActiveCount(Put(f, k, vs)) + |Values(f, k)| == ActiveCount(f) + |vs|
    decreases |f|
  {
    if f != [] && f[0].key != k {
      ActiveCountPut(f[1..], k, vs);
      assert Put(f, k, vs)[1..] == Put(f[1..], k, vs);
    }
  }

  /** A toggle adds one to the count, or takes away every occurrence of the
      removed value. */
  lemma ToggleCount(prev: FilterSet, filterType: string, value: string)
    ensures var n := ActiveCount(HandleToggle(prev, filterType, value));
      && (value !in Values(prev, filterType) ==> n == ActiveCount(prev) + 1)
      && (value in Values(prev, filterType) ==>
            n + multiset(Values(prev, filterType))[value] == ActiveCount(prev))
  {
    var current := Values(prev, filterType);
    var updated := if value in current then Without(current, value) else current + [value];
    ActiveCountPut(prev, filterType, updated);
  }

  /** The panel: its local filters, the filters it last published to its
      parent, and whether it is open. */
  datatype Panel = Panel(local: FilterSet, published: FilterSet, isOpen: bool)

  /** `handleClear()`: the local and the published filters become `{}` and
      the panel closes. */
  function HandleClear(p: Panel): (r: Panel)
    ensures ActiveCount(r.local) == 0 && !r.isOpen
    ensures forall k :: Values(r.local, k) == [] && Values(r.published, k) == []
    ensures Keys(r.local) == [] && Keys(r.published) == []
  {
    Panel([], [], false)
  }
}
