/** `sortResults` (src/utils/searchUtils.js): a stable sort of a copy of the
    results by one of six keys; any other key leaves the order as it is.
    `String.prototype.localeCompare` is a parameter: `collate(a, b)` holds when
    `a.localeCompare(b) <= 0`. */
module Ordering {
  import opened Wrappers
  import opened Seqs
  import opened StableSort
  import opened UseCases

  /** `x.score || 0`. */
  function ScoreKey(u: UseCase): int {
    NumberOrZero(u.score)
  }

  /** `x.metrics?.time_saved_min || 0`. */
  function TimeSavedKey(u: UseCase): int {
    NumberOrZero(u.timeSavedMin)
  }

  /** `{ low: 1, medium: 2, high: 3 }[x.risk_level] || 999`. */
  function RiskRankAsc(u: UseCase): int {
    if u.riskLevel == Some("low") then 1
    else if u.riskLevel == Some("medium") then 2
    else if u.riskLevel == Some("high") then 3
    else 999
  }

  /** `{ high: 1, medium: 2, low: 3 }[x.risk_level] || 999`. */
  function RiskRankDesc(u: UseCase): int {
    if u.riskLevel == Some("high") then 1
    else if u.riskLevel == Some("medium") then 2
    else if u.riskLevel == Some("low") then 3
    else 999
  }

  /** The `relevance` comparator `(b.score || 0) - (a.score || 0)` is at most
      zero: `a` may stay in front of `b`. */
  predicate ScoreFirst(a: UseCase, b: UseCase) {
    ScoreKey(a) >= ScoreKey(b)
  }

  /** The relation "may stay in front of" that each known sort key's
      comparator induces; `None` for a key the switch does not know. */
  function Comparator(sortBy: string, collate: (string, string) -> bool): (cmp: Option<(UseCase, UseCase) -> bool>)
    ensures cmp.Some? <==> sortBy in {"relevance", "time_saved", "risk_asc", "risk_desc", "category", "title"}
  {
    if sortBy == "relevance" then Some(ScoreFirst)
    else if sortBy == "time_saved" then Some((a: UseCase, b: UseCase) => TimeSavedKey(a) >= TimeSavedKey(b))
    else if sortBy == "risk_asc" then Some((a: UseCase, b: UseCase) => RiskRankAsc(a) <= RiskRankAsc(b))
    else if sortBy == "risk_desc" then Some((a: UseCase, b: UseCase) => RiskRankDesc(a) <= RiskRankDesc(b))
    else if sortBy == "category" then
      Some((a: UseCase, b: UseCase) => collate(TextOrEmpty(a.category), TextOrEmpty(b.category)))
    else if sortBy == "title" then
      Some((a: UseCase, b: UseCase) => collate(TextOrEmpty(a.title), TextOrEmpty(b.title)))
    else None
  }

  /** `sortResults(results, sortBy)`: a reordering of `results`; an unknown
      key returns the copy in input order. */
  function SortResults(results: seq<UseCase>, sortBy: string, collate: (string, string) -> bool): (r: seq<UseCase>)
    ensures multiset(r) == multiset(results)
    ensures Comparator(sortBy, collate).None? ==> r == results
  {
    var c := Comparator(sortBy, collate);
    if c.None? then results else Sort(results, c.value)
  }

  /** Every known key's comparator is a total preorder once `collate` is. */
  lemma ComparatorTotal(sortBy: string, collate: (string, string) -> bool)
    requires TotalPreorder(collate)
    ensures Comparator(sortBy, collate).Some? ==> TotalPreorder(Comparator(sortBy, collate).value)
  {
    if sortBy == "category" {
      KeyedTotal(collate, (u: UseCase) => TextOrEmpty(u.category), Comparator(sortBy, collate).value);
    } else if sortBy == "title" {
      KeyedTotal(collate, (u: UseCase) => TextOrEmpty(u.title), Comparator(sortBy, collate).value);
    }
  }

  /** Comparing records by a key inherits totality and transitivity from the
      comparison of keys. */
  lemma KeyedTotal<K(!new)>(cmp: (K, K) -> bool, key: UseCase -> K, le: (UseCase, UseCase) -> bool)
    requires TotalPreorder(cmp)
    requires forall a, b :: le(a, b) == cmp(key(a), key(b))
    ensures TotalPreorder(le)
  {
    forall a, b, c | le(a, b) && le(b, c)
      ensures le(a, c)
    {
      assert cmp(key(a), key(b)) && cmp(key(b), key(c));
    }
    forall a, b
      ensures le(a, b) || le(b, a)
    {
      assert cmp(key(a), key(b)) || cmp(key(b), key(a));
    }
  }

  /** The order each key produces. */
  lemma SortResultsOrdered(results: seq<UseCase>, sortBy: string, collate: (string, string) -> bool)
    requires TotalPreorder(collate)
    ensures var r := SortResults(results, sortBy, collate);
      && (sortBy == "relevance" ==> forall i, j :: 0 <= i < j < |r| ==> ScoreKey(r[i]) >= ScoreKey(r[j]))
      && (sortBy == "time_saved" ==> forall i, j :: 0 <= i < j < |r| ==> TimeSavedKey(r[i]) >= TimeSavedKey(r[j]))
      && (sortBy == "risk_asc" ==> forall i, j :: 0 <= i < j < |r| ==> RiskRankAsc(r[i]) <= RiskRankAsc(r[j]))
      && (sortBy == "risk_desc" ==> forall i, j :: 0 <= i < j < |r| ==> RiskRankDesc(r[i]) <= RiskRankDesc(r[j]))
      && (sortBy == "category" ==> forall i, j :: 0 <= i < j < |r| ==>
            collate(TextOrEmpty(r[i].category), TextOrEmpty(r[j].category)))
      && (sortBy == "title" ==> forall i, j :: 0 <= i < j < |r| ==>
            collate(TextOrEmpty(r[i].title), TextOrEmpty(r[j].title)))
  {
    ComparatorTotal(sortBy, collate);
    match Comparator(sortBy, collate)
    case None =>
    case Some(le) => SortSorted(results, le);
  }

  /** Stability: records that compare equal keep their input order. */
  lemma SortResultsStable(results: seq<UseCase>, sortBy: string, collate: (string, string) -> bool,
                          ties: UseCase -> bool)
    requires Comparator(sortBy, collate).Some? ==> TieClass(ties, Comparator(sortBy, collate).value)
    ensures Filter(SortResults(results, sortBy, collate), ties) == Filter(results, ties)
  {
    match Comparator(sortBy, collate)
    case None =>
    case Some(le) => SortStable(results, le, ties);
  }

  /** Among equal relevance scores the input order is kept. */
  lemma RelevanceTiesKeepOrder(results: seq<UseCase>, collate: (string, string) -> bool, k: int)
    ensures Filter(SortResults(results, "relevance", collate), (u: UseCase) => ScoreKey(u) == k)
         == Filter(results, (u: UseCase) => ScoreKey(u) == k)
  {
    SortResultsStable(results, "relevance", collate, (u: UseCase) => ScoreKey(u) == k);
  }

  /** Sorting sorted results again changes nothing. */
  lemma SortResultsIdempotent(results: seq<UseCase>, sortBy: string, collate: (string, string) -> bool)
    requires TotalPreorder(collate)
    ensures SortResults(SortResults(results, sortBy, collate), sortBy, collate) == SortResults(results, sortBy, collate)
  {
    ComparatorTotal(sortBy, collate);
    match Comparator(sortBy, collate)
    case None =>
    case Some(le) => SortIdempotent(results, le);
  }
}
