/** `getRelatedUseCases` (src/utils/searchUtils.js): every other record is
    scored by its similarity to the given one, records with a positive score
    are sorted by descending score (ties in collection order) and the first
    `limit` are kept. */
module Related {
  import opened Wrappers
  import opened Seqs
  import opened StableSort
  import opened UseCases
  import opened Ordering
  import opened Search

  /** `theirs.filter(x => mine.includes(x)).length` when both lists are
      present, else 0: the candidate's entries that the record also lists, a
      repeated entry of the candidate counting each time. */
  function Shared(theirs: Option<seq<string>>, mine: Option<seq<string>>): (n: nat)
    ensures theirs.None? || mine.None? ==> n == 0
    ensures n <= |ListOrEmpty(theirs)|
  {
    if theirs.Some? && mine.Some? then |Filter(theirs.value, (x: string) => x in mine.value)| else 0
  }

  /** The similarity of candidate `c` to record `rec`. Category and risk level
      are compared with `===`, so two records that both lack one still earn
      the points (a `null` and a missing value are both `None` here); the
      subcategory must be present and equal. */
  function Similarity(rec: UseCase, c: UseCase): (s: nat)
    ensures c.category == rec.category ==> s >= 50
    ensures s <= 100 + 10 * |ListOrEmpty(c.surfaces)| + 10 * |ListOrEmpty(c.modes)| + 5 * |ListOrEmpty(c.tags)|
  {
    (if c.category == rec.category then 50 else 0)
    + (if Truthy(c.subcategory) && c.subcategory == rec.subcategory then 30 else 0)
    + 10 * Shared(c.surfaces, rec.surfaces)
    + 10 * Shared(c.modes, rec.modes)
    + 5 * Shared(c.tags, rec.tags)
    + (if c.riskLevel == rec.riskLevel then 10 else 0)
  }

  function SimilarityTo(rec: UseCase): UseCase -> nat {
    (c: UseCase) => Similarity(rec, c)
  }

  /** `allUseCases.filter(uc => uc.id !== useCase.id)`. */
  function Candidates(rec: UseCase, all: seq<UseCase>): (r: seq<UseCase>)
    ensures forall c :: c in r <==> c in all && c.id != rec.id
    ensures IsSubseq(r, all)
    ensures forall c :: multiset(r)[c] == if c.id != rec.id then multiset(all)[c] else 0
  {
    FilterIsSubseq(all, (c: UseCase) => c.id != rec.id);
    FilterMultiset(all, (c: UseCase) => c.id != rec.id);
    Filter(all, (c: UseCase) => c.id != rec.id)
  }

  /** The scored candidates. */
  function Similar(rec: UseCase, all: seq<UseCase>): seq<UseCase> {
    Scored(Candidates(rec, all), SimilarityTo(rec))
  }

  /** The records of the collection related to `rec`: another id and a
      positive similarity, in collection order, each as often as it occurs. */
  function Relevant(rec: UseCase, all: seq<UseCase>): (r: seq<UseCase>)
    ensures IsSubseq(r, all)
    ensures forall c :: multiset(r)[c] == if c.id != rec.id && Similarity(rec, c) > 0 then multiset(all)[c] else 0
  {
    FilterIsSubseq(all, (c: UseCase) => c.id != rec.id && Similarity(rec, c) > 0);
    FilterMultiset(all, (c: UseCase) => c.id != rec.id && Similarity(rec, c) > 0);
    Filter(all, (c: UseCase) => c.id != rec.id && Similarity(rec, c) > 0)
  }

  /** The scored candidates are the related records, in collection order,
      each extended with its similarity. */
  lemma SimilarInCollectionOrder(rec: UseCase, all: seq<UseCase>)
    ensures |Similar(rec, all)| == |Relevant(rec, all)|
    ensures forall i :: 0 <= i < |Relevant(rec, all)| ==>
      Similar(rec, all)[i] == Rescored(Relevant(rec, all)[i], SimilarityTo(rec))
  {
    var score := SimilarityTo(rec);
    FilterFilter(all, (c: UseCase) => c.id != rec.id, (u: UseCase) => score(u) > 0,
                 (c: UseCase) => c.id != rec.id && Similarity(rec, c) > 0);
    assert Positives(Candidates(rec, all), score) == Relevant(rec, all);
  }

  /** `getRelatedUseCases(useCase, allUseCases, limit)`; `None` stands for a
      missing record. */
  function RelatedUseCases(rec: Option<UseCase>, all: seq<UseCase>, limit: int): (r: seq<UseCase>)
    ensures rec.None? ==> r == []
    ensures limit >= 0 ==> |r| <= limit
    ensures rec.Some? ==> r <= Sort(Similar(rec.value, all), ScoreFirst)
    // `slice(0, limit)` keeps the first `limit` records, or all when fewer;
    // a negative limit drops that many from the end.
    ensures rec.Some? && limit >= 0 ==>
      |r| == if limit < |Similar(rec.value, all)| then limit else |Similar(rec.value, all)|
    ensures rec.Some? && limit < 0 ==>
      |r| == if |Similar(rec.value, all)| + limit < 0 then 0 else |Similar(rec.value, all)| + limit
  {
    if rec.None? then [] else SliceTo(Sort(Similar(rec.value, all), ScoreFirst), limit)
  }

  lemma ScoreFirstTotal()
    ensures TotalPreorder(ScoreFirst)
  {
  }

  /** No related record is the record itself (by id), and each carries its
      positive similarity score. */
  lemma RelatedMembers(rec: UseCase, all: seq<UseCase>, limit: int)
    ensures forall x :: x in RelatedUseCases(Some(rec), all, limit) ==>
      x.id != rec.id && x.score.Some? && x.score.value > 0
      && exists c :: c in all && x == c.(score := Some(Similarity(rec, c)))
  {
    SimilarMembers(rec, all);
    var ranked := Sort(Similar(rec, all), ScoreFirst);
    forall x | x in RelatedUseCases(Some(rec), all, limit)
      ensures x in Similar(rec, all)
    {
      assert x in multiset(ranked);
    }
  }

  /** The same, before sorting and cutting. */
  lemma SimilarMembers(rec: UseCase, all: seq<UseCase>)
    ensures forall x :: x in Similar(rec, all) ==>
      x.id != rec.id && x.score.Some? && x.score.value > 0
      && exists c :: c in all && x == c.(score := Some(Similarity(rec, c)))
  {
    ScoredMembers(Candidates(rec, all), SimilarityTo(rec));
    forall x | x in Similar(rec, all)
      ensures x.id != rec.id && x.score.Some? && x.score.value > 0
      ensures exists c :: c in all && x == c.(score := Some(Similarity(rec, c)))
    {
      var c :| c in Candidates(rec, all) && SimilarityTo(rec)(c) > 0 && x == Rescored(c, SimilarityTo(rec));
      assert x.id == c.id;
    }
  }

  /** Scores never increase along the result. */
  lemma RelatedOrdered(rec: UseCase, all: seq<UseCase>, limit: int)
    ensures var r := RelatedUseCases(Some(rec), all, limit);
      forall i, j :: 0 <= i < j < |r| ==> ScoreKey(r[i]) >= ScoreKey(r[j])
  {
    ScoreFirstTotal();
    SortSorted(Similar(rec, all), ScoreFirst);
  }

  /** Records with equal scores appear in collection order: those of score
      `k` in the result are the first ones of score `k` among the scored
      candidates, and those are the related records in collection order. */
  lemma RelatedTiesInOrder(rec: UseCase, all: seq<UseCase>, limit: int, k: int)
    ensures Filter(RelatedUseCases(Some(rec), all, limit), (x: UseCase) => ScoreKey(x) == k)
         <= Filter(Similar(rec, all), (x: UseCase) => ScoreKey(x) == k)
    ensures |Similar(rec, all)| == |Relevant(rec, all)|
    ensures forall i :: 0 <= i < |Relevant(rec, all)| ==>
      Similar(rec, all)[i] == Rescored(Relevant(rec, all)[i], SimilarityTo(rec))
  {
    SimilarInCollectionOrder(rec, all);
    SortedPrefixTies(Similar(rec, all), ScoreFirst, (x: UseCase) => ScoreKey(x) == k, limit);
  }
}
