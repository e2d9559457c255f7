/** `performSearch` (src/utils/searchUtils.js): the filter stage, the
    substring relevance scorer and the final sort. */
module Search {
  import opened Wrappers
  import opened Seqs
  import opened Text
  import opened UseCases
  import opened FilterSets
  import opened Ordering

  // ---------------------------------------------------------------------
  // Filter stage: dimensions combine with AND, values within one with OR

  /** `xs.some(x => accepted.includes(x))`. */
  predicate SharesAny(xs: seq<string>, accepted: seq<string>) {
    exists x :: x in xs && x in accepted
  }

  predicate SurfaceOk(f: FilterSet, u: UseCase) {
    |Values(f, Surfaces)| == 0 || SharesAny(ListOrEmpty(u.surfaces), Values(f, Surfaces))
  }

  predicate ModeOk(f: FilterSet, u: UseCase) {
    |Values(f, Modes)| == 0 || SharesAny(ListOrEmpty(u.modes), Values(f, Modes))
  }

  predicate RiskOk(f: FilterSet, u: UseCase) {
    |Values(f, RiskLevels)| == 0 || (u.riskLevel.Some? && u.riskLevel.value in Values(f, RiskLevels))
  }

  /** Some language is accepted, or `'all'` is accepted and the record lists
      no language. */
  predicate LanguageOk(f: FilterSet, u: UseCase) {
    var accepted := Values(f, Languages);
    |accepted| == 0
    || SharesAny(ListOrEmpty(u.languages), accepted)
    || ("all" in accepted && ListOrEmpty(u.languages) == [])
  }

  predicate CategoryOk(f: FilterSet, u: UseCase) {
    |Values(f, Categories)| == 0 || (u.category.Some? && u.category.value in Values(f, Categories))
  }

  /** A record passes every dimension that has accepted values. */
  predicate Admits(f: FilterSet, u: UseCase)
    ensures f == [] ==> Admits(f, u)
  {
    SurfaceOk(f, u) && ModeOk(f, u) && RiskOk(f, u) && LanguageOk(f, u) && CategoryOk(f, u)
  }

  /** The records that pass the filters, in their input order. */
  function Filtered(useCases: seq<UseCase>, f: FilterSet): (r: seq<UseCase>)
    ensures forall u :: u in r <==> u in useCases && Admits(f, u)
    ensures IsSubseq(r, useCases)
    ensures forall u :: multiset(r)[u] == if Admits(f, u) then multiset(useCases)[u] else 0
  {
    FilterIsSubseq(useCases, (u: UseCase) => Admits(f, u));
    FilterMultiset(useCases, (u: UseCase) => Admits(f, u));
    Filter(useCases, (u: UseCase) => Admits(f, u))
  }

  /** One filter stage: applied when `active`, skipped otherwise, it narrows
      the records admitted so far to those admitted by `after`. */
  lemma Narrow(s: seq<UseCase>, before: UseCase -> bool, keep: UseCase -> bool, after: UseCase -> bool, active: bool)
    requires forall u :: after(u) == (before(u) && (!active || keep(u)))
    ensures active ==> Filter(Filter(s, before), keep) == Filter(s, after)
    ensures !active ==> Filter(s, before) == Filter(s, after)
  {
    if active {
      FilterFilter(s, before, keep, after);
    } else {
      FilterCongruent(s, before, after);
    }
  }

  // ---------------------------------------------------------------------
  // Scoring

  /** How many of `xs` contain `q` once lower-cased. */
  function CountContaining(xs: seq<string>, q: string): (n: nat)
    ensures n <= |xs|
    decreases |xs|
  {
    if xs == [] then 0
    else CountContaining(xs[..|xs| - 1], q) + (if Contains(Lower(xs[|xs| - 1]), q) then 1 else 0)
  }

  /** The count is positive exactly when some element contains `q`. */
  lemma {:induction false} CountPositive(xs: seq<string>, q: string)
    ensures CountContaining(xs, q) > 0 <==> exists x :: x in xs && Contains(Lower(x), q)
    decreases |xs|
  {
    if xs != [] {
      var init, last := xs[..|xs| - 1], xs[|xs| - 1];
      assert xs == init + [last];
      CountPositive(init, q);
      if x :| x in xs && Contains(Lower(x), q) {
        assert x in init || x == last;
      }
    }
  }

  /** 100 when the title contains the query, 200 more when it equals it. */
  function TitleScore(u: UseCase, lq: string): nat {
    (if Truthy(u.title) && Contains(Lower(u.title.value), lq) then 100 else 0)
    + (if Truthy(u.title) && Lower(u.title.value) == lq then 200 else 0)
  }

  function CategoryScore(u: UseCase, lq: string): nat {
    if Truthy(u.category) && Contains(Lower(u.category.value), lq) then 50 else 0
  }

  function DescriptionScore(u: UseCase, lq: string): nat {
    if Truthy(u.description) && Contains(Lower(u.description.value), lq) then 30 else 0
  }

  /** 20 per tag and 15 per example prompt that contains the query. */
  function ListScore(u: UseCase, lq: string): nat {
    20 * CountContaining(ListOrEmpty(u.tags), lq) + 15 * CountContaining(ListOrEmpty(u.examplePrompts), lq)
  }

  /** The rules that compare whole attributes with the whole lower-cased query. */
  function WholeQueryScore(u: UseCase, lq: string): nat {
    TitleScore(u, lq) + CategoryScore(u, lq) + DescriptionScore(u, lq) + ListScore(u, lq)
  }

  function Present(o: Option<string>): seq<string> {
    if o.Some? then [o.value] else []
  }

  /** The attributes the per-term rule inspects: title, description,
      category, subcategory, every tag and every prompt, empty ones dropped. */
  function Fields(u: UseCase): (fs: seq<string>)
    ensures forall x :: x in fs ==> x != ""
  {
    Filter(Present(u.title) + Present(u.description) + Present(u.category) + Present(u.subcategory)
           + ListOrEmpty(u.tags) + ListOrEmpty(u.examplePrompts),
           (x: string) => x != "")
  }

  /** Every non-empty attribute the per-term rule names is among the fields. */
  lemma FieldsCover(u: UseCase)
    ensures forall x :: x in ListOrEmpty(u.tags) && x != "" ==> x in Fields(u)
    ensures forall x :: x in ListOrEmpty(u.examplePrompts) && x != "" ==> x in Fields(u)
    ensures Truthy(u.title) ==> u.title.value in Fields(u)
    ensures Truthy(u.description) ==> u.description.value in Fields(u)
    ensures Truthy(u.category) ==> u.category.value in Fields(u)
    ensures Truthy(u.subcategory) ==> u.subcategory.value in Fields(u)
  {
  }

  /** The number of (term, field) pairs where the field contains the term. */
  function TermHits(terms: seq<string>, fields: seq<string>): (n: nat)
    decreases |terms|
  {
    if terms == [] then 0
    else TermHits(terms[..|terms| - 1], fields) + CountContaining(fields, terms[|terms| - 1])
  }

  /** There is a hit exactly when some field contains some term. */
  lemma {:induction false} TermHitsPositive(terms: seq<string>, fields: seq<string>)
    ensures TermHits(terms, fields) > 0 <==> exists t, x :: t in terms && x in fields && Contains(Lower(x), t)
    decreases |terms|
  {
    if terms != [] {
      var init, last := terms[..|terms| - 1], terms[|terms| - 1];
      assert terms == init + [last];
      TermHitsPositive(init, fields);
      CountPositive(fields, last);
      if t, x :| t in terms && x in fields && Contains(Lower(x), t) {
        if t == last {
          assert CountContaining(fields, last) > 0;
        } else {
          assert t in init;
          assert TermHits(init, fields) > 0;
        }
      }
      if TermHits(terms, fields) > 0 {
        if TermHits(init, fields) > 0 {
          var t, x :| t in init && x in fields && Contains(Lower(x), t);
          assert t in terms;
        } else {
          var x :| x in fields && Contains(Lower(x), last);
          assert last in terms;
        }
      }
    }
  }

  /** The relevance score of one record for the lower-cased query `lq`. */
  function Score(u: UseCase, lq: string): nat {
    WholeQueryScore(u, lq) + 5 * TermHits(Terms(lq), Fields(u))
  }

  /** Scoring for a fixed lower-cased query, as a function of the record. */
  function Scorer(lq: string): UseCase -> nat {
    (u: UseCase) => Score(u, lq)
  }

  /** The body of the `map` callback: the whole-query rules in order, then the
      per-term loop over the fields. */
  method ScoreOf(u: UseCase, lq: string, terms: seq<string>) returns (score: nat)
    requires terms == Terms(lq)
    ensures score == Score(u, lq)
  {
    score := 0;
    if Truthy(u.title) && Contains(Lower(u.title.value), lq) {
      score := score + 100;
    }
    if Truthy(u.title) && Lower(u.title.value) == lq {
      score := score + 200;
    }
    assert score == TitleScore(u, lq);
    if Truthy(u.category) && Contains(Lower(u.category.value), lq) {
      score := score + 50;
    }
    assert score == TitleScore(u, lq) + CategoryScore(u, lq);
    if Truthy(u.description) && Contains(Lower(u.description.value), lq) {
      score := score + 30;
    }
    ghost var base := score + ListScore(u, lq);
    if u.tags.Some? {
      score := score + CountContaining(u.tags.value, lq) * 20;
    }
    if u.examplePrompts.Some? {
      score := score + CountContaining(u.examplePrompts.value, lq) * 15;
    }
    assert score == base;
    var points := TermPoints(terms, Fields(u));
    score := score + points;
  }

  /** `searchTerms.forEach(term => fields.forEach(...))`: 5 points for every
      (term, field) pair where the lower-cased field contains the term. */
  method TermPoints(terms: seq<string>, fields: seq<string>) returns (points: nat)
    ensures points == 5 * TermHits(terms, fields)
  {
    points := 0;
    var i := 0;
    while i < |terms|
      invariant 0 <= i <= |terms|
      invariant points == 5 * TermHits(terms[..i], fields)
    {
      var term := terms[i];
      var j := 0;
      while j < |fields|
        invariant 0 <= j <= |fields|
        invariant points == 5 * (TermHits(terms[..i], fields) + CountContaining(fields[..j], term))
      {
        assert fields[..j + 1][..j] == fields[..j];
        if Contains(Lower(fields[j]), term) {
          points := points + 5;
        }
        j := j + 1;
      }
      assert fields[..j] == fields;
      assert terms[..i + 1][..i] == terms[..i];
      i := i + 1;
    }
    assert terms[..i] == terms;
  }

  /** `{ ...useCase, score }`: the record extended with its score. */
  function Rescored(u: UseCase, score: UseCase -> nat): (x: UseCase)
    ensures x.score == Some(score(u))
    ensures x.(score := u.score) == u
  {
    u.(score := Some(score(u)))
  }

  /** The records with a positive score, in input order, each as often as
      it occurs. */
  function Positives(rs: seq<UseCase>, score: UseCase -> nat): (r: seq<UseCase>)
    ensures |r| <= |rs| && IsSubseq(r, rs)
    ensures forall u :: multiset(r)[u] == if score(u) > 0 then multiset(rs)[u] else 0
  {
    FilterIsSubseq(rs, (u: UseCase) => score(u) > 0);
    FilterMultiset(rs, (u: UseCase) => score(u) > 0);
    Filter(rs, (u: UseCase) => score(u) > 0)
  }

  /** `results.map(score it).filter(score > 0)`: the records with a positive
      score, in input order and each as often as it occurs, extended with
      that score. */
  function Scored(rs: seq<UseCase>, score: UseCase -> nat): (r: seq<UseCase>)
    ensures |r| == |Positives(rs, score)| <= |rs|
    ensures forall i :: 0 <= i < |r| ==> r[i] == Rescored(Positives(rs, score)[i], score)
    ensures forall x :: x in r ==> x.score.Some? && x.score.value > 0
  {
    var hits := Positives(rs, score);
    assert forall i :: 0 <= i < |hits| ==> hits[i] in hits;
    Map(hits, (u: UseCase) => Rescored(u, score))
  }

  /** A record is returned by the scorer exactly when it is an input record
      with a positive score, extended with that score. */
  lemma ScoredMembers(rs: seq<UseCase>, score: UseCase -> nat)
    ensures forall x :: x in Scored(rs, score) <==> exists u :: u in rs && score(u) > 0 && x == Rescored(u, score)
  {
    var hits := Positives(rs, score);
    var r := Scored(rs, score);
    forall x | x in r
      ensures exists u :: u in rs && score(u) > 0 && x == Rescored(u, score)
    {
      var i :| 0 <= i < |r| && r[i] == x;
      assert hits[i] in hits;
    }
    forall u | u in rs && score(u) > 0
      ensures Rescored(u, score) in r
    {
      assert u in hits;
      var i :| 0 <= i < |hits| && hits[i] == u;
      assert r[i] == Rescored(u, score);
    }
  }

  /** The scoring pass of `performSearch` over the filtered records. */
  method ScoreAll(results: seq<UseCase>, lq: string) returns (scored: seq<UseCase>)
    ensures scored == Scored(results, Scorer(lq))
  {
    var searchTerms := Terms(lq);
    scored := [];
    var i := 0;
    while i < |results|
      invariant 0 <= i <= |results|
      invariant scored == Scored(results[..i], Scorer(lq))
    {
      var u := results[i];
      var score := ScoreOf(u, lq, searchTerms);
      FilterSnoc(results, i, (u: UseCase) => Scorer(lq)(u) > 0);
      MapSnoc(Filter(results[..i], (u: UseCase) => Scorer(lq)(u) > 0), u, (u: UseCase) => Rescored(u, Scorer(lq)));
      if score > 0 {
        scored := scored + [u.(score := Some(score))];
      }
      i := i + 1;
    }
    assert results[..i] == results;
  }

  /** What `performSearch` returns. */
  function SearchResults(useCases: seq<UseCase>, query: string, filters: FilterSet, sortBy: string,
                         collate: (string, string) -> bool): (r: seq<UseCase>)
    ensures IsBlank(query) && |filters| == 0 ==> r == []
    ensures IsBlank(query) && |filters| > 0 ==> multiset(r) == multiset(Filtered(useCases, filters))
    ensures !IsBlank(query) ==> multiset(r) == multiset(Scored(Filtered(useCases, filters), Scorer(Lower(query))))
  {
    if IsBlank(query) && |filters| == 0 then []
    else if IsBlank(query) then SortResults(Filtered(useCases, filters), sortBy, collate)
    else SortResults(Scored(Filtered(useCases, filters), Scorer(Lower(query))), sortBy, collate)
  }

  /** For a non-blank query the results are exactly the filtered records with
      a positive score, each extended with its score. */
  lemma SearchHits(useCases: seq<UseCase>, query: string, filters: FilterSet, sortBy: string,
                   collate: (string, string) -> bool)
    requires !IsBlank(query)
    ensures var r := SearchResults(useCases, query, filters, sortBy, collate);
      var score := Scorer(Lower(query));
      forall x :: x in r <==>
        exists u :: u in useCases && Admits(filters, u) && score(u) > 0 && x == Rescored(u, score)
  {
    var r := SearchResults(useCases, query, filters, sortBy, collate);
    var score := Scorer(Lower(query));
    var scored := Scored(Filtered(useCases, filters), score);
    ScoredMembers(Filtered(useCases, filters), score);
    assert forall x :: x in r <==> x in multiset(r);
    assert forall x :: x in scored <==> x in multiset(scored);
  }

  /** `performSearch(useCases, query, filters, sortBy)`. */
  method PerformSearch(useCases: seq<UseCase>, query: string, filters: FilterSet, sortBy: string,
                       collate: (string, string) -> bool) returns (results: seq<UseCase>)
    ensures results == SearchResults(useCases, query, filters, sortBy, collate)
  {
    if IsBlank(query) && |Keys(filters)| == 0 {
      return [];
    }

    results := useCases;
    ghost var admitted: UseCase -> bool := (u: UseCase) => true;
    FilterIdentity(useCases, admitted);

    var surfaces := Values(filters, Surfaces);
    var bySurface := (u: UseCase) => SharesAny(ListOrEmpty(u.surfaces), surfaces);
    Narrow(useCases, admitted, bySurface, (u: UseCase) => SurfaceOk(filters, u), |surfaces| > 0);
    if |surfaces| > 0 {
      results := Filter(results, bySurface);
    }
    admitted := (u: UseCase) => SurfaceOk(filters, u);

    var modes := Values(filters, Modes);
    var byMode := (u: UseCase) => SharesAny(ListOrEmpty(u.modes), modes);
    Narrow(useCases, admitted, byMode, (u: UseCase) => SurfaceOk(filters, u) && ModeOk(filters, u), |modes| > 0);
    if |modes| > 0 {
      results := Filter(results, byMode);
    }
    admitted := (u: UseCase) => SurfaceOk(filters, u) && ModeOk(filters, u);

    var risks := Values(filters, RiskLevels);
    var byRisk := (u: UseCase) => u.riskLevel.Some? && u.riskLevel.value in risks;
    Narrow(useCases, admitted, byRisk,
           (u: UseCase) => SurfaceOk(filters, u) && ModeOk(filters, u) && RiskOk(filters, u), |risks| > 0);
    if |risks| > 0 {
      results := Filter(results, byRisk);
    }
    admitted := (u: UseCase) => SurfaceOk(filters, u) && ModeOk(filters, u) && RiskOk(filters, u);

    var languages := Values(filters, Languages);
    var byLanguage := (u: UseCase) =>
      SharesAny(ListOrEmpty(u.languages), languages) || ("all" in languages && ListOrEmpty(u.languages) == []);
    Narrow(useCases, admitted, byLanguage,
           (u: UseCase) => SurfaceOk(filters, u) && ModeOk(filters, u) && RiskOk(filters, u) && LanguageOk(filters, u),
           |languages| > 0);
    if |languages| > 0 {
      results := Filter(results, byLanguage);
    }
    admitted := (u: UseCase) =>
      SurfaceOk(filters, u) && ModeOk(filters, u) && RiskOk(filters, u) && LanguageOk(filters, u);

    var categories := Values(filters, Categories);
    var byCategory := (u: UseCase) => u.category.Some? && u.category.value in categories;
    Narrow(useCases, admitted, byCategory, (u: UseCase) => Admits(filters, u), |categories| > 0);
    if |categories| > 0 {
      results := Filter(results, byCategory);
    }
    assert results == Filtered(useCases, filters);

    if IsBlank(query) {
      results := SortResults(results, sortBy, collate);
      return;
    }

    var scored := ScoreAll(results, Lower(query));
    results := SortResults(scored, sortBy, collate);
  }

  // ---------------------------------------------------------------------
  // Properties of the scorer

  /** A case-insensitive exact title match earns exactly 300 from the two
      title rules. */
  lemma ExactTitleScore(u: UseCase, query: string)
    requires Truthy(u.title) && Lower(u.title.value) == Lower(query)
    ensures TitleScore(u, Lower(query)) == 300
    ensures Score(u, Lower(query)) >= 300
  {
    ContainsSelf(Lower(query));
  }

  /** A query that is not blank, lower-cased, still holds a character other
      than a space. */
  lemma LowerKeepsNonSpace(query: string)
    requires !IsBlank(query)
    ensures exists i :: 0 <= i < |Lower(query)| && Lower(query)[i] != ' '
  {
    var i :| 0 <= i < |query| && !IsJsWhitespace(query[i]);
    LowerAt(query);
    assert Lower(query)[i] == LowerChar(query[i]);
  }

  /** For a non-blank query a record scores above zero exactly when one of its
      non-empty fields contains one of the query's terms. */
  lemma ScorePositive(u: UseCase, query: string)
    requires !IsBlank(query)
    ensures Score(u, Lower(query)) > 0 <==>
      exists t, x :: t in Terms(Lower(query)) && x in Fields(u) && Contains(Lower(x), t)
  {
    TermHitsPositive(Terms(Lower(query)), Fields(u));
    WholeQueryHitsTerms(u, query);
  }

  /** Every whole-query hit is also a hit of each of the query's terms, and a
      non-blank query has at least one term. */
  lemma WholeQueryHitsTerms(u: UseCase, query: string)
    requires !IsBlank(query)
    ensures WholeQueryScore(u, Lower(query)) > 0 ==> TermHits(Terms(Lower(query)), Fields(u)) > 0
  {
    var lq := Lower(query);
    if WholeQueryScore(u, lq) > 0 {
      LowerKeepsNonSpace(query);
      TermsOccur(lq);
      var x := WholeQueryWitness(u, lq);
      HitOfEveryTerm(lq, Terms(lq), Fields(u), x);
    }
  }

  /** A field containing the whole query contains each of its terms. */
  lemma HitOfEveryTerm(lq: string, terms: seq<string>, fields: seq<string>, x: string)
    requires terms != [] && forall t :: t in terms ==> Contains(lq, t)
    requires x in fields && Contains(Lower(x), lq)
    ensures TermHits(terms, fields) > 0
  {
    ContainsTransitive(Lower(x), lq, terms[0]);
    TermHitsPositive(terms, fields);
  }

  /** A field that earned a whole-query point: it is among the fields the
      per-term rule inspects and it contains the query. */
  lemma WholeQueryWitness(u: UseCase, lq: string) returns (x: string)
    requires lq != "" && WholeQueryScore(u, lq) > 0
    ensures x in Fields(u) && Contains(Lower(x), lq)
  {
    FieldsCover(u);
    if Truthy(u.title) && Contains(Lower(u.title.value), lq) {
      x := u.title.value;
    } else if Truthy(u.title) && Lower(u.title.value) == lq {
      x := u.title.value;
      ContainsSelf(lq);
    } else if Truthy(u.category) && Contains(Lower(u.category.value), lq) {
      x := u.category.value;
    } else if Truthy(u.description) && Contains(Lower(u.description.value), lq) {
      x := u.description.value;
    } else if CountContaining(ListOrEmpty(u.tags), lq) > 0 {
      CountPositive(ListOrEmpty(u.tags), lq);
      x :| x in ListOrEmpty(u.tags) && Contains(Lower(x), lq);
      EmptyContainsNothing(lq);
    } else {
      CountPositive(ListOrEmpty(u.examplePrompts), lq);
      x :| x in ListOrEmpty(u.examplePrompts) && Contains(Lower(x), lq);
      EmptyContainsNothing(lq);
    }
  }

  /** The empty string contains only the empty string. */
  lemma EmptyContainsNothing(q: string)
    requires q != ""
    ensures !Contains(Lower(""), q)
  {
    assert Lower("") == "";
  }
}
