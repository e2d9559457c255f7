/** `generateSuggestions` (src/utils/searchUtils.js): autocomplete values
    for a partial query, gathered from titles, categories and tags in
    catalog order, without repeats, at most ten. */
module Suggest {
  import opened Wrappers
  import opened Seqs
  import opened Text
  import opened UseCases

  const MaxSuggestions := 10
  const MinQueryLength := 2

  /** `x.toLowerCase().includes(lowerQuery)`. */
  predicate Matches(x: string, lq: string) {
    Contains(Lower(x), lq)
  }

  /** The test the source applies to each candidate value. */
  function Matcher(lq: string): string -> bool {
    (x: string) => Matches(x, lq)
  }

  /** The values one record offers, in the order the source adds them:
      its title, its category, then its tags, each if it passes `matches`. */
  function Hits(u: UseCase, matches: string -> bool): (r: seq<string>)
    ensures forall x :: x in r ==> matches(x)
    ensures |r| <= 2 + |ListOrEmpty(u.tags)|
  {
    TitleHit(u, matches) + CategoryHit(u, matches) + Filter(ListOrEmpty(u.tags), matches)
  }

  function TitleHit(u: UseCase, matches: string -> bool): seq<string> {
    if Truthy(u.title) && matches(u.title.value) then [u.title.value] else []
  }

  function CategoryHit(u: UseCase, matches: string -> bool): seq<string> {
    if Truthy(u.category) && matches(u.category.value) then [u.category.value] else []
  }

  /** A record offers exactly its matching title, category and tags. */
  lemma HitsMembers(u: UseCase, matches: string -> bool)
    ensures forall x :: x in Hits(u, matches) <==>
      || (Truthy(u.title) && x == u.title.value && matches(x))
      || (Truthy(u.category) && x == u.category.value && matches(x))
      || (x in ListOrEmpty(u.tags) && matches(x))
  {
  }

  /** Every value the records offer, repeats included, in the order the
      source adds them to its `Set`. */
  function Harvest(useCases: seq<UseCase>, matches: string -> bool): seq<string> {
    FlatMap(useCases, (u: UseCase) => Hits(u, matches))
  }

  /** `generateSuggestions(useCases, partialQuery)`; `None` stands for a
      missing query. */
  function Suggestions(useCases: seq<UseCase>, partialQuery: Option<string>): (r: seq<string>)
    ensures partialQuery.None? || |partialQuery.value| < MinQueryLength ==> r == []
    ensures |r| <= MaxSuggestions
  {
    if partialQuery.None? || |partialQuery.value| < MinQueryLength then []
    else SliceTo(Dedup(Harvest(useCases, Matcher(Lower(partialQuery.value)))), MaxSuggestions)
  }

  /** Every suggestion contains the query, ignoring case, and is the title,
      the category or a tag of some record. */
  lemma SuggestionsSound(useCases: seq<UseCase>, query: string)
    ensures forall x :: x in Suggestions(useCases, Some(query)) ==>
      && Matches(x, Lower(query))
      && (exists u :: u in useCases &&
            (u.title == Some(x) || u.category == Some(x) || x in ListOrEmpty(u.tags)))
  {
    var lq := Lower(query);
    var r := Suggestions(useCases, Some(query));
    FlatMapMembers(useCases, (u: UseCase) => Hits(u, Matcher(lq)));
    forall x | x in r
      ensures Matches(x, lq)
      ensures exists u :: (u in useCases &&
        (u.title == Some(x) || u.category == Some(x) || x in ListOrEmpty(u.tags)))
    {
      assert x in Harvest(useCases, Matcher(lq));
      var u :| u in useCases && x in Hits(u, Matcher(lq));
      HitsMembers(u, Matcher(lq));
    }
  }

  /** Record `u` offers value `x` for the lower-cased query `lq`: `x` is
      its matching title, its matching category or one of its matching tags. */
  predicate Offered(u: UseCase, x: string, lq: string) {
    || (Truthy(u.title) && x == u.title.value && Matches(x, lq))
    || (Truthy(u.category) && x == u.category.value && Matches(x, lq))
    || (x in ListOrEmpty(u.tags) && Matches(x, lq))
  }

  /** Every value a record offers is suggested, unless ten values met
      before it already fill the list. */
  lemma SuggestionsComplete(useCases: seq<UseCase>, query: string)
    requires |query| >= MinQueryLength
    ensures var r := Suggestions(useCases, Some(query));
      var h := Harvest(useCases, Matcher(Lower(query)));
      forall u, x :: u in useCases && Offered(u, x, Lower(query)) ==>
        && x in h
        && (x in r || (|r| == MaxSuggestions &&
              forall y :: y in r ==> y in h && FirstIndex(h, y) < FirstIndex(h, x)))
  {
    var lq := Lower(query);
    var h := Harvest(useCases, Matcher(lq));
    FlatMapMembers(useCases, (u: UseCase) => Hits(u, Matcher(lq)));
    forall u, x | u in useCases && Offered(u, x, lq)
      ensures x in h
      ensures var r := SliceTo(Dedup(h), MaxSuggestions);
        x in r || (|r| == MaxSuggestions &&
          forall y :: y in r ==> y in h && FirstIndex(h, y) < FirstIndex(h, x))
    {
      HitsMembers(u, Matcher(lq));
      assert x in Hits(u, Matcher(lq));
      DedupSliceMissing(h, MaxSuggestions, x);
    }
  }

  /** No value is suggested twice, and suggestions appear in the order their
      values were first met. */
  lemma SuggestionsInFirstSeenOrder(useCases: seq<UseCase>, query: string)
    requires |query| >= MinQueryLength
    ensures Distinct(Suggestions(useCases, Some(query)))
    ensures var r := Suggestions(useCases, Some(query));
      var h := Harvest(useCases, Matcher(Lower(query)));
      forall i, j :: 0 <= i < j < |r| ==> r[i] in h && r[j] in h && FirstIndex(h, r[i]) < FirstIndex(h, r[j])
  {
    DedupOrdered(Harvest(useCases, Matcher(Lower(query))));
    var d := Dedup(Harvest(useCases, Matcher(Lower(query))));
    var r := Suggestions(useCases, Some(query));
    assert forall i :: 0 <= i < |r| ==> r[i] == d[i] && d[i] in d;
  }

  /** The source's loop, with an insertion-ordered sequence for its `Set`. */
  method GenerateSuggestions(useCases: seq<UseCase>, partialQuery: Option<string>)
    returns (suggestions: seq<string>)
    ensures suggestions == Suggestions(useCases, partialQuery)
  {
    if partialQuery.None? || |partialQuery.value| < MinQueryLength {
      return [];
    }
    var matches := Matcher(Lower(partialQuery.value));
    var found: seq<string> := [];
    var i := 0;
    while i < |useCases|
      invariant 0 <= i <= |useCases|
      invariant found == Dedup(Harvest(useCases[..i], matches))
    {
      found := AddHits(found, useCases[i], matches, Harvest(useCases[..i], matches));
      FlatMapSnoc(useCases, i, (u: UseCase) => Hits(u, matches));
      i := i + 1;
    }
    assert useCases[..i] == useCases;
    suggestions := SliceTo(found, MaxSuggestions);
  }

  /** The body of the source's `forEach`: adds what record `u` offers. */
  method AddHits(found: seq<string>, u: UseCase, matches: string -> bool, ghost added: seq<string>)
    returns (r: seq<string>)
    requires found == Dedup(added)
    ensures r == Dedup(added + Hits(u, matches))
  {
    HitsInOrder(added, u, matches);
    r := AddEach(found, TitleHit(u, matches), added);
    r := AddEach(r, CategoryHit(u, matches), added + TitleHit(u, matches));
    r := AddMatching(r, ListOrEmpty(u.tags), matches, added + TitleHit(u, matches) + CategoryHit(u, matches));
  }

  lemma HitsInOrder(added: seq<string>, u: UseCase, matches: string -> bool)
    ensures added + Hits(u, matches)
         == added + TitleHit(u, matches) + CategoryHit(u, matches) + Filter(ListOrEmpty(u.tags), matches)
  {
  }

  /** `if (hit) suggestions.add(value)`, for a hit of at most one value. */
  method AddEach(found: seq<string>, hit: seq<string>, ghost added: seq<string>)
    returns (r: seq<string>)
    requires |hit| <= 1 && found == Dedup(added)
    ensures r == Dedup(added + hit)
  {
    if hit == [] {
      assert added + hit == added;
      r := found;
    } else {
      r := AddToSet(found, hit[0], added);
      assert [hit[0]] == hit;
    }
  }

  /** `tags.forEach(tag => { if (matches(tag)) suggestions.add(tag) })`. */
  method AddMatching(found: seq<string>, tags: seq<string>, matches: string -> bool, ghost added: seq<string>)
    returns (r: seq<string>)
    requires found == Dedup(added)
    ensures r == Dedup(added + Filter(tags, matches))
  {
    r := found;
    var j := 0;
    assert added + Filter(tags[..j], matches) == added;
    while j < |tags|
      invariant 0 <= j <= |tags|
      invariant r == Dedup(added + Filter(tags[..j], matches))
    {
      ghost var before := added + Filter(tags[..j], matches);
      FilterSnoc(tags, j, matches);
      assert added + Filter(tags[..j + 1], matches) == before + (if matches(tags[j]) then [tags[j]] else []);
      if matches(tags[j]) {
        r := AddToSet(r, tags[j], before);
      } else {
        assert added + Filter(tags[..j + 1], matches) == before;
      }
      j := j + 1;
    }
    assert tags[..j] == tags;
  }
}
