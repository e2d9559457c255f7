/** `extractFilterOptions` (src/utils/searchUtils.js): the values offered in
    the filter panel, each list the distinct values found in the catalog,
    sorted by `Array.prototype.sort()` with no comparator. */
module FilterOptions {
  import opened Wrappers
  import opened Seqs
  import opened Text
  import opened StableSort
  import opened UseCases

  datatype Options = Options(
    surfaces: seq<string>,
    modes: seq<string>,
    riskLevels: seq<string>,
    languages: seq<string>,
    categories: seq<string>)

  // What one record contributes to each list; each function includes the
  // source's guard on the attribute.

  function SurfacesOf(u: UseCase): seq<string> {
    if u.surfaces.Some? then u.surfaces.value else []
  }

  function ModesOf(u: UseCase): seq<string> {
    if u.modes.Some? then u.modes.value else []
  }

  function RiskLevelOf(u: UseCase): seq<string> {
    if Truthy(u.riskLevel) then [u.riskLevel.value] else []
  }

  function LanguagesOf(u: UseCase): seq<string> {
    if u.languages.Some? && |u.languages.value| > 0 then u.languages.value else []
  }

  function CategoryOf(u: UseCase): seq<string> {
    if Truthy(u.category) then [u.category.value] else []
  }

  /** `Array.from(set).sort()` for the set filled from `field` of every record. */
  function SortedValues(useCases: seq<UseCase>, field: UseCase -> seq<string>): seq<string> {
    Sort(Dedup(FlatMap(useCases, field)), AtMost)
  }

  /** `extractFilterOptions(useCases)`. */
  function Extracted(useCases: seq<UseCase>): Options {
    Options(
      SortedValues(useCases, SurfacesOf),
      SortedValues(useCases, ModesOf),
      SortedValues(useCases, RiskLevelOf),
      SortedValues(useCases, LanguagesOf),
      SortedValues(useCases, CategoryOf))
  }

  /** In strictly increasing code-point order, hence without repeats. */
  predicate Increasing(s: seq<string>) {
    forall i, j :: 0 <= i < j < |s| ==> Less(s[i], s[j])
  }

  /** Sorting the distinct values of `s` lists each of them once, in
      increasing order. */
  lemma SortDistinctIncreasing(s: seq<string>)
    ensures forall x :: x in Sort(Dedup(s), AtMost) <==> x in s
    ensures Increasing(Sort(Dedup(s), AtMost))
  {
    var d := Dedup(s);
    var r := Sort(d, AtMost);
    assert forall x :: x in r <==> x in multiset(d);
    DedupOrdered(s);
    DistinctPermutation(d, r);
    AtMostTotal();
    SortSorted(d, AtMost);
    forall i, j | 0 <= i < j < |r|
      ensures Less(r[i], r[j])
    {
      assert AtMost(r[i], r[j]) && r[i] != r[j];
    }
  }

  /** A sorted list holds exactly the values some record contributes, each
      once, in increasing order. */
  lemma SortedValuesSpec(useCases: seq<UseCase>, field: UseCase -> seq<string>)
    ensures forall x :: x in SortedValues(useCases, field) <==> exists u :: u in useCases && x in field(u)
    ensures Increasing(SortedValues(useCases, field))
  {
    FlatMapMembers(useCases, field);
    SortDistinctIncreasing(FlatMap(useCases, field));
  }

  /** Every list is increasing, so no value is offered twice. */
  lemma ExtractedIncreasing(useCases: seq<UseCase>)
    ensures var o := Extracted(useCases);
      && Increasing(o.surfaces) && Increasing(o.modes) && Increasing(o.riskLevels)
      && Increasing(o.languages) && Increasing(o.categories)
  {
    SortedValuesSpec(useCases, SurfacesOf);
    SortedValuesSpec(useCases, ModesOf);
    SortedValuesSpec(useCases, RiskLevelOf);
    SortedValuesSpec(useCases, LanguagesOf);
    SortedValuesSpec(useCases, CategoryOf);
  }

  /** The surfaces offered are those some record lists. */
  lemma SurfaceOptions(useCases: seq<UseCase>)
    ensures forall x :: x in Extracted(useCases).surfaces <==>
      exists u :: u in useCases && u.surfaces.Some? && x in u.surfaces.value
  {
    SortedValuesSpec(useCases, SurfacesOf);
  }

  /** The modes offered are those some record lists. */
  lemma ModeOptions(useCases: seq<UseCase>)
    ensures forall x :: x in Extracted(useCases).modes <==>
      exists u :: u in useCases && u.modes.Some? && x in u.modes.value
  {
    SortedValuesSpec(useCases, ModesOf);
  }

  /** The risk levels offered are the non-empty ones some record carries. */
  lemma RiskLevelOptions(useCases: seq<UseCase>)
    ensures forall x :: x in Extracted(useCases).riskLevels <==>
      exists u :: u in useCases && x != "" && u.riskLevel == Some(x)
  {
    var r := Extracted(useCases).riskLevels;
    SortedValuesSpec(useCases, RiskLevelOf);
    forall x
      ensures x in r <==> exists u :: u in useCases && x != "" && u.riskLevel == Some(x)
    {
      if x in r {
        var u :| u in useCases && x in RiskLevelOf(u);
        assert RiskLevelOf(u) == [u.riskLevel.value];
        assert u.riskLevel == Some(u.riskLevel.value);
      }
      if exists u :: u in useCases && x != "" && u.riskLevel == Some(x) {
        var u :| u in useCases && x != "" && u.riskLevel == Some(x);
        assert x in RiskLevelOf(u);
      }
    }
  }

  /** The languages offered are those of some record's language list; an
      empty list contributes nothing, as the source's length check makes
      explicit. */
  lemma LanguageOptions(useCases: seq<UseCase>)
    ensures forall x :: x in Extracted(useCases).languages <==>
      exists u :: u in useCases && u.languages.Some? && x in u.languages.value
  {
    SortedValuesSpec(useCases, LanguagesOf);
  }

  /** The categories offered are the non-empty ones some record carries. */
  lemma CategoryOptions(useCases: seq<UseCase>)
    ensures forall x :: x in Extracted(useCases).categories <==>
      exists u :: u in useCases && x != "" && u.category == Some(x)
  {
    var r := Extracted(useCases).categories;
    SortedValuesSpec(useCases, CategoryOf);
    forall x
      ensures x in r <==> exists u :: u in useCases && x != "" && u.category == Some(x)
    {
      if x in r {
        var u :| u in useCases && x in CategoryOf(u);
        assert CategoryOf(u) == [u.category.value];
        assert u.category == Some(u.category.value);
      }
      if exists u :: u in useCases && x != "" && u.category == Some(x) {
        var u :| u in useCases && x != "" && u.category == Some(x);
        assert x in CategoryOf(u);
      }
    }
  }

  /** The source's loop, with an insertion-ordered sequence for each `Set`. */
  method ExtractFilterOptions(useCases: seq<UseCase>) returns (options: Options)
    ensures options == Extracted(useCases)
  {
    var surfaces, modes, riskLevels, languages, categories := [], [], [], [], [];
    var i := 0;
    while i < |useCases|
      invariant 0 <= i <= |useCases|
      invariant surfaces == Dedup(FlatMap(useCases[..i], SurfacesOf))
      invariant modes == Dedup(FlatMap(useCases[..i], ModesOf))
      invariant riskLevels == Dedup(FlatMap(useCases[..i], RiskLevelOf))
      invariant languages == Dedup(FlatMap(useCases[..i], LanguagesOf))
      invariant categories == Dedup(FlatMap(useCases[..i], CategoryOf))
    {
      surfaces := Gather(surfaces, useCases, i, SurfacesOf);
      modes := Gather(modes, useCases, i, ModesOf);
      riskLevels := Gather(riskLevels, useCases, i, RiskLevelOf);
      languages := Gather(languages, useCases, i, LanguagesOf);
      categories := Gather(categories, useCases, i, CategoryOf);
      i := i + 1;
    }
    assert useCases[..i] == useCases;
    options := Options(
      Sort(surfaces, AtMost), Sort(modes, AtMost), Sort(riskLevels, AtMost),
      Sort(languages, AtMost), Sort(categories, AtMost));
  }

  /** Adds what record `useCases[i]` contributes to one set. */
  method Gather(acc: seq<string>, useCases: seq<UseCase>, i: nat, field: UseCase -> seq<string>)
    returns (r: seq<string>)
    requires i < |useCases| && acc == Dedup(FlatMap(useCases[..i], field))
    ensures r == Dedup(FlatMap(useCases[..i + 1], field))
  {
    FlatMapSnoc(useCases, i, field);
    r := AddAll(acc, field(useCases[i]), FlatMap(useCases[..i], field));
  }

  /** `xs.forEach(x => set.add(x))`. */
  method AddAll(members: seq<string>, xs: seq<string>, ghost added: seq<string>)
    returns (r: seq<string>)
    requires members == Dedup(added)
    ensures r == Dedup(added + xs)
  {
    r := members;
    var j := 0;
    assert added + xs[..j] == added;
    while j < |xs|
      invariant 0 <= j <= |xs|
      invariant r == Dedup(added + xs[..j])
    {
      assert added + xs[..j + 1] == added + xs[..j] + [xs[j]];
      r := AddToSet(r, xs[j], added + xs[..j]);
      j := j + 1;
    }
    assert xs[..j] == xs;
  }
}
