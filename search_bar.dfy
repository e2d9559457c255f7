/** The search box's suggestion dropdown (src/components/SearchBar.jsx): the
    list it offers (recent queries first, then generated suggestions, each
    once), and the keyboard handling that moves the highlighted entry,
    chooses it or closes the list. */
module SearchBar {
  import opened Wrappers
  import opened Seqs
  import opened UseCases
  import Storage
  import Suggest

  const MaxRecent := 5

  /** `history.slice(0, 5).map(h => h.query)`. */
  function FirstQueries(history: seq<Storage.HistoryEntry>): (r: seq<string>)
    ensures |r| == if |history| < MaxRecent then |history| else MaxRecent
    ensures forall i :: 0 <= i < |r| ==> r[i] == history[i].query
  {
    Map(SliceTo(history, MaxRecent), (h: Storage.HistoryEntry) => h.query)
  }

  /** The recent queries offered: the non-empty queries of the first five
      history entries, in history order, each as often as it occurs there. */
  function Recent(history: seq<Storage.HistoryEntry>): (r: seq<string>)
    ensures |r| <= MaxRecent
    ensures forall q :: q in r <==> q != "" && exists h :: h in SliceTo(history, MaxRecent) && h.query == q
    ensures IsSubseq(r, FirstQueries(history))
    ensures forall q :: multiset(r)[q] == if q == "" then 0 else multiset(FirstQueries(history))[q]
  {
    var queries := FirstQueries(history);
    forall q | q != "" && exists h :: h in SliceTo(history, MaxRecent) && h.query == q
      ensures q in queries
    {
      var h :| h in SliceTo(history, MaxRecent) && h.query == q;
      var i :| 0 <= i < |SliceTo(history, MaxRecent)| && SliceTo(history, MaxRecent)[i] == h;
      assert queries[i] == q;
    }
    forall q | q in queries
      ensures exists h :: h in SliceTo(history, MaxRecent) && h.query == q
    {
      var i :| 0 <= i < |queries| && queries[i] == q;
      assert SliceTo(history, MaxRecent)[i] == history[i];
    }
    FilterIsSubseq(queries, (q: string) => q != "");
    FilterMultiset(queries, (q: string) => q != "");
    Filter(queries, (q: string) => q != "")
  }

  /** `Array.from(new Set([...recent, ...generated]))`. */
  function Merged(recent: seq<string>, generated: seq<string>): (r: seq<string>)
    ensures forall q :: q in r <==> q in recent || q in generated
  {
    Dedup(recent + generated)
  }

  /** The merged list has no repeats, starts with the recent queries, each
      once, in their order, and lists every value in the order of its first
      occurrence among the recent queries followed by the generated ones. */
  lemma MergedOrder(recent: seq<string>, generated: seq<string>)
    ensures Distinct(Merged(recent, generated))
    ensures Dedup(recent) <= Merged(recent, generated)
    ensures var r := Merged(recent, generated);
      forall i, j :: 0 <= i < j < |r| ==>
        r[i] in recent + generated && r[j] in recent + generated
        && FirstIndex(recent + generated, r[i]) < FirstIndex(recent + generated, r[j])
  {
    DedupOrdered(recent + generated);
    DedupPrefix(recent, generated);
    var r := Merged(recent, generated);
    assert forall i :: 0 <= i < |r| ==> r[i] in r;
  }

  /** Deduplicating a longer sequence extends the deduplicated prefix. */
  lemma {:induction false} DedupPrefix(a: seq<string>, b: seq<string>)
    ensures Dedup(a) <= Dedup(a + b)
    decreases |b|
  {
    if b == [] {
      assert a + b == a;
    } else {
      var init := b[..|b| - 1];
      DedupPrefix(a, init);
      assert a + b == (a + init) + [b[|b| - 1]];
      DedupSnoc(a + init, b[|b| - 1]);
    }
  }

  /** Whether the effect at SearchBar.jsx:54-68 offers suggestions for this input. */
  predicate Offers(showSuggestions: bool, inputValue: string, useCases: seq<UseCase>) {
    showSuggestions && |inputValue| >= Suggest.MinQueryLength && |useCases| > 0
  }

  class SuggestionBox {
    var suggestions: seq<string>
    var showDropdown: bool
    /** The highlighted entry; -1 when none is. */
    var selected: int
    var isFocused: bool

    /** The highlighted entry is none or one of the listed suggestions. */
    predicate Valid()
      reads this
    {
      -1 <= selected < |suggestions|
    }

    constructor()
      ensures Valid() && suggestions == [] && !showDropdown && selected == -1 && !isFocused
    {
      suggestions := [];
      showDropdown := false;
      selected := -1;
      isFocused := false;
    }

    /** The suggestion effect, run when the input, the records, the option,
        the focus or the history change: the list is recomputed, shown only
        when it is non-empty and the box has focus, and nothing is
        highlighted. */
    method Refresh(inputValue: string, useCases: seq<UseCase>, showSuggestions: bool,
                   history: seq<Storage.HistoryEntry>)
      modifies this
      ensures Valid() && selected == -1 && isFocused == old(isFocused)
      ensures Offers(showSuggestions, inputValue, useCases) ==>
        suggestions == Merged(Recent(history), Suggest.Suggestions(useCases, Some(inputValue)))
      ensures !Offers(showSuggestions, inputValue, useCases) ==> suggestions == []
      ensures showDropdown <==> |suggestions| > 0 && isFocused
    {
      if Offers(showSuggestions, inputValue, useCases) {
        var generated := Suggest.GenerateSuggestions(useCases, Some(inputValue));
        var combined := Merged(Recent(history), generated);
        suggestions := combined;
        showDropdown := |combined| > 0 && isFocused;
      } else {
        suggestions := [];
        showDropdown := false;
      }
      selected := -1;
    }

    /** `handleSuggestionClick(suggestion)`: the list closes and nothing is
        highlighted; the suggestion is returned for the parent's `onChange`
        and `onSuggestionSelect`. */
    method ChooseSuggestion(suggestion: string) returns (chosen: string)
      requires Valid()
      modifies this
      ensures Valid() && chosen == suggestion
      ensures !showDropdown && selected == -1
      ensures suggestions == old(suggestions) && isFocused == old(isFocused)
    {
      showDropdown := false;
      selected := -1;
      chosen := suggestion;
    }

    /** `handleKeyDown(e)` for a key named `key`. `prevented` says whether
        `e.preventDefault()` was called and `chosen` is the suggestion picked
        with Enter, if any. */
    method HandleKeyDown(key: string) returns (prevented: bool, chosen: Option<string>)
      requires Valid()
      modifies this
      ensures Valid()
      ensures suggestions == old(suggestions) && isFocused == old(isFocused)
      ensures chosen.Some? ==> key == "Enter" && chosen.value in suggestions
      // A closed or empty list ignores every key.
      ensures !old(showDropdown) || |old(suggestions)| == 0 ==>
        !prevented && chosen.None? && selected == old(selected) && showDropdown == old(showDropdown)
      ensures old(showDropdown) && |old(suggestions)| > 0 ==>
        (prevented <==> key in {"ArrowDown", "ArrowUp", "Enter", "Escape"})
      ensures old(showDropdown) && |old(suggestions)| > 0 && key == "ArrowDown" ==>
        selected == Min(old(selected) + 1, |suggestions| - 1) && showDropdown && chosen.None?
      ensures old(showDropdown) && |old(suggestions)| > 0 && key == "ArrowUp" ==>
        selected == Max(old(selected) - 1, -1) && showDropdown && chosen.None?
      ensures old(showDropdown) && |old(suggestions)| > 0 && key == "Enter" ==>
        (old(selected) >= 0 <==> chosen.Some?)
        && (old(selected) >= 0 ==> chosen.value == suggestions[old(selected)] && !showDropdown && selected == -1)
        && (old(selected) < 0 ==> showDropdown && selected == old(selected))
      ensures old(showDropdown) && |old(suggestions)| > 0 && key == "Escape" ==>
        !showDropdown && selected == -1 && chosen.None?
      ensures old(showDropdown) && |old(suggestions)| > 0 && key !in {"ArrowDown", "ArrowUp", "Enter", "Escape"} ==>
        selected == old(selected) && showDropdown && chosen.None?
    {
      prevented, chosen := false, None;
      if !showDropdown || |suggestions| == 0 {
        return;
      }
      if key == "ArrowDown" {
        prevented := true;
        selected := if selected < |suggestions| - 1 then selected + 1 else selected;
      } else if key == "ArrowUp" {
        prevented := true;
        selected := if selected > 0 then selected - 1 else -1;
      } else if key == "Enter" {
        prevented := true;
        if selected >= 0 && selected < |suggestions| {
          var pick := ChooseSuggestion(suggestions[selected]);
          chosen := Some(pick);
        }
      } else if key == "Escape" {
        prevented := true;
        showDropdown := false;
        selected := -1;
      }
    }
  }

  function Min(a: int, b: int): int {
    if a < b then a else b
  }

  function Max(a: int, b: int): int {
    if a > b then a else b
  }
}
