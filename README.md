# Copilot use-case catalog search, modelled in Dafny

This project models the client-side logic of a searchable catalog of GitHub
Copilot use cases. A use case is a JSON record with a title, a category, a
description, surfaces, modes, a risk level, tags, example prompts and an
optional relevance score. The model covers:

- **Search** (`src/utils/searchUtils.js`):
  - the five-dimension filter stage. Dimensions combine with AND, values
    within one dimension with OR;
  - the substring relevance scorer: 100/200/50/30 points for whole-query
    hits, 20 and 15 per tag and prompt hit, and 5 per (term, field) pair;
  - the stable sort by relevance, time saved, risk, category or title;
  - related use cases;
  - autocomplete suggestions;
  - the filter options offered to the user.
- **Persistence** (`src/utils/localStorage.js`):
  - favourites;
  - collections;
  - search history (50 entries, most recent first);
  - analytics (1000 events per type). These work over a `LocalStore` class
    whose one field is the map of keys to stored items.
- **Export** (`src/utils/exportUtils.js`):
  - the Markdown document;
  - the CSV file (RFC 4180 quoting, section 2, rule 7). A reader written
    beside the writer proves that every row reads back as its cells;
  - the format dispatch of `exportResults`.
- **Filter panel** (`src/components/FilterPanel.jsx`): toggling a value,
  counting the selected values, clearing.
- **Search bar** (`src/components/SearchBar.jsx`):
  - the dropdown's keyboard state machine, as a `SuggestionBox` class whose
    highlighted index stays within `[-1, len-1]`;
  - the merge of recent queries with the generated suggestions.
- **Keyboard shortcuts** (`src/hooks/useKeyboardShortcuts.js`): the match
  rule, and the first-match-wins dispatch.

Modelling conventions:

- A JavaScript attribute that may be `undefined` or `null` is an `Option`; both are `None`.
- A `Set` filled in insertion order is `Seqs.Dedup` of the values added.
- Clocks are parameters: the ISO time, `Date.now()`, and the local time
  string.
- `JSON.stringify` output for the JSON export is a parameter.
- The locale-aware string comparison used to sort by title is a parameter
  `collate`, assumed to be a total preorder where a property needs it.

Files:

| file | content |
|---|---|
| `wrappers.dfy` | `Option`, `Result` |
| `seqs.dfy` | filter, map, first-occurrence dedup, flat map, subsequences |
| `text.dfy` | ASCII lower-casing, `includes`, `trim` blankness, `split`/`join`, decimals, code-point order of strings |
| `stable_sort.dfy` | the stable insertion sort behind `Array.prototype.sort` |
| `use_case.dfy` | the record and JavaScript truthiness helpers |
| `filter_set.dfy` | the filters object as an ordered key/value list |
| `search.dfy` | `performSearch` |
| `ordering.dfy` | `sortResults` |
| `related.dfy` | `getRelatedUseCases` |
| `suggest.dfy` | `generateSuggestions` |
| `filter_options.dfy` | `extractFilterOptions` |
| `storage.dfy` | `localStorage.js` |
| `markdown.dfy`, `csv.dfy`, `export.dfy` | `exportUtils.js` |
| `filter_panel.dfy`, `search_bar.dfy`, `shortcuts.dfy` | the two components and the hook |

## Model

| member | source | states |
|---|---|---|
| Search.Admits | src/utils/searchUtils.js:12-41 | the filter test for one record: with no filters every record passes; `Search.Filtered` keeps exactly the records it admits |
| Search.Filtered | src/utils/searchUtils.js:12-41 | a record is kept exactly when every dimension with accepted values admits it; kept records stay in input order, each as many times as it occurs |
| Search.PerformSearch | src/utils/searchUtils.js:4-114 | the filter, score and sort passes compute `SearchResults` |
| Search.SearchResults | src/utils/searchUtils.js:4-114 | blank query and no filter keys give `[]`; a blank query gives a reordering of the filtered records; otherwise a reordering of the filtered records that score above zero, with their scores |
| Search.SearchHits | src/utils/searchUtils.js:44-113 | for a non-blank query, `x` is a result iff it is an admitted input record with a positive score, extended with that score |
| Search.ScoreAll | src/utils/searchUtils.js:52-111 | the `map`/`filter` pass keeps the positively scored records, with their scores, in order |
| Search.Score | src/utils/searchUtils.js:49-107 | the relevance score: the whole-query rule weights plus 5 per (term, non-empty field) hit. `Search.ScorePositive`, `Search.ExactTitleScore` and `Search.WholeQueryHitsTerms` state its properties; `Search.ScoreOf` is proved to compute it |
| Search.ScoreOf | src/utils/searchUtils.js:53-109 | the callback's running total equals the relevance score |
| Search.TermPoints | src/utils/searchUtils.js:89-107 | the nested loops add 5 for each (term, field) pair where the lower-cased field contains the term |
| Search.Positives | src/utils/searchUtils.js:111 | the positively scored records, in input order, each as many times as it occurs |
| Search.Scored | src/utils/searchUtils.js:109-111 | the results are the positively scored records, in input order and count, each extended with its score, which is positive |
| Search.ScoredMembers | src/utils/searchUtils.js:109-111 | `x` is returned iff it is an input record with a positive score, extended with that score (both directions) |
| Search.ScorePositive | src/utils/searchUtils.js:52-111 | for a non-blank query, the score is positive iff some term of the query occurs, ignoring case, in a non-empty field |
| Search.ExactTitleScore | src/utils/searchUtils.js:55-63 | a case-insensitive exact title match earns exactly 300 from the title rules |
| Search.WholeQueryHitsTerms | src/utils/searchUtils.js:55-107 | a whole-query hit implies a hit of some term, so the whole-query rules never make a record pass alone |
| Ordering.Comparator | src/utils/searchUtils.js:162-195 | a comparator exists exactly for the six known keys, and `Ordering.ComparatorTotal` proves each one a total preorder |
| Ordering.SortResults | src/utils/searchUtils.js:159-196 | the result is a permutation of the input; an unknown key returns the input unchanged |
| Ordering.ComparatorTotal | src/utils/searchUtils.js:162-193 | every known key's comparator is a total preorder, so the sort is well defined |
| Ordering.SortResultsOrdered | src/utils/searchUtils.js:162-193 | relevance gives non-increasing scores, time saved non-increasing minutes, risk ascending or descending rank, category and title the collation order |
| Ordering.SortResultsStable | src/utils/searchUtils.js:160-194 | records that compare equal keep their input order |
| Ordering.RelevanceTiesKeepOrder | src/utils/searchUtils.js:163-164 | records with equal scores keep their input order |
| Ordering.SortResultsIdempotent | src/utils/searchUtils.js:159-196 | sorting sorted results again changes nothing |
| StableSort.SortSorted | src/utils/searchUtils.js:160-194 | the sort's output is ordered by its comparator |
| StableSort.SortStable | src/utils/searchUtils.js:160-194 | within a class of ties, the input order is kept |
| Related.Candidates | src/utils/searchUtils.js:202-203 | the candidates are the records with a different id, in collection order, each as many times as it occurs |
| Related.Relevant | src/utils/searchUtils.js:202-244 | the records with another id and a positive similarity, in collection order, each as many times as it occurs |
| Related.SimilarInCollectionOrder | src/utils/searchUtils.js:202-244 | before sorting, the scored candidates are exactly the related records in collection order, each extended with its similarity |
| Related.Similarity | src/utils/searchUtils.js:204-243 | equal categories (compared like `===` on the model's values) earn at least 50, and the score is at most 100 plus 10 per surface, 10 per mode and 5 per tag of the candidate |
| Related.Shared | src/utils/searchUtils.js:218-235 | the shared count is 0 when either list is missing, and at most the candidate's list length |
| Related.RelatedUseCases | src/utils/searchUtils.js:199-249 | no record gives `[]`; the result is a prefix of the candidates sorted by similarity, holding exactly `min(limit, n)` of the `n` scored candidates (for a negative `limit`, all but the last `-limit`) |
| Related.SimilarMembers | src/utils/searchUtils.js:202-244 | before sorting, each scored candidate has another id and a positive similarity, and is a collection record carrying that score |
| Related.RelatedMembers | src/utils/searchUtils.js:199-249 | each result has another id and a positive similarity, and is a record of the collection with that score |
| Related.RelatedOrdered | src/utils/searchUtils.js:244-247 | similarity never increases along the result |
| Related.RelatedTiesInOrder | src/utils/searchUtils.js:244-247 | the results of similarity `k` are the first records of similarity `k` among the scored candidates, and those are the related records in collection order; so ties keep collection order |
| Suggest.Suggestions | src/utils/searchUtils.js:252-280 | a missing query or one shorter than 2 gives `[]`; at most 10 suggestions |
| Suggest.GenerateSuggestions | src/utils/searchUtils.js:252-280 | the loop over records with its insertion-ordered set computes `Suggestions` |
| Suggest.Hits | src/utils/searchUtils.js:257-276 | every value a record offers passes the match test, and there are at most two plus its tag count; `Suggest.HitsMembers` gives the exact set |
| Suggest.HitsMembers | src/utils/searchUtils.js:259-276 | a record offers exactly its matching truthy title, its matching truthy category and its matching tags |
| Suggest.SuggestionsSound | src/utils/searchUtils.js:252-280 | every suggestion contains the query, ignoring case, and is a title, category or tag of some record |
| Suggest.SuggestionsComplete | src/utils/searchUtils.js:256-279 | every matching title, category and tag of a record is among the offered values, and it is suggested unless ten values first offered before it already fill the list |
| Suggest.SuggestionsInFirstSeenOrder | src/utils/searchUtils.js:256-279 | no value is suggested twice, and values appear in the order they were first offered |
| Suggest.AddMatching | src/utils/searchUtils.js:270-276 | the tag loop adds the matching tags to the insertion-ordered set |
| FilterOptions.Extracted | src/utils/searchUtils.js:283-319 | the five option lists; `FilterOptions.ExtractedIncreasing` and the five per-dimension lemmas below state their contents and their strictly increasing order |
| FilterOptions.ExtractFilterOptions | src/utils/searchUtils.js:283-319 | the loop over records with five sets computes `Extracted` |
| FilterOptions.SortedValuesSpec | src/utils/searchUtils.js:312-318 | a sorted option list holds exactly the values some record contributes, in strictly increasing code-point order |
| FilterOptions.ExtractedIncreasing | src/utils/searchUtils.js:312-318 | all five lists are strictly increasing, hence free of repeats |
| FilterOptions.SurfaceOptions | src/utils/searchUtils.js:291-293 | the surfaces offered are exactly those some record lists |
| FilterOptions.ModeOptions | src/utils/searchUtils.js:295-297 | the modes offered are exactly those some record lists |
| FilterOptions.RiskLevelOptions | src/utils/searchUtils.js:299-301 | the risk levels offered are exactly the non-empty ones some record carries |
| FilterOptions.LanguageOptions | src/utils/searchUtils.js:303-305 | the languages offered are exactly those in some record's language list |
| FilterOptions.CategoryOptions | src/utils/searchUtils.js:307-309 | the categories offered are exactly the non-empty ones some record carries |
| Storage.Lookup | src/utils/localStorage.js:14-22 | a parsed item is returned as is; a missing or unparseable item gives the default |
| Storage.LookupAfterWrite | src/utils/localStorage.js:14-32 | a written value reads back, and other keys are unaffected |
| Storage.WithFavorite | src/utils/localStorage.js:53-60 | the id ends up in the list, appended only when absent |
| Storage.WithFavoriteIdempotent | src/utils/localStorage.js:53-60 | adding a favourite twice is adding it once |
| Storage.Drop | src/utils/localStorage.js:64 | every occurrence of the id goes, and every other entry keeps its count and order |
| Storage.WithoutFavorite | src/utils/localStorage.js:62-67 | the id is gone, and every other id is kept as many times as it occurred |
| Storage.WithoutFavoriteKeepsOrder | src/utils/localStorage.js:62-67 | the remaining favourites keep their order |
| Storage.FindCollection | src/utils/localStorage.js:106 | the first collection with the id, or none when no collection has it |
| Storage.AddedTo | src/utils/localStorage.js:104-112 | the list of collections keeps its length; `Storage.AddedToSpec` states which collection changes and how |
| Storage.AddedToSpec | src/utils/localStorage.js:104-112 | only the first collection with the id changes, only its list, which gains the use case when it lacked it |
| Storage.AddedToIdempotent | src/utils/localStorage.js:104-112 | repeating `addToCollection` changes nothing |
| Storage.RemovedFrom | src/utils/localStorage.js:114-122 | the list of collections keeps its length; `Storage.RemovedFromSpec` states which collection changes and how |
| Storage.RemovedFromSpec | src/utils/localStorage.js:114-122 | only the first collection with the id changes; it no longer holds the use case and keeps its other entries in order, each as many times as it occurred |
| Storage.WithoutCollection | src/utils/localStorage.js:97-102 | exactly the collections with another id remain, each as many times as it occurred |
| Storage.WithoutCollectionKeepsOrder | src/utils/localStorage.js:97-102 | no collection with the id is left, and the others stay in order |
| Storage.HistoryWith | src/utils/localStorage.js:129-144 | the new entry is first, and the list holds 1 to 50 entries |
| Storage.HistoryWithSpec | src/utils/localStorage.js:134-141 | no other entry has the query; the list is the new entry followed by the most recent other entries, `min(n, 49)` of the `n` there are, so only the oldest are dropped |
| Storage.Logged | src/utils/localStorage.js:187-207 | the event's type is a key afterwards, and no other key is added; `Storage.LoggedSpec` states the lists |
| Storage.LoggedSpec | src/utils/localStorage.js:187-208 | the event is the last of its type's list; that list holds at most 1000 events; other types are unchanged |
| Storage.LocalStore.Get | src/utils/localStorage.js:14-22 | reading a key is `Lookup` over the store |
| Storage.LocalStore.Put | src/utils/localStorage.js:24-32 | writing replaces exactly that key |
| Storage.LocalStore.AddFavorite | src/utils/localStorage.js:53-60 | returns `WithFavorite`; the store is written only when the id was new; afterwards the id is a favourite |
| Storage.LocalStore.RemoveFavorite | src/utils/localStorage.js:62-67 | returns `WithoutFavorite` and stores it; afterwards the id is no favourite |
| Storage.LocalStore.IsFavorite | src/utils/localStorage.js:69-72 | membership in the stored favourites |
| Storage.LocalStore.AddCollection | src/utils/localStorage.js:83-95 | the new collection is empty, carries the time as id and date, and is appended to the stored list |
| Storage.LocalStore.DeleteCollection | src/utils/localStorage.js:97-102 | stores and returns `WithoutCollection` |
| Storage.LocalStore.AddToCollection | src/utils/localStorage.js:104-112 | returns `AddedTo`; the store is written only when something changed |
| Storage.LocalStore.RemoveFromCollection | src/utils/localStorage.js:114-122 | returns `RemovedFrom`; the store is written only when a collection has the id |
| Storage.LocalStore.AddSearchHistory | src/utils/localStorage.js:129-144 | a blank query changes nothing and returns nothing; otherwise it stores and returns `HistoryWith` |
| Storage.LocalStore.ClearSearchHistory | src/utils/localStorage.js:146-148 | the stored history becomes empty |
| Storage.LocalStore.TrackEvent | src/utils/localStorage.js:187-208 | stores and returns `Logged` of the stored analytics, starting from the four empty types |
| Markdown.ExportMarkdown | src/utils/exportUtils.js:4-56 | the document: title, query line, count, date, rule, then one section per result. `Markdown.StartsWithTitle`, `Markdown.QueryLineIff`, `Markdown.CountReadsBack`, `Markdown.HeadingOf` and `Markdown.SectionsPrefix` state its shape; `Markdown.ExportAsMarkdown` is proved to build it |
| Markdown.ExportAsMarkdown | src/utils/exportUtils.js:4-56 | the `+=` steps and the loop over results build `ExportMarkdown` |
| Markdown.AppendSection | src/utils/exportUtils.js:15-53 | one loop iteration appends the result's section, block by block |
| Markdown.AppendPrompts | src/utils/exportUtils.js:42-44 | the prompt loop appends the numbered prompt lines |
| Markdown.StartsWithTitle | src/utils/exportUtils.js:5 | the document starts with the title |
| Markdown.QueryLineIff | src/utils/exportUtils.js:7-9 | the query line follows the title iff the query is non-empty |
| Markdown.CountReadsBack | src/utils/exportUtils.js:11 | the count line follows, and its number reads back as the number of results |
| Markdown.HeadingOf | src/utils/exportUtils.js:15-16 | result `k`'s heading follows the sections of the results before it, and its number reads back as `k + 1` |
| Markdown.SectionsPrefix | src/utils/exportUtils.js:15-53 | the sections of a prefix of the results are a prefix of the sections |
| Markdown.SubcategoryOnlyWithCategory | src/utils/exportUtils.js:18-24 | no category line without a category; with both, the subcategory follows the category |
| Csv.Cells | src/utils/exportUtils.js:66-76 | each row has one cell per header |
| Csv.CellsOfMissing | src/utils/exportUtils.js:66-76 | missing fields give empty cells, in the header's column order |
| Csv.ReadQuotedRoundTrip | src/utils/exportUtils.js:80 | undoing the doubled quotes of a quoted cell recovers the cell |
| Csv.ReadCellsRoundTrip | src/utils/exportUtils.js:80 | a written row reads back as its cells |
| Csv.ReadRowsRoundTrip | src/utils/exportUtils.js:78-81 | rows joined with line breaks read back as their cells |
| Csv.ExportCsv | src/utils/exportUtils.js:64-84 | the text starts with the header line; `Csv.ExportCsvRoundTrip` proves the rest reads back as every result's cells |
| Csv.ExportCsvRoundTrip | src/utils/exportUtils.js:64-84 | no results give the header line alone; otherwise the header line, a line break and text that reads back as every result's cells, in order |
| Export.DatePart | src/utils/exportUtils.js:101 | the date is a `T`-free prefix of the ISO time |
| Export.ExportResults | src/utils/exportUtils.js:100-128 | fails iff the format is not markdown, json or csv, with the source's message; otherwise `size` is the content length and the file name is prefix, date and the format's extension |
| Export.ExportedContent | src/utils/exportUtils.js:104-121 | each format's content is its export: JSON as given, Markdown starting with the title, CSV reading back as the results' cells |
| Export.FilenamesDiffer | src/utils/exportUtils.js:107-119 | two formats never share a file name on the same date |
| FilterSets.Put | src/components/FilterPanel.jsx:33 | `{ ...prev, [k]: vs }` sets `k` to `vs` and leaves every other key's values alone |
| FilterSets.PutKeys | src/components/FilterPanel.jsx:33 | an existing key keeps its place; a new key is appended |
| FilterPanel.HandleToggle | src/components/FilterPanel.jsx:26-35 | a selected value is removed and an unselected one appended at the end; other values of that dimension, and all other dimensions, are unchanged; the object stays free of duplicate keys |
| FilterPanel.Without | src/components/FilterPanel.jsx:30 | every occurrence of the value goes, everything else stays in order |
| FilterPanel.ToggleTwice | src/components/FilterPanel.jsx:28-32 | toggling an unselected value twice restores every dimension's values |
| FilterPanel.ActiveCount | src/components/FilterPanel.jsx:48-50 | the count is at least the number of values of any one dimension; `FilterPanel.ActiveCountPut` and `FilterPanel.ToggleCount` state how a change moves it |
| FilterPanel.ActiveCountPut | src/components/FilterPanel.jsx:48-50 | setting a dimension changes the count by the difference in its length |
| FilterPanel.ToggleCount | src/components/FilterPanel.jsx:26-50 | adding a value raises the count by one; removing lowers it by that value's occurrences |
| FilterPanel.HandleClear | src/components/FilterPanel.jsx:42-46 | local and published filters become `{}` with count 0, and the panel closes |
| SearchBar.FirstQueries | src/components/SearchBar.jsx:59 | the queries of the first five history entries, in order |
| SearchBar.Recent | src/components/SearchBar.jsx:59 | at most five recent queries: the non-empty queries of the first five history entries, in history order and count |
| SearchBar.Merged | src/components/SearchBar.jsx:60 | the merge holds exactly the recent and the generated suggestions |
| SearchBar.MergedOrder | src/components/SearchBar.jsx:60 | the merge has no repeats, starts with the recent queries, deduplicated, in order, and lists every value in the order of its first occurrence in the recent queries followed by the generated ones |
| SearchBar.SuggestionBox.Refresh | src/components/SearchBar.jsx:54-68 | the list is the merge when suggestions apply, else empty; the dropdown shows iff the list is non-empty and the box has focus; nothing is highlighted |
| SearchBar.SuggestionBox.ChooseSuggestion | src/components/SearchBar.jsx:121-131 | the dropdown closes and the highlight resets |
| SearchBar.SuggestionBox.HandleKeyDown | src/components/SearchBar.jsx:133-167 | a hidden or empty list ignores keys. Otherwise: ArrowDown moves to min(i+1, len-1); ArrowUp moves to max(i-1, -1); Enter picks `suggestions[i]` only when `i >= 0`; Escape hides the list and resets. Only these four keys are prevented, and the index stays in `[-1, len-1]` |
| Shortcuts.Matches | src/hooks/useKeyboardShortcuts.js:10-19 | the match rule; `Shortcuts.MetaIgnored`, `Shortcuts.KeyCaseInsensitive` and `Shortcuts.ControlOrCommand` state its properties |
| Shortcuts.MetaIgnored | src/hooks/useKeyboardShortcuts.js:13-19 | a shortcut's `meta` flag does not affect matching |
| Shortcuts.KeyCaseInsensitive | src/hooks/useKeyboardShortcuts.js:16 | the key comparison ignores case on both sides |
| Shortcuts.ControlOrCommand | src/hooks/useKeyboardShortcuts.js:10 | a `ctrl` shortcut fires on Control or Command alone; any other fires only with both up |
| Shortcuts.Dispatch | src/hooks/useKeyboardShortcuts.js:5-26 | the first matching shortcut in list order fires, and no earlier one matches; none fires iff none matches; `preventDefault` is called iff one fires |

## Left out

- Fuzzy search (`performFuzzySearch`): it depends on the Fuse.js library, which is not part of this model.
- `toLowerCase` is modelled on ASCII letters only. String lengths count Dafny characters, not UTF-16 code units. `localeCompare` is a parameter.
- `Storage.Lookup`: a stored value of the wrong shape (for example an object where a list is expected) is not modelled. A stored empty string is represented as `Unparseable`, since both read as the default. Failing writes (quota) are not modelled.
- `Storage.LocalStore.TrackEvent`: the event's `data` is kept as opaque text.
- Keys such as `__proto__` used as event types or filter dimensions are not modelled.
- `Ordering.SortResults`: a `risk_level` naming an inherited property (`toString`, `constructor`, `__proto__`) makes the source's `riskOrder[...] || 999` lookup return a function, so its comparator yields NaN and the order is unspecified. The model ranks such a value 999 like any other unknown level.
- Theme, view preference and saved-filter helpers in `localStorage.js` are simple key reads and writes; they are not modelled.
- `exportAsJSON` (`JSON.stringify`), `downloadFile` (Blob, URL and DOM) and `copyToClipboard` are not modelled. The JSON text is a parameter of `Export.ExportResults`.
- `new Date()` and `toLocaleString()` are parameters.
- `Markdown.ExportMarkdown`: a `null` title or description prints as `undefined` here, where the source prints `null`.
- `Related.Similarity`: JSON `null` and a missing attribute are both `None`. When one record's `category` is `null` and the other lacks the key, the source's `===` sees them as different and adds 0, while the model adds 50. The same case for `risk_level` adds 10 here and 0 in the source.
- `Csv.ExportCsvRoundTrip`: proves the rows read back. That the header line equals `headers.join(',')` is written out as a literal and not proved.
- `FilterOptions.SortedValuesSpec`: option lists are ordered by code point. `Array.prototype.sort()` compares UTF-16 code units, and the two orders differ for characters above U+FFFF.
- `metrics.time_saved_min` is modelled as an integer. A fractional value in the data is not modelled.
- React rendering, effects scheduling, the 200 ms blur timer, debouncing, scrolling into view, focus handling and click-outside detection are not modelled. `SearchBar.SuggestionBox.Refresh` stands for the effect at `src/components/SearchBar.jsx` lines 54-68, run whenever its dependencies change.
- `handleApply` in the filter panel and `handleFocus`, `handleBlur`, `handleClear` in the search bar are not modelled; they only set React state or call the parent.
- Shortcut callbacks are identified by their position in the list; what they do is outside this model.
