/** The browser-side persistence of src/utils/localStorage.js: favourites,
    collections, search history and an analytics log, each kept as one JSON
    value under a fixed key of `localStorage`. The store is a map from keys
    to items; every operation reads a value, changes it and writes it back. */
module Storage {
  import opened Wrappers
  import opened Seqs
  import opened Text

  const FavoritesKey := "copilot_favorites"
  const CollectionsKey := "copilot_collections"
  const SearchHistoryKey := "copilot_search_history"
  const AnalyticsKey := "copilot_analytics"

  /** `filtered.slice(0, 50)` in `addSearchHistory`. */
  const MaxHistory := 50
  /** `slice(-1000)` in `trackEvent`. */
  const MaxEventsPerType := 1000

  datatype Collection = Collection(
    id: string,
    name: string,
    description: string,
    useCases: seq<string>,
    createdAt: string)

  datatype HistoryEntry = HistoryEntry(query: string, timestamp: string)

  /** One analytics event; `data` is the caller's payload, kept as its JSON text. */
  datatype Event = Event(eventType: string, data: string, timestamp: string)

  /** The JSON values the application keeps in the store. */
  datatype Value =
    | Ids(ids: seq<string>)
    | Collections(collections: seq<Collection>)
    | History(entries: seq<HistoryEntry>)
    | Analytics(log: map<string, seq<Event>>)

  /** The text under a key: either it parses as JSON, or it does not. */
  datatype Item = Unparseable | Parsed(value: Value)

  /** `getFromStorage(key, defaultValue)` over the store's contents. */
  function Lookup(items: map<string, Item>, key: string, default: Value): (v: Value)
    ensures key in items && items[key].Parsed? ==> v == items[key].value
    ensures key !in items || items[key].Unparseable? ==> v == default
  {
    if key in items && items[key].Parsed? then items[key].value else default
  }

  /** A value written with `setToStorage` is what `getFromStorage` reads back,
      and the other keys read as before. */
  lemma LookupAfterWrite(items: map<string, Item>, key: string, v: Value, other: string, default: Value)
    ensures Lookup(items[key := Parsed(v)], key, default) == v
    ensures other != key ==> Lookup(items[key := Parsed(v)], other, default) == Lookup(items, other, default)
  {
  }

  // ---------------------------------------------------------------------
  // Favourites

  /** `addFavorite`'s list: the id is appended unless it is already there. */
  function WithFavorite(favorites: seq<string>, id: string): (r: seq<string>)
    ensures id in r
    ensures id in favorites ==> r == favorites
    ensures id !in favorites ==> r == favorites + [id]
  {
    if id in favorites then favorites else favorites + [id]
  }

  /** Adding a favourite twice is adding it once. */
  lemma WithFavoriteIdempotent(favorites: seq<string>, id: string)
    ensures WithFavorite(WithFavorite(favorites, id), id) == WithFavorite(favorites, id)
  {
  }

  /** Adding a favourite keeps the earlier ones, in place, and adds no other. */
  lemma WithFavoriteKeeps(favorites: seq<string>, id: string)
    ensures var r := WithFavorite(favorites, id);
      |r| <= |favorites| + 1 && r[..|favorites|] == favorites
      && forall x :: x in r ==> x in favorites || x == id
  {
  }

  /** `ids.filter(x => x !== id)`: every occurrence of `id` goes, and every
      other entry stays, as often as it occurred and in its order. */
  function Drop(ids: seq<string>, id: string): (r: seq<string>)
    ensures multiset(r) == multiset(ids)[id := 0]
    ensures IsSubseq(r, ids)
  {
    FilterIsSubseq(ids, (x: string) => x != id);
    DropMultiset(ids, id);
    Filter(ids, (x: string) => x != id)
  }

  lemma {:induction false} DropMultiset(ids: seq<string>, id: string)
    ensures multiset(Filter(ids, (x: string) => x != id)) == multiset(ids)[id := 0]
    decreases |ids|
  {
    if ids != [] {
      var init := ids[..|ids| - 1];
      assert ids == init + [ids[|ids| - 1]];
      DropMultiset(init, id);
    }
  }

  /** `removeFavorite`'s list. */
  function WithoutFavorite(favorites: seq<string>, id: string): (r: seq<string>)
    ensures id !in r
    ensures forall x :: x != id ==> (x in r <==> x in favorites)
    ensures multiset(r) == multiset(favorites)[id := 0]
  {
    Drop(favorites, id)
  }

  /** The remaining favourites keep their relative order. */
  lemma WithoutFavoriteKeepsOrder(favorites: seq<string>, id: string)
    ensures IsSubseq(WithoutFavorite(favorites, id), favorites)
  {
  }

  // ---------------------------------------------------------------------
  // Collections

  /** `collections.find(c => c.id === collectionId)`, as an index. */
  function FindCollection(collections: seq<Collection>, collectionId: string): (k: Option<nat>)
    ensures k.Some? ==> k.value < |collections| && collections[k.value].id == collectionId
    ensures k.Some? ==> forall j :: 0 <= j < k.value ==> collections[j].id != collectionId
    ensures k.None? ==> forall c :: c in collections ==> c.id != collectionId
  {
    if collections == [] then None
    else if collections[0].id == collectionId then Some(0)
    else
      var k := FindCollection(collections[1..], collectionId);
      if k.Some? then Some(k.value + 1) else None
  }

  /** `addToCollection`'s list: the first collection with that id gains the
      use case at the end of its list, unless it already holds it. */
  function AddedTo(collections: seq<Collection>, collectionId: string, useCaseId: string): (r: seq<Collection>)
    ensures |r| == |collections|
  {
    var k := FindCollection(collections, collectionId);
    if k.None? || useCaseId in collections[k.value].useCases then collections
    else collections[k.value := collections[k.value].(useCases := collections[k.value].useCases + [useCaseId])]
  }

  /** Only the matching collection changes, and only its list, which gains
      the use case at its end when it lacked it. */
  lemma AddedToSpec(collections: seq<Collection>, collectionId: string, useCaseId: string)
    ensures var r := AddedTo(collections, collectionId, useCaseId);
      var k := FindCollection(collections, collectionId);
      && (k.None? ==> r == collections)
      && (k.Some? ==>
            && (forall j :: 0 <= j < |r| && j != k.value ==> r[j] == collections[j])
            && r[k.value].(useCases := collections[k.value].useCases) == collections[k.value]
            && useCaseId in r[k.value].useCases
            && r[k.value].useCases ==
                 if useCaseId in collections[k.value].useCases then collections[k.value].useCases
                 else collections[k.value].useCases + [useCaseId])
  {
  }

  /** Repeating `addToCollection` changes nothing. */
  lemma AddedToIdempotent(collections: seq<Collection>, collectionId: string, useCaseId: string)
    ensures var once := AddedTo(collections, collectionId, useCaseId);
      AddedTo(once, collectionId, useCaseId) == once
  {
    var once := AddedTo(collections, collectionId, useCaseId);
    SameIds(collections, once, collectionId);
  }

  /** Lists of collections with the same ids, position by position, find
      the same one. */
  lemma {:induction false} SameIds(a: seq<Collection>, b: seq<Collection>, collectionId: string)
    requires |a| == |b| && forall j :: 0 <= j < |a| ==> a[j].id == b[j].id
    ensures FindCollection(a, collectionId) == FindCollection(b, collectionId)
  {
    if a != [] {
      SameIds(a[1..], b[1..], collectionId);
    }
  }

  /** `removeFromCollection`'s list: the first collection with that id loses
      every occurrence of the use case. */
  function RemovedFrom(collections: seq<Collection>, collectionId: string, useCaseId: string): (r: seq<Collection>)
    ensures |r| == |collections|
  {
    var k := FindCollection(collections, collectionId);
    if k.None? then collections
    else
      var c := collections[k.value];
      collections[k.value := c.(useCases := Drop(c.useCases, useCaseId))]
  }

  /** Only the matching collection changes; it no longer holds the use case
      and keeps its other use cases, each as often as before, in order. */
  lemma RemovedFromSpec(collections: seq<Collection>, collectionId: string, useCaseId: string)
    ensures var r := RemovedFrom(collections, collectionId, useCaseId);
      var k := FindCollection(collections, collectionId);
      && (k.None? ==> r == collections)
      && (k.Some? ==>
            && (forall j :: 0 <= j < |r| && j != k.value ==> r[j] == collections[j])
            && r[k.value].(useCases := collections[k.value].useCases) == collections[k.value]
            && useCaseId !in r[k.value].useCases
            && (forall x :: x != useCaseId ==> (x in r[k.value].useCases <==> x in collections[k.value].useCases))
            && IsSubseq(r[k.value].useCases, collections[k.value].useCases)
            && multiset(r[k.value].useCases) == multiset(collections[k.value].useCases)[useCaseId := 0])
  {
  }

  /** `deleteCollection`'s list. */
  function WithoutCollection(collections: seq<Collection>, collectionId: string): (r: seq<Collection>)
    ensures forall c :: c in r <==> c in collections && c.id != collectionId
    ensures forall c :: multiset(r)[c] == if c.id != collectionId then multiset(collections)[c] else 0
  {
    FilterMultiset(collections, (c: Collection) => c.id != collectionId);
    Filter(collections, (c: Collection) => c.id != collectionId)
  }

  /** Every collection with that id goes; the others stay in order. */
  lemma WithoutCollectionKeepsOrder(collections: seq<Collection>, collectionId: string)
    ensures FindCollection(WithoutCollection(collections, collectionId), collectionId).None?
    ensures IsSubseq(WithoutCollection(collections, collectionId), collections)
  {
    FilterIsSubseq(collections, (c: Collection) => c.id != collectionId);
  }

  // ---------------------------------------------------------------------
  // Search history

  /** The entries of other queries, most recent first. */
  function OtherEntries(history: seq<HistoryEntry>, query: string): (r: seq<HistoryEntry>)
    ensures forall e :: e in r <==> e in history && e.query != query
    ensures IsSubseq(r, history)
  {
    FilterIsSubseq(history, (e: HistoryEntry) => e.query != query);
    Filter(history, (e: HistoryEntry) => e.query != query)
  }

  /** `addSearchHistory`'s list for a non-blank query: the query moves to
      the front and the list is cut to 50 entries. */
  function HistoryWith(history: seq<HistoryEntry>, query: string, timestamp: string): (r: seq<HistoryEntry>)
    ensures 1 <= |r| <= MaxHistory
    ensures r[0] == HistoryEntry(query, timestamp)
  {
    SliceTo([HistoryEntry(query, timestamp)] + OtherEntries(history, query), MaxHistory)
  }

  /** After the move to the front, no other entry has the query, and the
      other entries follow, most recent first, as many as fit: the oldest
      are dropped once there are more than 49 of them. */
  lemma HistoryWithSpec(history: seq<HistoryEntry>, query: string, timestamp: string)
    ensures var r := HistoryWith(history, query, timestamp);
      var others := OtherEntries(history, query);
      && (forall i :: 1 <= i < |r| ==> r[i].query != query)
      && IsSubseq(r[1..], history)
      && r[1..] <= others
      && |r| == (if |others| < MaxHistory then |others| + 1 else MaxHistory)
      && (|history| < MaxHistory ==>
            forall e :: e in history && e.query != query ==> e in r)
  {
    var rest := OtherEntries(history, query);
    var r := HistoryWith(history, query, timestamp);
    assert r[1..] == rest[..|r| - 1];
    SubseqPrefix(rest, history, |r| - 1);
    forall i | 1 <= i < |r|
      ensures r[i].query != query
    {
      assert r[i] == rest[i - 1] && rest[i - 1] in rest;
    }
    if |history| < MaxHistory {
      assert r == [HistoryEntry(query, timestamp)] + rest;
    }
  }

  // ---------------------------------------------------------------------
  // Analytics

  /** `getAnalytics`' default: the four known event types, each with no events. */
  const EmptyAnalytics: map<string, seq<Event>> :=
    map["searches" := [], "views" := [], "favorites" := [], "exports" := []]

  /** `trackEvent`'s log: the event is appended to its type's list, which
      then keeps only its last 1000 entries. */
  function Logged(log: map<string, seq<Event>>, e: Event): (r: map<string, seq<Event>>)
    ensures e.eventType in r && r.Keys == log.Keys + {e.eventType}
  {
    var events := (if e.eventType in log then log[e.eventType] else []) + [e];
    log[e.eventType := if |events| > MaxEventsPerType then events[|events| - MaxEventsPerType..] else events]
  }

  /** The event is the last of its type's list, that list holds at most
      1000 events, and they are the most recent ones; other types are
      untouched. */
  lemma LoggedSpec(log: map<string, seq<Event>>, e: Event)
    ensures var r := Logged(log, e);
      var before := if e.eventType in log then log[e.eventType] else [];
      var after := r[e.eventType];
      && 1 <= |after| <= MaxEventsPerType
      && after[|after| - 1] == e
      && |after| == (if |before| + 1 > MaxEventsPerType then MaxEventsPerType else |before| + 1)
      && after == (before + [e])[|before| + 1 - |after|..]
      && (forall t :: t != e.eventType && t in log ==> r[t] == log[t])
  {
  }

  // ---------------------------------------------------------------------
  // The store

  /** The browser's `localStorage`, holding the application's items by key. */
  class LocalStore {
    var items: map<string, Item>

    constructor(initial: map<string, Item>)
      ensures items == initial
    {
      items := initial;
    }

    /** `getFromStorage(key, defaultValue)`. */
    function Get(key: string, default: Value): (v: Value)
      reads this
      ensures v == Lookup(items, key, default)
    {
      Lookup(items, key, default)
    }

    /** `setToStorage(key, value)`; a failing write is not modelled. */
    method Put(key: string, value: Value)
      modifies this
      ensures items == old(items)[key := Parsed(value)]
    {
      items := items[key := Parsed(value)];
    }

    /** `getFavorites()`. */
    function Favorites(): seq<string>
      reads this
    {
      var v := Get(FavoritesKey, Ids([]));
      if v.Ids? then v.ids else []
    }

    /** `isFavorite(useCaseId)`. */
    predicate IsFavorite(useCaseId: string)
      reads this
    {
      useCaseId in Favorites()
    }

    /** `addFavorite(useCaseId)`: the store is written only when the id was
        missing. */
    method AddFavorite(useCaseId: string) returns (favorites: seq<string>)
      modifies this
      ensures favorites == WithFavorite(old(Favorites()), useCaseId)
      ensures items == if useCaseId in old(Favorites()) then old(items)
                       else old(items)[FavoritesKey := Parsed(Ids(favorites))]
      ensures IsFavorite(useCaseId)
    {
      favorites := Favorites();
      if useCaseId !in favorites {
        favorites := favorites + [useCaseId];
        Put(FavoritesKey, Ids(favorites));
      }
    }

    /** `removeFavorite(useCaseId)`. */
    method RemoveFavorite(useCaseId: string) returns (updated: seq<string>)
      modifies this
      ensures updated == WithoutFavorite(old(Favorites()), useCaseId)
      ensures items == old(items)[FavoritesKey := Parsed(Ids(updated))]
      ensures !IsFavorite(useCaseId)
    {
      var favorites := Favorites();
      updated := Filter(favorites, (x: string) => x != useCaseId);
      Put(FavoritesKey, Ids(updated));
    }

    /** `getCollections()`. */
    function StoredCollections(): seq<Collection>
      reads this
    {
      var v := Get(CollectionsKey, Collections([]));
      if v.Collections? then v.collections else []
    }

    /** `addCollection(name, description)`; `Date.now()` and the ISO time
        are passed in. */
    method AddCollection(name: string, description: string, nowMillis: nat, nowIso: string)
      returns (created: Collection)
      modifies this
      ensures created == Collection(Decimal(nowMillis), name, description, [], nowIso)
      ensures items == old(items)[CollectionsKey := Parsed(Collections(old(StoredCollections()) + [created]))]
      ensures StoredCollections() == old(StoredCollections()) + [created]
    {
      var collections := StoredCollections();
      created := Collection(Decimal(nowMillis), name, description, [], nowIso);
      collections := collections + [created];
      Put(CollectionsKey, Collections(collections));
    }

    /** `deleteCollection(collectionId)`. */
    method DeleteCollection(collectionId: string) returns (updated: seq<Collection>)
      modifies this
      ensures updated == WithoutCollection(old(StoredCollections()), collectionId)
      ensures items == old(items)[CollectionsKey := Parsed(Collections(updated))]
    {
      var collections := StoredCollections();
      updated := Filter(collections, (c: Collection) => c.id != collectionId);
      Put(CollectionsKey, Collections(updated));
    }

    /** `addToCollection(collectionId, useCaseId)`: the store is written only
        when a collection gained the use case. */
    method AddToCollection(collectionId: string, useCaseId: string) returns (collections: seq<Collection>)
      modifies this
      ensures collections == AddedTo(old(StoredCollections()), collectionId, useCaseId)
      ensures items == if collections == old(StoredCollections()) then old(items)
                       else old(items)[CollectionsKey := Parsed(Collections(collections))]
    {
      collections := StoredCollections();
      var k := FindCollection(collections, collectionId);
      if k.Some? && useCaseId !in collections[k.value].useCases {
        var c := collections[k.value];
        collections := collections[k.value := c.(useCases := c.useCases + [useCaseId])];
        assert collections[k.value] != c;
        Put(CollectionsKey, Collections(collections));
      }
    }

    /** `removeFromCollection(collectionId, useCaseId)`: the store is written
        whenever the collection exists. */
    method RemoveFromCollection(collectionId: string, useCaseId: string) returns (collections: seq<Collection>)
      modifies this
      ensures collections == RemovedFrom(old(StoredCollections()), collectionId, useCaseId)
      ensures items == if FindCollection(old(StoredCollections()), collectionId).None? then old(items)
                       else old(items)[CollectionsKey := Parsed(Collections(collections))]
    {
      collections := StoredCollections();
      var k := FindCollection(collections, collectionId);
      if k.Some? {
        var c := collections[k.value];
        collections := collections[k.value := c.(useCases := Filter(c.useCases, (x: string) => x != useCaseId))];
        Put(CollectionsKey, Collections(collections));
      }
    }

    /** `getSearchHistory()`. */
    function SearchHistory(): seq<HistoryEntry>
      reads this
    {
      var v := Get(SearchHistoryKey, History([]));
      if v.History? then v.entries else []
    }

    /** `addSearchHistory(query)`; the ISO time is passed in. A blank query
        returns nothing and leaves the store alone. */
    method AddSearchHistory(query: string, nowIso: string) returns (limited: Option<seq<HistoryEntry>>)
      modifies this
      ensures IsBlank(query) ==> limited.None? && items == old(items)
      ensures !IsBlank(query) ==>
        && limited == Some(HistoryWith(old(SearchHistory()), query, nowIso))
        && items == old(items)[SearchHistoryKey := Parsed(History(limited.value))]
    {
      if IsBlank(query) {
        return None;
      }
      var history := SearchHistory();
      var filtered := Filter(history, (e: HistoryEntry) => e.query != query);
      filtered := [HistoryEntry(query, nowIso)] + filtered;
      var kept := SliceTo(filtered, MaxHistory);
      Put(SearchHistoryKey, History(kept));
      limited := Some(kept);
    }

    /** `clearSearchHistory()`. */
    method ClearSearchHistory() returns (ok: bool)
      modifies this
      ensures ok
      ensures items == old(items)[SearchHistoryKey := Parsed(History([]))]
      ensures SearchHistory() == []
    {
      Put(SearchHistoryKey, History([]));
      ok := true;
    }

    /** `getAnalytics()`. */
    function StoredAnalytics(): map<string, seq<Event>>
      reads this
    {
      var v := Get(AnalyticsKey, Analytics(EmptyAnalytics));
      if v.Analytics? then v.log else EmptyAnalytics
    }

    /** `trackEvent(eventType, data)`; the ISO time is passed in. */
    method TrackEvent(eventType: string, data: string, nowIso: string) returns (analytics: map<string, seq<Event>>)
      modifies this
      ensures analytics == Logged(old(StoredAnalytics()), Event(eventType, data, nowIso))
      ensures items == old(items)[AnalyticsKey := Parsed(Analytics(analytics))]
    {
      analytics := StoredAnalytics();
      var e := Event(eventType, data, nowIso);
      if eventType !in analytics {
        analytics := analytics[eventType := []];
      }
      var events := analytics[eventType] + [e];
      if |events| > MaxEventsPerType {
        events := events[|events| - MaxEventsPerType..];
      }
      analytics := analytics[eventType := events];
      Put(AnalyticsKey, Analytics(analytics));
    }
  }
}
