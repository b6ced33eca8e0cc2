/**
 * The leaderboards of data/__main__.py. `Data` holds the three maps that
 * data/__init__.py loads at import time (`crates`, `keywords`, `categories`);
 * `Analysis` ranks them with `_max` and memoises each leaderboard per instance
 * (`functools.lru_cache`). Wrapping a keyword or category entry in a
 * `Keyword`/`Category` writes `id = name` into the shared entry itself.
 */
module Analysis {
  import opened Wrappers
  import opened Json
  import opened PyDict
  import opened Normalizer
  import opened Taxonomy
  import opened Serializer
  import opened Ranking

  /** The module-level maps of data/__init__.py. */
  class Data {
    var crates: Dict<Json, Record>
    var keywords: Dict<string, Entry>
    var categories: Dict<string, Entry>

    ghost predicate Valid()
      reads this
    {
      crates.Valid() && keywords.Valid() && categories.Valid()
    }

    constructor (crates: Dict<Json, Record>, keywords: Dict<string, Entry>, categories: Dict<string, Entry>)
      requires crates.Valid() && keywords.Valid() && categories.Valid()
      ensures Valid()
      ensures this.crates == crates && this.keywords == keywords && this.categories == categories
    {
      this.crates := crates;
      this.keywords := keywords;
      this.categories := categories;
    }
  }

  // ---- the projections each leaderboard ranks by ----

  /** `crates[name]['timestamp']['create']`. */
  function Created(r: Record): Option<real> { r.created }

  /** `crates[name]['download']['all']`. */
  function DownloadsAll(r: Record): Option<real> { NumKey(r.downloadsAll) }

  /** `crates[name]['timestamp']['update']`. */
  function Updated(r: Record): Option<real> { r.updated }

  /** `crates[name]['download']['recent']`. */
  function DownloadsRecent(r: Record): Option<real> { NumKey(r.downloadsRecent) }

  /** `keywords[name]['count']` / `categories[name]['count']`. */
  function Count(e: Entry): Option<real> { NumKey(e.count) }

  /** The key `_max` sees for a name: the projection of the value stored under it. */
  function NameKey<K(==), V>(d: Dict<K, V>, proj: V -> Option<real>): K -> Option<real> {
    k => if k in d.items then proj(d.items[k]) else None
  }

  /** `self._max(d, n, key)` over a dict, which iterates its keys in insertion order. */
  function Ranked<K(==), V>(d: Dict<K, V>, n: int, proj: V -> Option<real>): (r: Result<seq<K>>)
    requires d.Valid()
    ensures r.Err? <==> |d.order| >= 2 && exists i :: 0 <= i < |d.order| && NameKey(d, proj)(d.order[i]).None?
    ensures r.Err? ==> r.error == TypeError
    ensures r.Ok? ==> |r.value| == SliceLen(|d.order|, n)
    ensures r.Ok? ==> forall i :: 0 <= i < |r.value| ==> r.value[i] in d.items
  {
    var r := Max(d.order, n, NameKey(d, proj));
    if r.Ok? then
      MaxDrawsFromData(d.order, n, NameKey(d, proj));
      d.OrderInItems();
      assert forall i :: 0 <= i < |r.value| ==> r.value[i] in multiset(d.order);
      r
    else r
  }

  /**
   * The dict is ranked in insertion order: among names whose values share a
   * key, the leaders are the first ones inserted.
   */
  lemma RankedTiesInInsertionOrder<K, V>(d: Dict<K, V>, n: int, proj: V -> Option<real>, v: real)
    requires d.Valid() && Ranked(d, n, proj).Ok?
    ensures KeyFilter(Ranked(d, n, proj).value, Rank(NameKey(d, proj)), v) <= KeyFilter(d.order, Rank(NameKey(d, proj)), v)
  {
    MaxStable(d.order, n, NameKey(d, proj), v);
  }

  /** `[self._crate(crates[name]) for name in self._max(crates, n, key)]`: the records of the leaders. */
  function CrateBoard(crates: Dict<Json, Record>, n: int, proj: Record -> Option<real>): (r: Result<seq<Record>>)
    requires crates.Valid()
    ensures r.Err? ==> r.error == TypeError
    ensures r.Ok? ==> |r.value| <= |crates.order| && forall i :: 0 <= i < |r.value| ==> r.value[i] in crates.items.Values
  {
    match Ranked(crates, n, proj)
    case Err(e) => Err(e)
    case Ok(names) => Ok(seq(|names|, i requires 0 <= i < |names| => crates.items[names[i]]))
  }

  /** A crate leaderboard fails exactly when two or more crates are ranked and one has no key. */
  lemma CrateBoardFails(crates: Dict<Json, Record>, n: int, proj: Record -> Option<real>)
    requires crates.Valid()
    ensures CrateBoard(crates, n, proj).Err? <==>
              |crates.order| >= 2 && exists k :: k in crates.items && proj(crates.items[k]).None?
    ensures CrateBoard(crates, n, proj).Err? ==> CrateBoard(crates, n, proj).error == TypeError
  {
    crates.OrderInItems();
    var key := NameKey(crates, proj);
    if exists k :: k in crates.items && proj(crates.items[k]).None? {
      var k :| k in crates.items && proj(crates.items[k]).None?;
      var i := IndexOf(crates.order, k);
      assert key(crates.order[i]).None?;
    }
  }

  /**
   * Otherwise it lists `min(n, |crates|)` distinct crates (for `n >= 0`), each
   * the record stored under the name `_max` chose.
   */
  lemma CrateBoardLeaders(crates: Dict<Json, Record>, n: int, proj: Record -> Option<real>)
    requires crates.Valid() && CrateBoard(crates, n, proj).Ok?
    ensures var names := Ranked(crates, n, proj).value;
            var board := CrateBoard(crates, n, proj).value;
            |board| == |names| == SliceLen(|crates.items|, n)
            && Distinct(names)
            && (forall i :: 0 <= i < |board| ==> board[i] == crates.items[names[i]])
  {
    crates.OrderInItems();
    DistinctCard(crates.order);
    MaxDrawsFromData(crates.order, n, NameKey(crates, proj));
  }

  /** ... by non-increasing key. */
  lemma CrateBoardOrdered(crates: Dict<Json, Record>, n: int, proj: Record -> Option<real>)
    requires crates.Valid() && CrateBoard(crates, n, proj).Ok?
    ensures KeysDescending(CrateBoard(crates, n, proj).value, proj)
  {
    var key := NameKey(crates, proj);
    var names := Ranked(crates, n, proj).value;
    var board := CrateBoard(crates, n, proj).value;
    MaxOrdered(crates.order, n, key);
    forall i | 0 <= i < |board| ensures proj(board[i]) == key(names[i]) && Rank(proj)(board[i]) == Rank(key)(names[i]) {
    }
  }

  /** Every id in `names` now carries `id = name`; nothing else changes. */
  function WithIds(d: Dict<string, Entry>, names: seq<string>): (r: Dict<string, Entry>)
    requires d.Valid()
    ensures r.Valid() && r.order == d.order && r.items.Keys == d.items.Keys
    ensures forall k | k in d.items ::
              r.items[k].(id := d.items[k].id) == d.items[k]
              && r.items[k].id == (if k in names then Some(k) else d.items[k].id)
  {
    Dict(d.order, map k | k in d.items :: if k in names then d.items[k].(id := Some(k)) else d.items[k])
  }

  /** `Keyword(name, keywords[name])` for each name in turn, as values. */
  function Wrapped(d: Dict<string, Entry>, names: seq<string>): (r: seq<Entry>)
    requires forall i :: 0 <= i < |names| ==> names[i] in d.items
    ensures |r| == |names|
    ensures forall i :: 0 <= i < |r| ==> r[i].id == Some(names[i]) && r[i].(id := d.items[names[i]].id) == d.items[names[i]]
  {
    seq(|names|, i requires 0 <= i < |names| => d.items[names[i]].(id := Some(names[i])))
  }

  /**
   * What a keyword or category leaderboard returns and leaves behind: the
   * wrapped leaders, and the map with those leaders' entries tagged.
   */
  function TaxonomyBoard(d: Dict<string, Entry>, n: int): (r: (Result<seq<Entry>>, Dict<string, Entry>))
    requires d.Valid()
    ensures r.1.Valid() && r.1.order == d.order && r.1.items.Keys == d.items.Keys
    ensures r.0.Err? ==> r.0.error == TypeError && r.1 == d
    // each leader comes back tagged with its own name, which is a key of the map
    ensures r.0.Ok? ==> forall i :: 0 <= i < |r.0.value| ==>
              r.0.value[i].id.Some? && r.0.value[i].id.value in d.items
              && r.1.items[r.0.value[i].id.value] == r.0.value[i]
  {
    match Ranked(d, n, Count)
    case Err(e) => (Err(e), d)
    case Ok(names) => (Ok(Wrapped(d, names)), WithIds(d, names))
  }

  /** A keyword or category leaderboard fails exactly when two or more entries are ranked and one has no numeric count. */
  lemma TaxonomyBoardFails(d: Dict<string, Entry>, n: int)
    requires d.Valid()
    ensures TaxonomyBoard(d, n).0.Err? <==>
              |d.order| >= 2 && exists k :: k in d.items && Count(d.items[k]).None?
    ensures TaxonomyBoard(d, n).0.Err? ==> TaxonomyBoard(d, n).0.error == TypeError && TaxonomyBoard(d, n).1 == d
  {
    d.OrderInItems();
    var key := NameKey(d, Count);
    if exists k :: k in d.items && Count(d.items[k]).None? {
      var k :| k in d.items && Count(d.items[k]).None?;
      var i := IndexOf(d.order, k);
      assert key(d.order[i]).None?;
    }
  }

  /**
   * Otherwise it lists `min(n, |d|)` distinct names (for `n >= 0`), each
   * wrapped around the entry stored under it, by non-increasing count.
   */
  lemma TaxonomyBoardLeaders(d: Dict<string, Entry>, n: int)
    requires d.Valid() && TaxonomyBoard(d, n).0.Ok?
    ensures var names := Ranked(d, n, Count).value;
            var board := TaxonomyBoard(d, n).0.value;
            |board| == |names| == SliceLen(|d.items|, n)
            && Distinct(names)
            && (forall i :: 0 <= i < |board| ==> board[i] == d.items[names[i]].(id := Some(names[i])))
  {
    d.OrderInItems();
    DistinctCard(d.order);
    MaxDrawsFromData(d.order, n, NameKey(d, Count));
  }

  /** ... by non-increasing count. */
  lemma TaxonomyBoardOrdered(d: Dict<string, Entry>, n: int)
    requires d.Valid() && TaxonomyBoard(d, n).0.Ok?
    ensures KeysDescending(TaxonomyBoard(d, n).0.value, Count)
  {
    var key := NameKey(d, Count);
    var names := Ranked(d, n, Count).value;
    var board := TaxonomyBoard(d, n).0.value;
    assert board == Wrapped(d, names);
    MaxOrdered(d.order, n, key);
    forall i | 0 <= i < |board| ensures Count(board[i]) == key(names[i]) && Rank(Count)(board[i]) == Rank(key)(names[i]) {
    }
  }

  /**
   * The entries a leaderboard hands out are the very entries left in the map
   * (the wrapper shares the dict), and tagging them does not change the
   * ranking: asking again ranks the same names.
   */
  lemma TaxonomyBoardShares(d: Dict<string, Entry>, n: int)
    requires d.Valid()
    ensures TaxonomyBoard(d, n).0.Ok? ==>
              var names := Ranked(d, n, Count).value;
              var board := TaxonomyBoard(d, n).0.value;
              var after := TaxonomyBoard(d, n).1;
              forall i :: 0 <= i < |board| ==> board[i] == after.items[names[i]]
    ensures Ranked(TaxonomyBoard(d, n).1, n, Count) == Ranked(d, n, Count)
  {
    var after := TaxonomyBoard(d, n).1;
    var ranked := Ranked(d, n, Count);
    if ranked.Ok? {
      assert after == WithIds(d, ranked.value);
      WithIdsKeepsCounts(d, ranked.value);
    } else {
      assert after == d;
    }
    SameCountsSameKeys(d, after);
    MaxCongruent(d.order, n, NameKey(after, Count), NameKey(d, Count));
  }

  /** Two maps with the same keys and the same counts give every name of the first the same ranking key. */
  lemma SameCountsSameKeys(d: Dict<string, Entry>, after: Dict<string, Entry>)
    requires d.Valid() && after.items.Keys == d.items.Keys
    requires forall k | k in d.items :: after.items[k].count == d.items[k].count
    ensures forall i :: 0 <= i < |d.order| ==> NameKey(after, Count)(d.order[i]) == NameKey(d, Count)(d.order[i])
  {
    d.OrderInItems();
    forall i | 0 <= i < |d.order| ensures NameKey(after, Count)(d.order[i]) == NameKey(d, Count)(d.order[i]) {
      var k := d.order[i];
      assert k in d.items && k in after.items;
      assert NameKey(after, Count)(k) == Count(after.items[k]);
      assert NameKey(d, Count)(k) == Count(d.items[k]);
      assert after.items[k].count == d.items[k].count;
    }
  }

  /** Tagging changes no entry's count. */
  lemma WithIdsKeepsCounts(d: Dict<string, Entry>, names: seq<string>)
    requires d.Valid()
    ensures forall k | k in d.items :: WithIds(d, names).items[k].count == d.items[k].count
  {
    forall k | k in d.items ensures WithIds(d, names).items[k].count == d.items[k].count {
      assert WithIds(d, names).items[k].(id := d.items[k].id) == d.items[k];
    }
  }

  /** Tagging one more name is one more assignment to the map. */
  lemma WithIdsSnoc(d: Dict<string, Entry>, names: seq<string>, name: string)
    requires d.Valid() && name in d.items
    ensures WithIds(d, names + [name]) == Set(WithIds(d, names), name, d.items[name].(id := Some(name)))
  {
    var l, r := WithIds(d, names + [name]), Set(WithIds(d, names), name, d.items[name].(id := Some(name)));
    forall k | k in d.items ensures l.items[k] == r.items[k] {
      assert k in names + [name] <==> k in names || k == name;
    }
    assert l.items == r.items;
  }

  /** Wrapping one more name appends its tagged entry. */
  lemma WrappedSnoc(d: Dict<string, Entry>, names: seq<string>, name: string)
    requires forall i :: 0 <= i < |names| ==> names[i] in d.items
    requires name in d.items
    ensures Wrapped(d, names + [name]) == Wrapped(d, names) + [d.items[name].(id := Some(name))]
  {
    var l, r := Wrapped(d, names + [name]), Wrapped(d, names) + [d.items[name].(id := Some(name))];
    forall i | 0 <= i < |l| ensures l[i] == r[i] {
      if i < |names| { assert (names + [name])[i] == names[i]; }
    }
  }

  /** The wrapping loop over the leaders: value in, value out, no global touched. */
  method WrapEntries(d: Dict<string, Entry>, names: seq<string>) returns (entries: seq<Entry>, tagged: Dict<string, Entry>)
    requires d.Valid()
    requires forall i :: 0 <= i < |names| ==> names[i] in d.items
    ensures tagged.Valid()
    ensures entries == Wrapped(d, names) && tagged == WithIds(d, names)
  {
    entries := [];
    tagged := d;
    var i := 0;
    while i < |names|
      invariant 0 <= i <= |names|
      invariant tagged.Valid()
      invariant entries == Wrapped(d, names[..i])
      invariant tagged == WithIds(d, names[..i])
    {
      var name := names[i];
      var entry := tagged.items[name].(id := Some(name));
      assert tagged.items[name] == d.items[name].(id := tagged.items[name].id);
      assert entry == d.items[name].(id := Some(name));
      assert names[..i + 1] == names[..i] + [name];
      WithIdsSnoc(d, names[..i], name);
      WrappedSnoc(d, names[..i], name);
      tagged := Set(tagged, name, entry);
      entries := entries + [entry];
      i := i + 1;
    }
    assert names[..i] == names;
  }

  class Analysis {
    /** `self._number`, the length of every leaderboard. */
    const number: int
    /** The `lru_cache` memo of each leaderboard: `None` until a call returns. */
    var newCrates: Option<seq<Record>>
    var mostDownloaded: Option<seq<Record>>
    var justUpdated: Option<seq<Record>>
    var mostRecentDownloads: Option<seq<Record>>
    var popularKeywords: Option<seq<Entry>>
    var popularCategories: Option<seq<Entry>>

    /** `Analysis(number=10)`: nothing memoised yet. */
    constructor (number: int)
      ensures this.number == number
      ensures newCrates == None && mostDownloaded == None && justUpdated == None
      ensures mostRecentDownloads == None && popularKeywords == None && popularCategories == None
    {
      this.number := number;
      newCrates := None;
      mostDownloaded := None;
      justUpdated := None;
      mostRecentDownloads := None;
      popularKeywords := None;
      popularCategories := None;
    }

    /** `new_crates()`: by creation time, latest first; a repeated call returns the memo. */
    method NewCrates(db: Data) returns (r: Result<seq<Record>>)
      requires db.Valid()
      modifies this`newCrates
      ensures old(newCrates).Some? ==> r == Ok(old(newCrates).value) && newCrates == old(newCrates)
      ensures old(newCrates).None? ==>
        r == CrateBoard(db.crates, number, Created) && newCrates == (if r.Ok? then Some(r.value) else None)
    {
      if newCrates.Some? {
        return Ok(newCrates.value);
      }
      r := CrateBoard(db.crates, number, Created);
      if r.Ok? {
        newCrates := Some(r.value);
      }
    }

    /** `most_downloaded()`: by all-time downloads. */
    method MostDownloaded(db: Data) returns (r: Result<seq<Record>>)
      requires db.Valid()
      modifies this`mostDownloaded
      ensures old(mostDownloaded).Some? ==> r == Ok(old(mostDownloaded).value) && mostDownloaded == old(mostDownloaded)
      ensures old(mostDownloaded).None? ==>
        r == CrateBoard(db.crates, number, DownloadsAll) && mostDownloaded == (if r.Ok? then Some(r.value) else None)
    {
      if mostDownloaded.Some? {
        return Ok(mostDownloaded.value);
      }
      r := CrateBoard(db.crates, number, DownloadsAll);
      if r.Ok? {
        mostDownloaded := Some(r.value);
      }
    }

    /** `just_updated()`: by update time, latest first. */
    method JustUpdated(db: Data) returns (r: Result<seq<Record>>)
      requires db.Valid()
      modifies this`justUpdated
      ensures old(justUpdated).Some? ==> r == Ok(old(justUpdated).value) && justUpdated == old(justUpdated)
      ensures old(justUpdated).None? ==>
        r == CrateBoard(db.crates, number, Updated) && justUpdated == (if r.Ok? then Some(r.value) else None)
    {
      if justUpdated.Some? {
        return Ok(justUpdated.value);
      }
      r := CrateBoard(db.crates, number, Updated);
      if r.Ok? {
        justUpdated := Some(r.value);
      }
    }

    /** `most_recent_downloads()`: by recent downloads. */
    method MostRecentDownloads(db: Data) returns (r: Result<seq<Record>>)
      requires db.Valid()
      modifies this`mostRecentDownloads
      ensures old(mostRecentDownloads).Some? ==>
        r == Ok(old(mostRecentDownloads).value) && mostRecentDownloads == old(mostRecentDownloads)
      ensures old(mostRecentDownloads).None? ==>
        r == CrateBoard(db.crates, number, DownloadsRecent)
        && mostRecentDownloads == (if r.Ok? then Some(r.value) else None)
    {
      if mostRecentDownloads.Some? {
        return Ok(mostRecentDownloads.value);
      }
      r := CrateBoard(db.crates, number, DownloadsRecent);
      if r.Ok? {
        mostRecentDownloads := Some(r.value);
      }
    }

    /** `popular_keywords()`: by crate count; each leader's entry in `keywords` gains its id. */
    method PopularKeywords(db: Data) returns (r: Result<seq<Entry>>)
      requires db.Valid()
      modifies this`popularKeywords, db`keywords
      ensures db.Valid()
      ensures old(popularKeywords).Some? ==>
        r == Ok(old(popularKeywords).value) && popularKeywords == old(popularKeywords) && db.keywords == old(db.keywords)
      ensures old(popularKeywords).None? ==>
        (r, db.keywords) == TaxonomyBoard(old(db.keywords), number)
        && popularKeywords == (if r.Ok? then Some(r.value) else None)
    {
      if popularKeywords.Some? {
        return Ok(popularKeywords.value);
      }
      var names := Ranked(db.keywords, number, Count);
      if names.Err? {
        return Err(names.error);
      }
      var entries, tagged := WrapEntries(db.keywords, names.value);
      db.keywords := tagged;
      popularKeywords := Some(entries);
      return Ok(entries);
    }

    /** `popular_categories()`: by crate count; each leader's entry in `categories` gains its id. */
    method PopularCategories(db: Data) returns (r: Result<seq<Entry>>)
      requires db.Valid()
      modifies this`popularCategories, db`categories
      ensures db.Valid()
      ensures old(popularCategories).Some? ==>
        r == Ok(old(popularCategories).value) && popularCategories == old(popularCategories)
        && db.categories == old(db.categories)
      ensures old(popularCategories).None? ==>
        (r, db.categories) == TaxonomyBoard(old(db.categories), number)
        && popularCategories == (if r.Ok? then Some(r.value) else None)
    {
      if popularCategories.Some? {
        return Ok(popularCategories.value);
      }
      var names := Ranked(db.categories, number, Count);
      if names.Err? {
        return Err(names.error);
      }
      var entries, tagged := WrapEntries(db.categories, names.value);
      db.categories := tagged;
      popularCategories := Some(entries);
      return Ok(entries);
    }
  }
}
