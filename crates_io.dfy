/**
 * The two classes of lib/crates_io.py. `CratesIO` owns the category and
 * keyword registries (class-level dicts in the source, shared by every crate)
 * and drives the page loop; `Crate` holds one normalised record, which
 * `fullize` enriches with its taxonomy ids.
 */
module CratesIO {
  import opened Wrappers
  import opened Json
  import opened PyDict
  import opened Normalizer
  import opened Taxonomy
  import opened Serializer
  import opened Harvest

  class CratesIO {
    /** `CratesIO.categories`. */
    var categories: Registry
    /** `CratesIO.keywords`. */
    var keywords: Registry

    ghost predicate Valid()
      reads this
    {
      categories.Valid() && keywords.Valid()
    }

    /** The registries start empty (`categories: t.Dict = {}`). */
    constructor ()
      ensures Valid()
      ensures categories == Empty() && keywords == Empty()
    {
      categories := Empty();
      keywords := Empty();
    }

    /** `categories_to_str()`. */
    function CategoriesToStr(enc: Entry -> string): (r: string)
      reads this
      requires Valid() && StringKeyed(categories)
      ensures categories.order == [] ==> r == []
      ensures categories.order != [] ==> Sort(KeyStrings(categories))[0] + "\t" <= r
    {
      ToStr(categories, enc)
    }

    /** `keywords_to_str()`. */
    function KeywordsToStr(enc: Entry -> string): (r: string)
      reads this
      requires Valid() && StringKeyed(keywords)
      ensures keywords.order == [] ==> r == []
      ensures keywords.order != [] ==> Sort(KeyStrings(keywords))[0] + "\t" <= r
    {
      ToStr(keywords, enc)
    }

    /** The registry of one namespace. */
    function Namespace(kind: Kind): Registry
      reads this
    {
      if kind == Category then categories else keywords
    }

    /** One iteration of the registry loop: `if key not in registry: registry[key] = {...}`. */
    method RegisterOne(kind: Kind, item: Object, iso: IsoParser) returns (outcome: Outcome)
      requires Valid()
      modifies this
      ensures Valid()
      ensures (Namespace(kind), outcome) == ObserveOne(kind, old(Namespace(kind)), item, iso)
      ensures Namespace(kind.Other()) == old(Namespace(kind.Other()))
    {
      var key := IdOf(item);
      if !Hashable(key) {
        return Raised(TypeError);
      }
      if key in Namespace(kind).items {
        return Done;
      }
      var entry := MakeEntry(kind, item, iso);
      if entry.Err? {
        return Raised(entry.error);
      }
      if kind == Category {
        categories := Set(categories, key, entry.value);
      } else {
        keywords := Set(keywords, key, entry.value);
      }
      return Done;
    }

    /**
     * The registry loop of `Crate.fullize` for one namespace: for each item,
     * insert its entry unless its id is already there. The other namespace is
     * not touched.
     */
    method Register(kind: Kind, items: seq<Object>, iso: IsoParser) returns (outcome: Outcome)
      requires Valid()
      modifies this
      ensures Valid()
      ensures (Namespace(kind), outcome) == Observe(kind, old(Namespace(kind)), items, iso)
      ensures Namespace(kind.Other()) == old(Namespace(kind.Other()))
    {
      var i := 0;
      while i < |items|
        invariant 0 <= i <= |items|
        invariant Valid()
        invariant (Namespace(kind), Done) == Observe(kind, old(Namespace(kind)), items[..i], iso)
        invariant Namespace(kind.Other()) == old(Namespace(kind.Other()))
      {
        ObserveSnoc(kind, old(Namespace(kind)), items, iso, i);
        outcome := RegisterOne(kind, items[i], iso);
        if outcome.Raised? {
          ObserveRaisedPersists(kind, old(Namespace(kind)), items, iso, i + 1);
          return;
        }
        i := i + 1;
      }
      assert items[..i] == items;
      return Done;
    }

    /**
     * `crates_by_page(page, per_page, sort)`: fetch one list page; on failure
     * log it and yield nothing; otherwise read its `crates` (which can raise)
     * and yield each raw item normalised.
     */
    method CratesByPage(fetch: Fetcher, iso: IsoParser, page: int, perPage: int, sort: string)
      returns (events: seq<Event>, outcome: Outcome)
      ensures (events, outcome) == ByPage(fetch, iso, page, perPage, sort)
    {
      var data := fetch(page, perPage, sort);
      if data.Err? {
        return [Request(page, perPage, sort), Failed(page, data.error)], Done;
      }
      var listed := PageItems(data.value);
      if listed.Err? {
        return [Request(page, perPage, sort)], Raised(listed.error);
      }
      var items := listed.value;
      var yielded: seq<Event> := [];
      var i := 0;
      assert items[..0] == [];
      while i < |items|
        invariant 0 <= i <= |items|
        invariant YieldAll(items[..i], iso) == (yielded, Done)
      {
        assert items[..i + 1][..i] == items[..i];
        var crate := CrateOf(items[i], iso);
        if crate.Err? {
          YieldAllRaisedPersists(items, iso, i + 1);
          return [Request(page, perPage, sort)] + yielded, Raised(crate.error);
        }
        yielded := yielded + [Yield(crate.value)];
        i := i + 1;
      }
      assert items[..i] == items;
      return [Request(page, perPage, sort)] + yielded, Done;
    }

    /**
     * `crates(delay, per_page, sort)`: read the catalog size from page 1
     * (`number()`, which can raise), then walk `ceil(total / per_page)` pages,
     * sleeping `delay` after each.
     */
    method Crates(fetch: Fetcher, iso: IsoParser, delay: real, perPage: int, sort: string)
      returns (events: seq<Event>, outcome: Outcome)
      ensures (events, outcome) == Run(fetch, iso, delay, perPage, sort)
    {
      events := [Request(1, 50, "alpha")];
      var first := fetch(1, 50, "alpha");
      if first.Err? {
        return events, Raised(first.error);
      }
      var total := Total(first.value);
      if total.Err? {
        return events, Raised(total.error);
      }
      var count := PageCount(total.value, perPage);
      if count.Err? {
        return events, Raised(count.error);
      }
      var n := count.value;
      var trace: seq<Event> := [];
      var page := 0;
      while page < n
        invariant 0 <= page <= n
        invariant Pages(fetch, iso, delay, perPage, sort, page) == (trace, Done)
      {
        var pageEvents, pageOutcome := CratesByPage(fetch, iso, page + 1, perPage, sort);
        if pageOutcome.Raised? {
          PagesRaisedPersists(fetch, iso, delay, perPage, sort, n, page + 1);
          return events + (trace + pageEvents), pageOutcome;
        }
        trace := trace + pageEvents + [Sleep(delay)];
        page := page + 1;
      }
      return events + trace, Done;
    }
  }

  class Crate {
    /** `Crate._data`. */
    var data: Record

    /** A crate around an already normalised record (`Crate(raw)` is `Normalize`). */
    constructor (rec: Record)
      ensures data == rec
    {
      data := rec;
    }

    /**
     * `fullize()`: fetch the crate's detail payload, register its categories
     * then its keywords (first write wins), and record both id lists.
     */
    method Fullize(site: CratesIO, fetchDetail: Json -> Result<Detail>, iso: IsoParser) returns (outcome: Outcome)
      requires site.Valid()
      modifies this, site
      ensures site.Valid()
      ensures Fullized(site.categories, site.keywords, data, outcome)
           == Taxonomy.Fullize(old(site.categories), old(site.keywords), old(data), fetchDetail(old(data.name)), iso)
    {
      var extra := fetchDetail(data.name);
      if extra.Err? {
        return Raised(UnboundLocalError);
      }
      var det := extra.value;
      var categoryIds: Option<seq<Json>> := None;
      if det.categories.Some? {
        outcome := site.Register(Category, det.categories.value, iso);
        if outcome.Raised? {
          return;
        }
        categoryIds := Some(Ids(det.categories.value));
      }
      var keywordIds: Option<seq<Json>> := None;
      if det.keywords.Some? {
        outcome := site.Register(Keyword, det.keywords.value, iso);
        if outcome.Raised? {
          return;
        }
        keywordIds := Some(Ids(det.keywords.value));
      }
      data := data.(enrichment := Some(Enrichment(categoryIds, keywordIds)));
      return Done;
    }
  }
}
