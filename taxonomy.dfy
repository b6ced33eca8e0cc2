/**
 * The taxonomy registry of lib/crates_io.py: while `Crate.fullize` walks the
 * `categories` (or `keywords`) list of a crate's detail payload, each entry
 * whose id the class-level dict does not hold yet is inserted; an id already
 * present is left as first written.
 */
module Taxonomy {
  import opened Wrappers
  import opened Json
  import opened PyDict
  import opened Normalizer

  /**
   * A registry value `{'name', 'count', 'timestamp'}`; `id` is the key that
   * the analysis stage adds to a loaded entry (`None` while absent).
   */
  datatype Entry = Entry(name: Json, count: Json, timestamp: Option<real>, id: Option<string>)

  /** `CratesIO.categories` / `CratesIO.keywords`: id (`item.get('id', None)`) to entry. */
  type Registry = Dict<Json, Entry>

  /** Which of the two namespaces an item belongs to: the key holding its display name. */
  datatype Kind = Category | Keyword {
    function NameKey(): string {
      if Category? then "category" else "keyword"
    }

    /** The other namespace. */
    function Other(): Kind {
      if Category? then Keyword else Category
    }
  }

  /** The id under which an item of a detail payload is registered. */
  function IdOf(item: Object): Json {
    Get(item, "id")
  }

  /** `[c.get('id', None) for c in items]`. */
  function Ids(items: seq<Object>): (ids: seq<Json>)
    ensures |ids| == |items|
    ensures forall i :: 0 <= i < |items| ==> ids[i] == IdOf(items[i])
  {
    if items == [] then [] else Ids(items[..|items| - 1]) + [IdOf(items[|items| - 1])]
  }

  /**
   * The dict literal built for a first-seen id. Only `_timestamp` can raise,
   * and only when `created_at` is present but not a string.
   */
  function MakeEntry(kind: Kind, item: Object, iso: IsoParser): (r: Result<Entry>)
    ensures r.Ok? <==> ("created_at" !in item || item["created_at"].JStr?)
    ensures r.Err? ==> r.error == TypeError
    ensures r.Ok? ==> Copied(item, kind.NameKey(), r.value.name) && Copied(item, "crates_cnt", r.value.count)
    ensures r.Ok? ==> r.value.timestamp == iso(if "created_at" in item then item["created_at"].s else "")
    ensures r.Ok? ==> r.value.id == None
  {
    var stamp := StampField(item, "created_at", iso);
    if stamp.Err? then Err(stamp.error)
    else Ok(Entry(Get(item, kind.NameKey()), Get(item, "crates_cnt"), stamp.value, None))
  }

  /**
   * One iteration of the loop: `if key not in registry: registry[key] = {...}`.
   * The membership test hashes the id, so a list or object id raises `TypeError`.
   */
  function ObserveOne(kind: Kind, reg: Registry, item: Object, iso: IsoParser): (r: (Registry, Outcome))
    requires reg.Valid()
    ensures r.0.Valid() && Keeps(reg, r.0) && reg.order <= r.0.order
    ensures forall k :: k in r.0.items ==> k in reg.items || k == IdOf(item)
    ensures !Hashable(IdOf(item)) ==> r == (reg, Raised(TypeError))
    ensures r.1 == Done ==> Hashable(IdOf(item)) && IdOf(item) in r.0.items
    ensures r.1.Raised? ==> r.0 == reg
  {
    var key := IdOf(item);
    if !Hashable(key) then (reg, Raised(TypeError))
    else if key in reg.items then (reg, Done)
    else match MakeEntry(kind, item, iso)
      case Ok(e) => (Set(reg, key, e), Done)
      case Err(err) => (reg, Raised(err))
  }

  /**
   * The whole loop over `items`: the registry it leaves and whether an
   * exception escaped (the loop stops at the item that raised). First write
   * wins: nothing already in the registry is removed, overwritten or moved.
   */
  function Observe(kind: Kind, reg: Registry, items: seq<Object>, iso: IsoParser): (r: (Registry, Outcome))
    requires reg.Valid()
    ensures r.0.Valid() && Keeps(reg, r.0) && reg.order <= r.0.order
  {
    if items == [] then (reg, Done)
    else
      var prev := Observe(kind, reg, items[..|items| - 1], iso);
      if prev.1.Raised? then prev
      else ObserveOne(kind, prev.0, items[|items| - 1], iso)
  }

  /** One more item extends a walk that has not raised by one observation. */
  lemma ObserveSnoc(kind: Kind, reg: Registry, items: seq<Object>, iso: IsoParser, i: nat)
    requires reg.Valid() && i < |items| && Observe(kind, reg, items[..i], iso).1 == Done
    ensures Observe(kind, reg, items[..i + 1], iso) == ObserveOne(kind, Observe(kind, reg, items[..i], iso).0, items[i], iso)
  {
    assert items[..i + 1][..i] == items[..i];
  }

  /** An item that raised ends the walk: what it raised is what the walk raises. */
  lemma {:induction false} ObserveRaisedPersists(kind: Kind, reg: Registry, items: seq<Object>, iso: IsoParser, i: nat)
    requires reg.Valid() && i <= |items| && Observe(kind, reg, items[..i], iso).1.Raised?
    ensures Observe(kind, reg, items, iso) == Observe(kind, reg, items[..i], iso)
    decreases |items| - i
  {
    if i < |items| {
      assert items[..i + 1][..i] == items[..i];
      ObserveRaisedPersists(kind, reg, items, iso, i + 1);
    } else {
      assert items[..i] == items;
    }
  }

  /** The id list of all items is that of all but the last, then the last one's id. */
  lemma IdsSnoc(items: seq<Object>)
    requires items != []
    ensures Ids(items) == Ids(items[..|items| - 1]) + [IdOf(items[|items| - 1])]
  {
  }

  /** The only keys added are ids of the observed items. */
  lemma {:induction false} ObserveAddsOnlyItemIds(kind: Kind, reg: Registry, items: seq<Object>, iso: IsoParser)
    requires reg.Valid()
    ensures forall k :: k in Observe(kind, reg, items, iso).0.items ==> k in reg.items || k in Ids(items)
  {
    if items != [] {
      ObserveAddsOnlyItemIds(kind, reg, items[..|items| - 1], iso);
      IdsSnoc(items);
    }
  }

  /** The last step of the walk keeps the earlier ids and adds the last one. */
  lemma RegistersStep(items: seq<Object>, init: seq<Object>, before: Registry, after: Registry)
    requires items != [] && init == items[..|items| - 1]
    requires forall i :: 0 <= i < |init| ==> Hashable(IdOf(init[i])) && IdOf(init[i]) in before.items
    requires forall k :: k in before.items ==> k in after.items
    requires Hashable(IdOf(items[|items| - 1])) && IdOf(items[|items| - 1]) in after.items
    ensures forall i :: 0 <= i < |items| ==> Hashable(IdOf(items[i])) && IdOf(items[i]) in after.items
  {
    forall i | 0 <= i < |items| ensures Hashable(IdOf(items[i])) && IdOf(items[i]) in after.items {
      if i < |items| - 1 {
        assert init[i] == items[i];
      }
    }
  }

  /** When the loop completes, every id it walked over is hashable and a key of the registry. */
  lemma {:induction false} ObserveRegistersEveryId(kind: Kind, reg: Registry, items: seq<Object>, iso: IsoParser)
    requires reg.Valid()
    requires Observe(kind, reg, items, iso).1 == Done
    ensures forall i :: 0 <= i < |items| ==>
              Hashable(IdOf(items[i])) && IdOf(items[i]) in Observe(kind, reg, items, iso).0.items
  {
    if items != [] {
      var init, last := items[..|items| - 1], items[|items| - 1];
      var prev := Observe(kind, reg, init, iso);
      assert prev.1 == Done;
      ObserveRegistersEveryId(kind, reg, init, iso);
      var post := ObserveOne(kind, prev.0, last, iso);
      assert post == Observe(kind, reg, items, iso);
      RegistersStep(items, init, prev.0, post.0);
    }
  }

  /**
   * Re-observing an id already present, with whatever metadata, is a no-op.
   * (A key of a Python dict is hashable, so the id in the registry is too.)
   */
  lemma KnownIdIsNoop(kind: Kind, reg: Registry, item: Object, iso: IsoParser)
    requires reg.Valid() && Hashable(IdOf(item)) && IdOf(item) in reg.items
    ensures ObserveOne(kind, reg, item, iso) == (reg, Done)
  {
  }

  /** Walking the same items again after a completed walk changes nothing. */
  lemma {:induction false} ObserveIdempotent(kind: Kind, reg: Registry, items: seq<Object>, iso: IsoParser)
    requires reg.Valid()
    requires Observe(kind, reg, items, iso).1 == Done
    ensures Observe(kind, Observe(kind, reg, items, iso).0, items, iso) == (Observe(kind, reg, items, iso).0, Done)
  {
    var r := Observe(kind, reg, items, iso).0;
    ObserveRegistersEveryId(kind, reg, items, iso);
    AllKnownIsNoop(kind, r, items, iso);
  }

  /** A walk over items whose ids are all registered leaves the registry as it is. */
  lemma {:induction false} AllKnownIsNoop(kind: Kind, reg: Registry, items: seq<Object>, iso: IsoParser)
    requires reg.Valid()
    requires forall i :: 0 <= i < |items| ==> Hashable(IdOf(items[i])) && IdOf(items[i]) in reg.items
    ensures Observe(kind, reg, items, iso) == (reg, Done)
  {
    if items != [] {
      AllKnownIsNoop(kind, reg, items[..|items| - 1], iso);
    }
  }

  /**
   * The entry stored for a new id is built from the FIRST item carrying that id:
   * later items with the same id, whatever their metadata, do not replace it.
   */
  lemma {:induction false} FirstSightingWins(kind: Kind, reg: Registry, items: seq<Object>, iso: IsoParser, i: nat)
    requires reg.Valid()
    requires Observe(kind, reg, items, iso).1 == Done
    requires i < |items| && IdOf(items[i]) !in reg.items
    requires forall j :: 0 <= j < i ==> IdOf(items[j]) != IdOf(items[i])
    ensures MakeEntry(kind, items[i], iso).Ok?
    ensures IdOf(items[i]) in Observe(kind, reg, items, iso).0.items
    ensures Observe(kind, reg, items, iso).0.items[IdOf(items[i])] == MakeEntry(kind, items[i], iso).value
  {
    var init, last := items[..|items| - 1], items[|items| - 1];
    var prev := Observe(kind, reg, init, iso);
    assert prev.1 == Done;
    var post := ObserveOne(kind, prev.0, last, iso);
    assert post == Observe(kind, reg, items, iso);
    if i == |items| - 1 {
      ObserveAddsOnlyItemIds(kind, reg, init, iso);
      NotAnEarlierId(items, init);
      NewIdEntry(kind, prev.0, last, iso);
    } else {
      assert items[i] == init[i];
      assert forall j :: 0 <= j < i ==> init[j] == items[j];
      FirstSightingWins(kind, reg, init, iso, i);
    }
  }

  /** An id that no earlier item carries is not among the earlier items' ids. */
  lemma NotAnEarlierId(items: seq<Object>, init: seq<Object>)
    requires items != [] && init == items[..|items| - 1]
    requires forall j :: 0 <= j < |items| - 1 ==> IdOf(items[j]) != IdOf(items[|items| - 1])
    ensures IdOf(items[|items| - 1]) !in Ids(init)
  {
    forall j | 0 <= j < |init| ensures Ids(init)[j] != IdOf(items[|items| - 1]) {
      assert init[j] == items[j];
    }
  }

  /** An iteration that completes on a new id stores the entry built from that item. */
  lemma NewIdEntry(kind: Kind, reg: Registry, item: Object, iso: IsoParser)
    requires reg.Valid() && IdOf(item) !in reg.items && ObserveOne(kind, reg, item, iso).1 == Done
    ensures MakeEntry(kind, item, iso).Ok?
    ensures ObserveOne(kind, reg, item, iso).0.items[IdOf(item)] == MakeEntry(kind, item, iso).value
  {
  }

  // ---- Crate.fullize ----

  /**
   * A crate's detail payload, reduced to what `fullize` reads:
   * `extra.get('categories', None)` and `extra.get('keywords', None)`.
   */
  datatype Detail = Detail(categories: Option<seq<Object>>, keywords: Option<seq<Object>>)

  /** One namespace's half of `fullize`: walk the sub-list if there is one. */
  function ObserveList(kind: Kind, reg: Registry, list: Option<seq<Object>>, iso: IsoParser): (r: (Registry, Outcome))
    requires reg.Valid()
    ensures r.0.Valid()
  {
    if list.None? then (reg, Done) else Observe(kind, reg, list.value, iso)
  }

  /** The ids recorded on the crate: the list of ids, or `None` when the sub-list is missing. */
  function IdList(list: Option<seq<Object>>): Option<seq<Json>> {
    if list.None? then None else Some(Ids(list.value))
  }

  /** The state `fullize` leaves: category registry, keyword registry, the crate's record. */
  datatype Fullized = Fullized(categories: Registry, keywords: Registry, data: Record, outcome: Outcome)

  /**
   * `Crate.fullize` on the given detail fetch result. A failed fetch leaves
   * `extra` unbound, so the next line raises `UnboundLocalError` and nothing
   * changes; otherwise categories are walked, then keywords, then the record
   * gains both id lists, unless a walk raised first.
   */
  function Fullize(cats: Registry, kws: Registry, data: Record, extra: Result<Detail>, iso: IsoParser): (r: Fullized)
    requires cats.Valid() && kws.Valid()
    ensures r.categories.Valid() && r.keywords.Valid()
    // registries only grow: every id present before keeps its entry, whatever the outcome
    ensures Keeps(cats, r.categories) && Keeps(kws, r.keywords)
    ensures r.outcome.Raised? ==> r.data == data
    ensures r.outcome == Done ==> extra.Ok? && r.data.enrichment.Some?
  {
    match extra
    case Err(_) => Fullized(cats, kws, data, Raised(UnboundLocalError))
    case Ok(det) =>
      var c := ObserveList(Category, cats, det.categories, iso);
      if c.1.Raised? then Fullized(c.0, kws, data, c.1)
      else
        var k := ObserveList(Keyword, kws, det.keywords, iso);
        if k.1.Raised? then Fullized(c.0, k.0, data, k.1)
        else Fullized(c.0, k.0, data.(enrichment := Some(Enrichment(IdList(det.categories), IdList(det.keywords)))), Done)
  }

  /** A failed detail fetch raises and changes nothing: the ids never silently become null. */
  lemma FullizeFetchFailure(cats: Registry, kws: Registry, data: Record, e: Error, iso: IsoParser)
    requires cats.Valid() && kws.Valid()
    ensures Fullize(cats, kws, data, Err(e), iso) == Fullized(cats, kws, data, Raised(UnboundLocalError))
  {
  }

  /**
   * Separate namespaces: the category registry is what the category walk
   * alone makes of it, and the keyword registry is untouched or what the
   * keyword walk alone makes of it; neither depends on the other's list.
   */
  lemma FullizeNamespaces(cats: Registry, kws: Registry, data: Record, det: Detail, iso: IsoParser)
    requires cats.Valid() && kws.Valid()
    ensures Fullize(cats, kws, data, Ok(det), iso).categories == ObserveList(Category, cats, det.categories, iso).0
    ensures Fullize(cats, kws, data, Ok(det), iso).keywords == kws
            || Fullize(cats, kws, data, Ok(det), iso).keywords == ObserveList(Keyword, kws, det.keywords, iso).0
    ensures ObserveList(Category, cats, det.categories, iso).1 == Done ==>
              Fullize(cats, kws, data, Ok(det), iso).keywords == ObserveList(Keyword, kws, det.keywords, iso).0
  {
  }

  /**
   * Only the two taxonomy keys of the record change, and only on success: the
   * record then holds the ids of each sub-list in payload order (`None` for a
   * missing sub-list), and every one of them is a key of its registry.
   */
  lemma {:induction false} FullizeSuccess(cats: Registry, kws: Registry, data: Record, det: Detail, iso: IsoParser)
    requires cats.Valid() && kws.Valid()
    ensures var r := Fullize(cats, kws, data, Ok(det), iso);
      r.data == data || r.data == data.(enrichment := r.data.enrichment)
    ensures var r := Fullize(cats, kws, data, Ok(det), iso);
      r.outcome == Done ==>
        && r.data == data.(enrichment := Some(Enrichment(IdList(det.categories), IdList(det.keywords))))
        && (det.categories.None? <==> r.data.enrichment.value.categories.None?)
        && (det.keywords.None? <==> r.data.enrichment.value.keywords.None?)
        && (det.categories.Some? ==>
              (&& |r.data.enrichment.value.categories.value| == |det.categories.value|
               && forall i :: 0 <= i < |det.categories.value| ==>
                    (&& r.data.enrichment.value.categories.value[i] == IdOf(det.categories.value[i])
                     && IdOf(det.categories.value[i]) in r.categories.items)))
        && (det.keywords.Some? ==>
              (&& |r.data.enrichment.value.keywords.value| == |det.keywords.value|
               && forall i :: 0 <= i < |det.keywords.value| ==>
                    (&& r.data.enrichment.value.keywords.value[i] == IdOf(det.keywords.value[i])
                     && IdOf(det.keywords.value[i]) in r.keywords.items)))
    ensures var r := Fullize(cats, kws, data, Ok(det), iso);
      r.outcome.Raised? ==> r.data == data
  {
    var r := Fullize(cats, kws, data, Ok(det), iso);
    if r.outcome == Done {
      if det.categories.Some? { ObserveRegistersEveryId(Category, cats, det.categories.value, iso); }
      if det.keywords.Some? { ObserveRegistersEveryId(Keyword, kws, det.keywords.value, iso); }
    }
  }

  /** Every id of `before` is in `after` with the same entry. */
  ghost predicate Keeps(before: Registry, after: Registry) {
    forall k :: k in before.items ==> k in after.items && after.items[k] == before.items[k]
  }
}
