/**
 * The record normaliser of lib/crates_io.py: `Crate.__init__` renames the
 * fields of one raw catalog item into the harvester's own schema, and
 * `Crate._timestamp` turns an ISO-8601 string into seconds since the epoch.
 */
module Normalizer {
  import opened Wrappers
  import opened Json

  /**
   * `datetime.fromisoformat(s).timestamp()` seen as an oracle: `Some` seconds,
   * or `None` where it raises `ValueError`.
   */
  type IsoParser = string -> Option<real>

  /** `fromisoformat` rejects the empty string (the default used for a missing field). */
  ghost predicate RejectsEmpty(iso: IsoParser) {
    iso("") == None
  }

  /** The ids found in a crate's detail payload, added by `fullize`. */
  datatype Enrichment = Enrichment(categories: Option<seq<Json>>, keywords: Option<seq<Json>>)

  /**
   * A normalised crate (`Crate._data`). `None` in `enrichment` means the
   * record has no `categories`/`keywords` keys yet.
   */
  datatype Record = Record(
    badges: Json,
    created: Option<real>,
    updated: Option<real>,
    description: Json,
    documentation: Json,
    downloadsAll: Json,
    downloadsRecent: Json,
    homepage: Json,
    name: Json,
    repository: Json,
    versionMaxStable: Json,
    versionMax: Json,
    versionNewest: Json,
    enrichment: Option<Enrichment>)

  /**
   * `Crate._timestamp`: only `ValueError` is caught, so a string always gives a
   * value (`None` when unparsable), while a non-string argument (a field
   * present with value null) raises `TypeError` out of `fromisoformat`.
   */
  function Timestamp(arg: Json, iso: IsoParser): (r: Result<Option<real>>)
    ensures arg.JStr? <==> r.Ok?
    ensures arg.JStr? ==> r.value == iso(arg.s)
    ensures !arg.JStr? ==> r.error == TypeError
  {
    match arg
    case JStr(s) => Ok(iso(s))
    case _ => Err(TypeError)
  }

  /** `self._timestamp(obj.get(key, ''))`. */
  function StampField(obj: Object, key: string, iso: IsoParser): Result<Option<real>> {
    Timestamp(GetOr(obj, key, JStr("")), iso)
  }

  /** `Crate(data)`: the dict literal of `Crate.__init__`, evaluated field by field. */
  function Normalize(raw: Object, iso: IsoParser): (r: Result<Record>)
    // the constructor fails exactly when one of the timestamps is present but not a string
    ensures r.Err? <==> (("created_at" in raw && !raw["created_at"].JStr?)
                         || ("updated_at" in raw && !raw["updated_at"].JStr?))
    ensures r.Err? ==> r.error == TypeError
    ensures r.Ok? ==> NormalizedFrom(raw, iso, r.value)
  {
    var create := StampField(raw, "created_at", iso);
    if create.Err? then Err(create.error) else
    var update := StampField(raw, "updated_at", iso);
    if update.Err? then Err(update.error) else
    Ok(Record(
      badges := Get(raw, "badges"),
      created := create.value,
      updated := update.value,
      description := Get(raw, "description"),
      documentation := Get(raw, "documentation"),
      downloadsAll := Get(raw, "downloads"),
      downloadsRecent := Get(raw, "recent_downloads"),
      homepage := Get(raw, "homepage"),
      name := Get(raw, "name"),
      repository := Get(raw, "repository"),
      versionMaxStable := Get(raw, "max_stable_version"),
      versionMax := Get(raw, "max_version"),
      versionNewest := Get(raw, "newest_version"),
      enrichment := None))
  }

  /**
   * `Crate(raw)` on any JSON value: only a dict has `.get`, so anything else
   * raises `AttributeError` at the constructor's first field.
   */
  function CrateOf(raw: Json, iso: IsoParser): (r: Result<Record>)
    ensures !raw.JObj? <==> r == Err(AttributeError)
    ensures raw.JObj? ==> r == Normalize(raw.fields, iso)
  {
    match raw
    case JObj(fields) => Normalize(fields, iso)
    case _ => Err(AttributeError)
  }

  /** The value under `key`, or null when absent, stated without `Get`. */
  ghost predicate Copied(raw: Object, key: string, v: Json) {
    if key in raw then v == raw[key] else v == JNull
  }

  /**
   * The renaming table: every field of the record is the raw value under its
   * source key (null when absent), the timestamps are the oracle's reading of
   * the raw strings, and there are no taxonomy keys yet.
   */
  ghost predicate NormalizedFrom(raw: Object, iso: IsoParser, rec: Record) {
    && Copied(raw, "badges", rec.badges)
    && Copied(raw, "description", rec.description)
    && Copied(raw, "documentation", rec.documentation)
    && Copied(raw, "downloads", rec.downloadsAll)
    && Copied(raw, "recent_downloads", rec.downloadsRecent)
    && Copied(raw, "homepage", rec.homepage)
    && Copied(raw, "name", rec.name)
    && Copied(raw, "repository", rec.repository)
    && Copied(raw, "max_stable_version", rec.versionMaxStable)
    && Copied(raw, "max_version", rec.versionMax)
    && Copied(raw, "newest_version", rec.versionNewest)
    && (if "created_at" in raw then raw["created_at"].JStr? && rec.created == iso(raw["created_at"].s)
        else rec.created == iso(""))
    && (if "updated_at" in raw then raw["updated_at"].JStr? && rec.updated == iso(raw["updated_at"].s)
        else rec.updated == iso(""))
    && rec.enrichment == None
  }

  /** A crate without timestamps is normalised to null timestamps, never an error. */
  lemma MissingTimestampsAreNull(raw: Object, iso: IsoParser)
    requires RejectsEmpty(iso)
    requires "created_at" !in raw && "updated_at" !in raw
    ensures Normalize(raw, iso).Ok?
    ensures Normalize(raw, iso).value.created == None
    ensures Normalize(raw, iso).value.updated == None
  {
  }

  /** A raw item carrying only string timestamps is always normalised. */
  lemma StringTimestampsNeverRaise(raw: Object, iso: IsoParser)
    requires "created_at" in raw ==> raw["created_at"].JStr?
    requires "updated_at" in raw ==> raw["updated_at"].JStr?
    ensures Normalize(raw, iso).Ok?
  {
  }

  /** The normaliser ignores every raw field outside its renaming table. */
  lemma {:induction false} IgnoresUnknownFields(raw: Object, key: string, v: Json, iso: IsoParser)
    requires key !in {"badges", "created_at", "updated_at", "description", "documentation",
                      "downloads", "recent_downloads", "homepage", "name", "repository",
                      "max_stable_version", "max_version", "newest_version"}
    ensures Normalize(raw[key := v], iso) == Normalize(raw, iso)
  {
    var raw' := raw[key := v];
    assert Get(raw', "badges") == Get(raw, "badges");
    assert StampField(raw', "created_at", iso) == StampField(raw, "created_at", iso);
    assert StampField(raw', "updated_at", iso) == StampField(raw, "updated_at", iso);
  }
}
