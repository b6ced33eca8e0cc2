# crates.io harvester — a Dafny model

This project models the core of a harvester for the crates.io package
catalog, and the analysis stage that ranks what it harvested:

- **lib/crates_io.py**: normalising a raw catalog item into a crate record
  (`Crate.__init__`, `_timestamp`); the page loop (`CratesIO.crates`,
  `crates_by_page`); enriching a crate with its category and keyword ids
  while filling the shared first-write-wins taxonomy registries
  (`Crate.fullize`); and writing a registry as text (`categories_to_str`,
  `keywords_to_str`).
- **data/__init__.py**: reading the written files back line by line
  (`_load_txt_1`, `_load_txt_2`).
- **data/__main__.py**: the top-N ranking `Analysis._max` (a stable
  descending sort and a `[:n]` slice), the six per-instance memoised
  leaderboards, and the `Category`/`Keyword` wrappers, which write `id` into
  the shared entry.

Modules, leaves first:

| module | file | what it holds |
|---|---|---|
| `Wrappers` | wrappers.dfy | `Option`, `Result`, `Outcome` and the Python exceptions that matter |
| `Json` | json.dfy | JSON values, `dict.get` |
| `PyDict` | pydict.dfy | an insertion-ordered Python dict (`order` plus `items`) |
| `Normalizer` | normalizer.dfy | `Crate.__init__` and `_timestamp` |
| `Taxonomy` | taxonomy.dfy | the registry insertion loop of `fullize` and `fullize` as a function |
| `Serializer` | serializer.dfy | `sorted` on strings, `'\n'.join`, `categories_to_str` |
| `Loaders` | loaders.dfy | universal-newline reading, `_load_txt_1`, `_load_txt_2` |
| `RoundTrip` | roundtrip.dfy | reading back what `categories_to_str` wrote |
| `Harvest` | harvest.dfy | the page loop as a trace of requests, yields and sleeps |
| `CratesIO` | crates_io.dfy | the classes `CratesIO` and `Crate`, with fields updated in place |
| `Ranking` | ranking.dfy | `_max` |
| `Analysis` | analysis.dfy | the loaded maps (`Data`), the leaderboards and their memo (`Analysis`) |

Outside effects are parameters:
- The list-page request `_crates(page, per_page, sort)` is a function `Fetcher` from the request to a page or an error, so the same request always gets the same answer. The detail request of `fullize` is a function from the crate name to a detail payload or an error.
- `datetime.fromisoformat(s).timestamp()` is a function `IsoParser` from a string to an optional number. It is assumed to reject `''`; a `ValueError` from it is its `None`.
- `jsonify` / `json.loads` are a pair of functions on values. The round trip assumes they invert each other and that an encoding holds no line break.
- The stderr logging of a failed page and `time.sleep(delay)` appear as `Failed` and `Sleep` events in the trace that `crates` produces.

In three places the code does something other than what it seems meant to do; the model follows the code:
- **Normalisation can fail.** A raw item whose `created_at` or `updated_at` is present but not a string (JSON `null`, say) makes `fromisoformat` raise `TypeError`. Only `ValueError` is caught (lib/crates_io.py:150-154), so normalisation is not total.
- **A failed detail fetch raises.** In `fullize`, the bare `except` only logs (lib/crates_io.py:112-115). The next line then reads the unbound `extra` and raises `UnboundLocalError`. The crate and both registries stay as they were; the ids are not set to null.
- **Memoisation is per method.** The leaderboards are memoised per `Analysis` instance and per method (`lru_cache` on a method without arguments), not per projection and size. A cached list is returned even if the loaded maps changed since.

## Model

| member | source | states |
|---|---|---|
| Normalizer.Timestamp | lib/crates_io.py:150-154 | a string argument never raises and gives the parser's value (`None` when unparsable); any other argument raises `TypeError` |
| Normalizer.Normalize | lib/crates_io.py:81-102 | fails, with `TypeError`, exactly when `created_at` or `updated_at` is present and not a string; otherwise every field is the raw value under its source key (`None` when absent), timestamps come from the parser, and no taxonomy ids are set |
| Normalizer.CrateOf | lib/crates_io.py:58 | `Crate(item)` raises `AttributeError` for an item that is not an object, and otherwise normalises it |
| Normalizer.MissingTimestampsAreNull | lib/crates_io.py:85-86 | an item without `created_at`/`updated_at` normalises, with both timestamps `None` |
| Normalizer.StringTimestampsNeverRaise | lib/crates_io.py:85-86 | when both timestamps are absent or strings, normalisation succeeds |
| Normalizer.IgnoresUnknownFields | lib/crates_io.py:82-102 | adding or changing a key the renaming table does not read leaves the result unchanged |
| Taxonomy.Ids | lib/crates_io.py:127 | the id list has one entry per item, in order, each `item.get('id')` |
| Taxonomy.MakeEntry | lib/crates_io.py:122-126 | succeeds exactly when `created_at` is absent or a string, and otherwise raises `TypeError`; the entry's name and count are the item's `category` (or `keyword`) and `crates_cnt`, null when absent; its timestamp is the parser's value of `created_at`, or of `''` when it is absent; it carries no id |
| Taxonomy.ObserveRaisedPersists | lib/crates_io.py:119-126 | once an item raises, the rest of the loop is skipped and the loop raises that error |
| Taxonomy.Observe | lib/crates_io.py:119-126 | first write wins: after the loop every id already in the registry keeps its entry, and the old iteration order is a prefix of the new one |
| Taxonomy.ObserveAddsOnlyItemIds | lib/crates_io.py:120-122 | every id after the loop was there before or is the id of one of the items |
| Taxonomy.ObserveOne | lib/crates_io.py:120-126 | one iteration keeps every entry and the iteration order, and adds no key but the item's id; a list or object id raises `TypeError` from the membership test; on success the id is present, and on an error the registry is unchanged |
| Taxonomy.ObserveRegistersEveryId | lib/crates_io.py:119-126 | after a loop that completes, every item's id is hashable and a key of the registry |
| Taxonomy.KnownIdIsNoop | lib/crates_io.py:121 | observing an item whose id is already a key changes nothing, even with different metadata |
| Taxonomy.ObserveIdempotent | lib/crates_io.py:119-126 | running the loop again over the same items changes nothing |
| Taxonomy.AllKnownIsNoop | lib/crates_io.py:119-126 | a loop whose ids are all present changes nothing |
| Taxonomy.FirstSightingWins | lib/crates_io.py:121-126 | a new id holds the entry built from its first occurrence in the items |
| Taxonomy.FullizeFetchFailure | lib/crates_io.py:111-117 | a failed detail fetch raises `UnboundLocalError` and leaves the crate and both registries unchanged |
| Taxonomy.FullizeNamespaces | lib/crates_io.py:117-143 | the category loop touches only the category registry, and the keyword loop only the keyword registry |
| Taxonomy.FullizeSuccess | lib/crates_io.py:117-144 | only the crate's `categories`/`keywords` change; on success each is `None` iff the payload lacks that list, otherwise the payload's ids in order, each a key of its registry |
| Taxonomy.Fullize | lib/crates_io.py:111-144 | both registries only grow: every id present before keeps its entry, whatever the outcome; an error leaves the crate's record as it was; success needs a fetched payload and sets the record's taxonomy ids |
| Serializer.Sort | lib/crates_io.py:64 | `sorted` of distinct ids is strictly ascending under Python's string order and a permutation of its input |
| Serializer.Join | lib/crates_io.py:62-65 | `sep.join` of no parts is `''`; otherwise the text starts with the first part and ends with the last |
| Serializer.ToStr | lib/crates_io.py:60-65 | an empty registry writes `''`; otherwise the text opens with the least id and a tab |
| Serializer.LinesLayout | lib/crates_io.py:60-72 | one line per registry id, in ascending id order, each the id, a tab and the encoding of its entry |
| Loaders.Universal | data/__init__.py:12 | the text read has no `'\r'` and is no longer than the file; a file without `'\r'` reads unchanged |
| Loaders.UniversalIsReplace | data/__init__.py:12 | universal-newline reading is `replace('\r\n', '\n')` followed by `replace('\r', '\n')` |
| Loaders.FileLines | data/__init__.py:13 | iterating a file gives non-empty lines that make up its text; each line's only `'\n'` is its last character, and every line but the last has one |
| Loaders.SplitTab | data/__init__.py:14 | `line.split('\t', maxsplit=1)` into two names fails with `ValueError` iff the line has no tab; the key has no tab, and key, tab and rest make up the line |
| Loaders.Load1 | data/__init__.py:10-16 | a successful load is a dict with at most one key per line, and no key holds a tab |
| Loaders.Load1ErrPersists | data/__init__.py:13-15 | a line that raises ends the load with that error |
| Loaders.Named | data/__init__.py:22-23 | a decoding error passes through; a record that is not an object raises `TypeError`, one without `name` raises `KeyError`, and a list or object name raises `TypeError` when used as a key; otherwise the key is the record's `name` |
| Loaders.Load2 | data/__init__.py:18-24 | a successful load is a dict with at most one key per line, every key hashable |
| Loaders.Load2ErrPersists | data/__init__.py:21-23 | a line that raises ends the load with that error |
| Loaders.Load1LineKeysPresent | data/__init__.py:13-15 | after a load, every line's key is a key of the dict |
| Loaders.Load1KeysFromLines | data/__init__.py:13-15 | every key of the loaded dict is the key of some line |
| Loaders.Load1LastWins | data/__init__.py:15 | a key holds the decoded value of the last line carrying it |
| Loaders.Load2Facts | data/__init__.py:21-23 | keys are exactly the names of the records, and each name holds the last record carrying it |
| Loaders.LoadTxt1 | data/__init__.py:10-16 | the loop builds what the line-by-line definition of the load gives, or raises what it raises |
| Loaders.LoadTxt2 | data/__init__.py:18-24 | the loop builds what the line-by-line definition of the load gives, or raises what it raises: a decoding error, or `KeyError`/`TypeError` from `value['name']` |
| RoundTrip.FileLinesOfJoin | data/__init__.py:13 | reading `'\n'`-joined non-empty lines gives those lines back, each but the last with its `'\n'` |
| RoundTrip.LoadDistinctOrder | data/__init__.py:13-15 | loading lines with distinct keys lists the keys in line order |
| RoundTrip.ReadBack | data/__init__.py:10-16 | loading the text written for a registry succeeds, lists the ids in ascending order and pairs each id with the decoding of its written entry |
| RoundTrip.RoundTrip | lib/crates_io.py:60-65 | for string ids with no tab or line break, loading the text `categories_to_str` writes gives the same id-to-entry map, ids in ascending order |
| Harvest.CeilDivIsCeiling | lib/crates_io.py:46 | the page count is the least integer at or above `total / per_page` |
| Harvest.Total | lib/crates_io.py:42-46 | `first_page['meta']['total']` as the dividend: a page or a `meta` that is not an object raises `TypeError`, a missing `meta` or `total` raises `KeyError`; when the path exists the result is the number under it (a boolean counting as 0 or 1), and any other total raises `TypeError` |
| Harvest.PageCount | lib/crates_io.py:46 | `per_page == 0` raises `ZeroDivisionError`; otherwise the loop runs `ceil(total / per_page)` pages, or none when that is not positive |
| Harvest.PageItems | lib/crates_io.py:58 | `data['crates']` raises `KeyError` exactly when the answer is an object without `crates`, and `TypeError` when it is not an object; a list under `crates` gives its items |
| Harvest.YieldAll | lib/crates_io.py:58 | a page that completes yields one crate per item; one that raises stops before its last item |
| Harvest.YieldAllRaisedPersists | lib/crates_io.py:58 | an item that fails to normalise ends the page, and the page raises its error |
| Harvest.PagesRaisedPersists | lib/crates_io.py:47-49 | an error escaping a page ends the whole generator with that error |
| Harvest.YieldAllFacts | lib/crates_io.py:58 | a page's items are normalised and yielded in order, with no request and no sleep between them |
| Harvest.ByPage | lib/crates_io.py:51-58 | the page's trace opens with its own request; a failed fetch never raises, and a raise needs a successful fetch |
| Harvest.ByPageFacts | lib/crates_io.py:51-58 | a page asks exactly its own page number and never sleeps; a failed request is logged as that page's failure, yields nothing and is not raised; an answer without readable `crates` raises right after the request; a completed page yields its items normalised, in order |
| Harvest.Pages | lib/crates_io.py:47-49 | a completed walk of at least one page ends with a sleep |
| Harvest.PagesFacts | lib/crates_io.py:47-49 | the loop asks pages 1, 2, … in order; when it completes it asked exactly `k` pages, slept `k` times, logged a failure for exactly the pages whose fetch failed and yielded every page's records in order |
| Harvest.Run | lib/crates_io.py:41-49 | the size query for page 1 comes first; a size that cannot be read raises right after it, with nothing else in the trace |
| Harvest.RunFacts | lib/crates_io.py:41-49 | a completed run read the size, asked pages 1..n for n = ceil(total / per_page), slept n times, logged exactly the failed pages and yielded their records in order |
| Harvest.EmptyCatalog | lib/crates_io.py:46 | an empty catalog asks only for its size |
| Harvest.ThreePagesFor101 | lib/crates_io.py:46 | 101 crates at 50 per page take pages 1, 2 and 3 |
| CratesIO.CratesIO.constructor | lib/crates_io.py:32-33 | both registries start empty |
| CratesIO.CratesIO.CategoriesToStr | lib/crates_io.py:60-65 | the category file text is empty for an empty registry and otherwise opens with the least id and a tab |
| CratesIO.CratesIO.KeywordsToStr | lib/crates_io.py:67-72 | the same for the keyword registry |
| CratesIO.CratesIO.RegisterOne | lib/crates_io.py:120-126 | one in-place step leaves its registry as one observation gives it, raising `TypeError` for an unhashable id, and leaves the other namespace untouched |
| CratesIO.CratesIO.Register | lib/crates_io.py:119-126 | the in-place loop leaves its registry as the registration function gives it and the other namespace untouched |
| CratesIO.CratesIO.CratesByPage | lib/crates_io.py:51-58 | the in-place page walk produces the page's trace |
| CratesIO.CratesIO.Crates | lib/crates_io.py:45-49 | the in-place page loop produces the whole generator's trace |
| CratesIO.Crate.Fullize | lib/crates_io.py:111-145 | the new registries, record and outcome are those of `fullize` applied to the old ones and the detail payload for the crate's name |
| Ranking.SortDesc | data/__main__.py:78 | the sort keeps the input's length |
| Ranking.SortDescMultiset | data/__main__.py:78 | `sorted` is a permutation |
| Ranking.SortDescDescending | data/__main__.py:78 | `sorted(..., reverse=True)` gives non-increasing keys |
| Ranking.SortDescStable | data/__main__.py:78 | the elements sharing any key keep their input order |
| Ranking.SortDescDistinct | data/__main__.py:78 | the sort of distinct elements is distinct |
| Ranking.SliceLen | data/__main__.py:78 | `[:n]` keeps `min(n, len)` elements for `n >= 0` and drops the last `-n` for negative `n` |
| Ranking.Slice | data/__main__.py:78 | `s[:n]` is the prefix of `s` of that length |
| Ranking.Max | data/__main__.py:76-78 | raises `TypeError` iff there are two or more elements and one has no numeric key; otherwise keeps the slice's length |
| Ranking.MaxDrawsFromData | data/__main__.py:78 | the result draws only from the input and repeats nothing the input does not repeat |
| Ranking.MaxOrdered | data/__main__.py:78 | the keys of the result do not increase, and are numbers once two elements are compared |
| Ranking.MaxStable | data/__main__.py:78 | among elements with equal keys, the result holds the first ones in input order |
| Ranking.MaxCutoff | data/__main__.py:78 | every element left out has a key no greater than the last one kept |
| Ranking.MaxCongruent | data/__main__.py:76-78 | `_max` depends on nothing but the keys of the input's elements |
| Analysis.Ranked | data/__main__.py:44 | ranking a dict raises `TypeError` exactly when it has two or more names and one has no numeric key; otherwise it returns the slice's number of names, each a key |
| Analysis.RankedTiesInInsertionOrder | data/__main__.py:44 | the dict is ranked in insertion order: among names whose keys tie, the leaders are the first ones inserted |
| Analysis.CrateBoard | data/__main__.py:41-59 | a crate leaderboard fails only with `TypeError`; otherwise it holds at most one record per crate, each a record stored in the map |
| Analysis.CrateBoardFails | data/__main__.py:41-59 | a crate leaderboard raises `TypeError` exactly when there are two or more crates and at least one lacks the ranked field |
| Analysis.CrateBoardLeaders | data/__main__.py:41-59 | otherwise it lists `min(n, |crates|)` distinct names, each wrapped with the record stored under it |
| Analysis.CrateBoardOrdered | data/__main__.py:43-58 | the wrapped records come by non-increasing key |
| Analysis.TaxonomyBoardFails | data/__main__.py:61-69 | a keyword or category leaderboard raises `TypeError`, changing nothing, exactly when there are two or more entries and at least one has no numeric count |
| Analysis.TaxonomyBoardLeaders | data/__main__.py:61-69 | otherwise it lists as many distinct names as the slice `[:n]` of all names holds, each wrapped around the entry stored under it with `id` set to the name |
| Analysis.TaxonomyBoardOrdered | data/__main__.py:61-69 | the wrapped entries come by non-increasing count |
| Analysis.WithIds | data/__main__.py:9-12 | wrapping sets `id = name` on exactly the wrapped entries, changes no other field, and keeps the map's keys and order |
| Analysis.Wrapped | data/__main__.py:23-26 | each wrapper's data is the named entry with `id` set to its name |
| Analysis.TaxonomyBoard | data/__main__.py:61-69 | the map keeps its keys and order; an error changes nothing and is `TypeError`; each leader comes back tagged with its own name, a key of the map, and is the entry now stored under that name |
| Analysis.TaxonomyBoardShares | data/__main__.py:61-69 | the wrapped entries are the very entries left in the map, and tagging them does not change a later ranking |
| Analysis.WrapEntries | data/__main__.py:64 | the wrapping loop gives the wrapped entries and the tagged map |
| Analysis.Analysis.constructor | data/__main__.py:38-39 | the size is recorded and nothing is memoised |
| Analysis.Analysis.NewCrates | data/__main__.py:41-44 | a first call ranks by creation time and memoises a success; a later call returns the memo without reading the data |
| Analysis.Analysis.MostDownloaded | data/__main__.py:46-49 | same, by all-time downloads |
| Analysis.Analysis.JustUpdated | data/__main__.py:51-54 | same, by update time |
| Analysis.Analysis.MostRecentDownloads | data/__main__.py:56-59 | same, by recent downloads |
| Analysis.Analysis.PopularKeywords | data/__main__.py:61-64 | a first call ranks keywords by count, tags the leaders' shared entries and memoises; a later call returns the memo and touches nothing |
| Analysis.Analysis.PopularCategories | data/__main__.py:66-69 | the same for categories |

## Left out

- `get` with its `retrying` policy of 7 attempts 7 s apart, and `httpx`: network I/O. A request is a function from its parameters to a payload or an error, so a retried request is just one that answers.
- `tqdm` progress output, the stderr traceback and the duration of `time.sleep`: output and timing. Sleeps and logged failures appear only as trace events.
- `CratesIO.number` / `__len__`: they are modelled only inside `crates`, as the size query that opens the trace.
- `Crate.__repr__`, `Crate.data`, `Crate.to_json`, and the `__repr__` of `Category`/`Keyword`: formatting only. `to_json` is the opaque encoder of the round trip.
- Harvest.PageCount: `math.ceil(total / per_page)` is computed in floating point. The model takes the exact ceiling of the real quotient, so it differs only where float rounding does (totals beyond 2^53, or non-integral totals).
- Taxonomy.Fullize: a detail payload is taken to be an object whose `categories`/`keywords`, when present, are lists of objects. Other shapes make the source raise `AttributeError` on `.get` or `TypeError` on iteration, which the model does not represent.
- Taxonomy.ObserveOne: Python hashes `true`, `1` and `1.0` to the same dict key (and `false`, `0`, `0.0`). The model keys registries by JSON value, so it keeps these apart.
- Loaders.Load2: the same holds for record names: `true`, `1` and `1.0` are one key in Python but three in the model.
- CratesIO.CratesIO.CategoriesToStr: requires every registry id to be a string. A non-string id (`None` from an item without `id`) makes the source's `sorted` raise or its f-string print `None`, which the model does not represent.
- RoundTrip.RoundTrip: assumes `jsonify`/`json.loads` invert each other and never emit a line break. It covers ids without tab or line break only.
- Ranking.Max: keys that are neither numbers nor `None` (strings, booleans) are treated like `None`. Python would order two strings, and order a boolean against a number.
- Analysis.CrateBoardLeaders: each crate wrapper is modelled by the record it holds. The wrapper's identity and the aliasing of its `_data` with the global map are not modelled.
- Analysis.WithIds: the `Category`/`Keyword` wrappers share the dict with the global map. The model copies the tagged entry into the map and into the returned list, so later mutations through one alias are not seen through the other.
- The memo cache of `lru_cache`: it is keyed per instance and per method here. Its size bound (128 entries) and its hold on the instance are not modelled.
- The registries are fields of one `CratesIO` instance passed to `Crate.Fullize`. In the source they are class attributes shared by every instance.
- Generators are modelled as finished traces, not as lazy streams. A consumer that stops early sees a prefix of the trace.
- Harvest.Run: a request is a function of `(page, per_page, sort)`, so the size query (lib/crates_io.py:42) and the page-1 request (lib/crates_io.py:53) answer alike when `crates` runs with its defaults (50 per page, `'alpha'`). A page-1 failure after a successful size query is then not represented, and `RunFacts` does not cover it.
- Analysis.CrateBoard: the loaded maps are taken to hold values of the shape `Crate.to_json` and `*_to_str` write (records with the ranked fields, entries that are dicts). A malformed file, where `crates[name]['timestamp']['create']` raises `KeyError`/`TypeError` (data/__main__.py:43-58) or `data['id'] = name` meets a non-dict (data/__main__.py:12,26), is not represented; nothing connects `Data` to the JSON values `Load1`/`Load2` produce.
- The file paths and the wall-clock `time.json` of data/__init__.py: file I/O. The loaders take the file's lines; `Universal` and `FileLines` model reading the text into lines.
- lib/git.py and lib/__main__.py are not part of this model.
- The pandas rendering of the leaderboards (data/__main__.py:81-113) is not part of this model.
