/**
 * The page loop of lib/crates_io.py. `CratesIO.crates` asks page 1 for the
 * catalog size (`number()`), then walks `ceil(total / per_page)` pages,
 * sleeping after each; `crates_by_page` turns a failed page fetch into a page
 * with no crates. What the generator does is recorded as a trace of events.
 */
module Harvest {
  import opened Wrappers
  import opened Json
  import opened Normalizer

  /**
   * `self._crates(page, per_page, sort)`: one GET (with its retries) as an
   * oracle giving the decoded JSON answer, whatever its shape.
   */
  type Fetcher = (int, int, string) -> Result<Json>

  /** What the generator does, in order. */
  datatype Event =
    | Request(page: int, perPage: int, sort: string)   // a list-page fetch
    | Failed(page: int, error: Error)                   // the fetch raised; logged to stderr
    | Yield(crate: Record)                               // a normalised crate handed to the caller
    | Sleep(seconds: real)                              // `time.sleep(delay)`

  /** Python's `math.ceil(t / p)` for `p != 0` (exact; see the README on float rounding). */
  function CeilDiv(t: real, p: int): int
    requires p != 0
  {
    -((-t / p as real).Floor)
  }

  /** `CeilDiv` is the ceiling: the least integer at or above `t / p`. */
  lemma CeilDivIsCeiling(t: real, p: int)
    requires p != 0
    ensures CeilDiv(t, p) as real >= t / p as real
    ensures (CeilDiv(t, p) - 1) as real < t / p as real
  {
    var f := (-t / p as real).Floor;
    assert f as real <= -t / p as real < f as real + 1.0;
    assert -t / p as real == -(t / p as real);
  }

  /**
   * `first_page['meta']['total']` as the left operand of `/ per_page`: the
   * subscripts raise `KeyError` on a missing key and `TypeError` on a value
   * that is not an object, and the division raises `TypeError` on a total that
   * is not a number.
   */
  function Total(answer: Json): (r: Result<real>)
    ensures !answer.JObj? ==> r == Err(TypeError)
    ensures answer.JObj? && "meta" !in answer.fields ==> r == Err(KeyError)
    ensures (answer.JObj? && "meta" in answer.fields && answer.fields["meta"].JObj?
             && "total" !in answer.fields["meta"].fields) ==> r == Err(KeyError)
    ensures (answer.JObj? && "meta" in answer.fields && !answer.fields["meta"].JObj?) ==> r == Err(TypeError)
    // a present path always gives the number under it, or `TypeError` for a non-number
    ensures (answer.JObj? && "meta" in answer.fields && answer.fields["meta"].JObj?
             && "total" in answer.fields["meta"].fields) ==> r == Quotient(answer.fields["meta"].fields["total"])
    ensures r.Ok? ==> (&& answer.JObj? && "meta" in answer.fields && answer.fields["meta"].JObj?
                       && "total" in answer.fields["meta"].fields
                       && Quotient(answer.fields["meta"].fields["total"]) == r)
  {
    match Subscript(answer, "meta")
    case Err(e) => Err(e)
    case Ok(meta) =>
      match Subscript(meta, "total")
      case Err(e) => Err(e)
      case Ok(total) => Quotient(total)
  }

  /** The number of iterations of `for page in range(math.ceil(total / per_page))`. */
  function PageCount(total: real, perPage: int): (r: Result<nat>)
    ensures perPage == 0 <==> r.Err?
    ensures r.Err? ==> r.error == ZeroDivisionError
    ensures r.Ok? && total / perPage as real <= 0.0 ==> r.value == 0
    ensures r.Ok? && total / perPage as real > 0.0 ==>
              (r.value as real >= total / perPage as real && (r.value - 1) as real < total / perPage as real)
  {
    if perPage == 0 then Err(ZeroDivisionError)
    else
      CeilDivIsCeiling(total, perPage);
      if CeilDiv(total, perPage) > 0 then Ok(CeilDiv(total, perPage)) else Ok(0)
  }

  /**
   * What `map(Crate, data['crates'])` walks: the items of a list. The subscript
   * raises `KeyError` when the answer has no `crates` and `TypeError` when the
   * answer is not an object; `None`, a number or a boolean is not iterable
   * (`TypeError`). A string or an object under `crates` iterates as strings
   * (its characters, its keys); the first of them makes `Crate` raise
   * `AttributeError` before anything is yielded, and an empty one yields
   * nothing, which is the trace modelled here.
   */
  function PageItems(answer: Json): (r: Result<seq<Json>>)
    ensures (r.Err? && r.error == KeyError) <==> answer.JObj? && "crates" !in answer.fields
    ensures !answer.JObj? ==> r == Err(TypeError)
    ensures answer.JObj? && "crates" in answer.fields && answer.fields["crates"].JArr? ==>
              r == Ok(answer.fields["crates"].items)
  {
    match Subscript(answer, "crates")
    case Err(e) => Err(e)
    case Ok(crates) =>
      match crates
      case JArr(items) => Ok(items)
      case JStr(s) => if s == [] then Ok([]) else Err(AttributeError)
      case JObj(f) => if f == map[] then Ok([]) else Err(AttributeError)
      case _ => Err(TypeError)
  }

  /** `yield from map(Crate, items)`: yield each normalised crate, stopping at one that raises. */
  function YieldAll(items: seq<Json>, iso: IsoParser): (r: (seq<Event>, Outcome))
    ensures r.1 == Done ==> |r.0| == |items|
    ensures r.1.Raised? ==> |r.0| < |items|
  {
    if items == [] then ([], Done)
    else
      var prev := YieldAll(items[..|items| - 1], iso);
      if prev.1.Raised? then prev
      else match CrateOf(items[|items| - 1], iso)
        case Ok(c) => (prev.0 + [Yield(c)], Done)
        case Err(e) => (prev.0, Raised(e))
  }

  /**
   * `crates_by_page(page, per_page, sort)`: a fetch error is logged, yields
   * nothing and is not propagated; reading `data['crates']` sits outside the
   * `try`, so its errors escape the generator.
   */
  function ByPage(fetch: Fetcher, iso: IsoParser, page: int, perPage: int, sort: string): (r: (seq<Event>, Outcome))
    ensures |r.0| >= 1 && r.0[0] == Request(page, perPage, sort)
    ensures fetch(page, perPage, sort).Err? ==> r.1 == Done
    ensures r.1.Raised? ==> fetch(page, perPage, sort).Ok?
  {
    match fetch(page, perPage, sort)
    case Err(e) => ([Request(page, perPage, sort), Failed(page, e)], Done)
    case Ok(answer) =>
      match PageItems(answer)
      case Err(e) => ([Request(page, perPage, sort)], Raised(e))
      case Ok(items) =>
        var y := YieldAll(items, iso);
        ([Request(page, perPage, sort)] + y.0, y.1)
  }

  /** The first `k` iterations of the page loop, each followed by its sleep. */
  function Pages(fetch: Fetcher, iso: IsoParser, delay: real, perPage: int, sort: string, k: nat): (r: (seq<Event>, Outcome))
    ensures r.1 == Done && k > 0 ==> |r.0| > 0 && r.0[|r.0| - 1] == Sleep(delay)
  {
    if k == 0 then ([], Done)
    else
      var prev := Pages(fetch, iso, delay, perPage, sort, k - 1);
      if prev.1.Raised? then prev
      else
        var page := ByPage(fetch, iso, k, perPage, sort);
        if page.1.Raised? then (prev.0 + page.0, page.1)
        else (prev.0 + page.0 + [Sleep(delay)], Done)
  }

  /** The whole generator `crates(delay, per_page, sort)`. */
  function Run(fetch: Fetcher, iso: IsoParser, delay: real, perPage: int, sort: string): (r: (seq<Event>, Outcome))
    ensures |r.0| > 0 && r.0[0] == Request(1, 50, "alpha")
    ensures fetch(1, 50, "alpha").Ok? && Total(fetch(1, 50, "alpha").value).Err? ==>
              r == ([Request(1, 50, "alpha")], Raised(Total(fetch(1, 50, "alpha").value).error))
  {
    var first := [Request(1, 50, "alpha")];
    match fetch(1, 50, "alpha")
    case Err(e) => (first, Raised(e))
    case Ok(answer) =>
      match Total(answer)
      case Err(e) => (first, Raised(e))
      case Ok(total) =>
        match PageCount(total, perPage)
        case Err(e) => (first, Raised(e))
        case Ok(n) =>
          var pages := Pages(fetch, iso, delay, perPage, sort, n);
          (first + pages.0, pages.1)
  }

  /** A crate that raised ends the page: what it raised is what the page raises. */
  lemma {:induction false} YieldAllRaisedPersists(items: seq<Json>, iso: IsoParser, i: nat)
    requires i <= |items| && YieldAll(items[..i], iso).1.Raised?
    ensures YieldAll(items, iso) == YieldAll(items[..i], iso)
    decreases |items| - i
  {
    if i < |items| {
      assert items[..i + 1][..i] == items[..i];
      YieldAllRaisedPersists(items, iso, i + 1);
    } else {
      assert items[..i] == items;
    }
  }

  /** An exception escaping one page ends the generator. */
  lemma {:induction false} PagesRaisedPersists(fetch: Fetcher, iso: IsoParser, delay: real, perPage: int, sort: string, n: nat, k: nat)
    requires k <= n && Pages(fetch, iso, delay, perPage, sort, k).1.Raised?
    ensures Pages(fetch, iso, delay, perPage, sort, n) == Pages(fetch, iso, delay, perPage, sort, k)
    decreases n - k
  {
    if k < n {
      PagesRaisedPersists(fetch, iso, delay, perPage, sort, n, k + 1);
    }
  }

  // ---- reading a trace ----

  /** The pages requested, in order. */
  function Requested(ev: seq<Event>): seq<int> {
    if ev == [] then []
    else Requested(ev[..|ev| - 1]) + (if ev[|ev| - 1].Request? then [ev[|ev| - 1].page] else [])
  }

  /** The pages whose failure was logged, in order. */
  function Failures(ev: seq<Event>): seq<int> {
    if ev == [] then []
    else Failures(ev[..|ev| - 1]) + (if ev[|ev| - 1].Failed? then [ev[|ev| - 1].page] else [])
  }

  /** The number of sleeps. */
  function Sleeps(ev: seq<Event>): nat {
    if ev == [] then 0 else Sleeps(ev[..|ev| - 1]) + (if ev[|ev| - 1].Sleep? then 1 else 0)
  }

  /** The crates handed to the caller, in order. */
  function Yielded(ev: seq<Event>): seq<Record> {
    if ev == [] then []
    else Yielded(ev[..|ev| - 1]) + (if ev[|ev| - 1].Yield? then [ev[|ev| - 1].crate] else [])
  }

  /** The readers distribute over concatenation. */
  lemma ReadAppend(a: seq<Event>, b: seq<Event>)
    ensures Requested(a + b) == Requested(a) + Requested(b)
    ensures Failures(a + b) == Failures(a) + Failures(b)
    ensures Sleeps(a + b) == Sleeps(a) + Sleeps(b)
    ensures Yielded(a + b) == Yielded(a) + Yielded(b)
  {
    RequestedAppend(a, b);
    FailuresAppend(a, b);
    SleepsAppend(a, b);
    YieldedAppend(a, b);
  }

  lemma {:induction false} RequestedAppend(a: seq<Event>, b: seq<Event>)
    ensures Requested(a + b) == Requested(a) + Requested(b)
  {
    if b == [] {
      assert a + b == a;
    } else {
      var b' := b[..|b| - 1];
      RequestedAppend(a, b');
      assert (a + b)[..|a + b| - 1] == a + b';
      assert (a + b)[|a + b| - 1] == b[|b| - 1];
    }
  }

  lemma {:induction false} FailuresAppend(a: seq<Event>, b: seq<Event>)
    ensures Failures(a + b) == Failures(a) + Failures(b)
  {
    if b == [] {
      assert a + b == a;
    } else {
      var b' := b[..|b| - 1];
      FailuresAppend(a, b');
      assert (a + b)[..|a + b| - 1] == a + b';
      assert (a + b)[|a + b| - 1] == b[|b| - 1];
    }
  }

  lemma {:induction false} SleepsAppend(a: seq<Event>, b: seq<Event>)
    ensures Sleeps(a + b) == Sleeps(a) + Sleeps(b)
  {
    if b == [] {
      assert a + b == a;
    } else {
      var b' := b[..|b| - 1];
      SleepsAppend(a, b');
      assert (a + b)[..|a + b| - 1] == a + b';
      assert (a + b)[|a + b| - 1] == b[|b| - 1];
    }
  }

  lemma {:induction false} YieldedAppend(a: seq<Event>, b: seq<Event>)
    ensures Yielded(a + b) == Yielded(a) + Yielded(b)
  {
    if b == [] {
      assert a + b == a;
    } else {
      var b' := b[..|b| - 1];
      YieldedAppend(a, b');
      assert (a + b)[..|a + b| - 1] == a + b';
      assert (a + b)[|a + b| - 1] == b[|b| - 1];
    }
  }

  /** `[lo, lo + 1, ..., hi - 1]`. */
  function Range(lo: int, hi: int): (r: seq<int>)
    ensures |r| == if hi > lo then hi - lo else 0
    ensures forall i :: 0 <= i < |r| ==> r[i] == lo + i
    decreases hi - lo
  {
    if hi <= lo then [] else Range(lo, hi - 1) + [hi - 1]
  }

  /** The crates a fully successful page walk yields: each fetched page's crates, normalised. */
  function Expected(fetch: Fetcher, iso: IsoParser, perPage: int, sort: string, k: nat): seq<Record> {
    if k == 0 then [] else Expected(fetch, iso, perPage, sort, k - 1) + PageCrates(fetch, iso, k, perPage, sort)
  }

  /** The crates of one fetched page, normalised (none for a failed fetch). */
  function PageCrates(fetch: Fetcher, iso: IsoParser, page: int, perPage: int, sort: string): seq<Record> {
    match fetch(page, perPage, sort)
    case Err(_) => []
    case Ok(answer) =>
      match PageItems(answer)
      case Err(_) => []
      case Ok(items) => NormalizedAll(items, iso)
  }

  /** The pages among 1..k whose fetch fails. */
  function FailedPages(fetch: Fetcher, perPage: int, sort: string, k: nat): seq<int> {
    if k == 0 then []
    else FailedPages(fetch, perPage, sort, k - 1) + (if fetch(k, perPage, sort).Err? then [k] else [])
  }

  /** The normalised crates of a list of raw items (those that normalise). */
  function NormalizedAll(items: seq<Json>, iso: IsoParser): seq<Record> {
    if items == [] then []
    else
      var last := match CrateOf(items[|items| - 1], iso)
        case Ok(c) => [c]
        case Err(_) => [];
      NormalizedAll(items[..|items| - 1], iso) + last
  }

  /** A page's items: nothing but yields, and when no crate raised, every item normalised in order. */
  lemma {:induction false} YieldAllFacts(items: seq<Json>, iso: IsoParser)
    ensures Requested(YieldAll(items, iso).0) == []
    ensures Failures(YieldAll(items, iso).0) == []
    ensures Sleeps(YieldAll(items, iso).0) == 0
    ensures YieldAll(items, iso).1 == Done ==> Yielded(YieldAll(items, iso).0) == NormalizedAll(items, iso)
    ensures YieldAll(items, iso).1 == Done ==> forall i :: 0 <= i < |items| ==> CrateOf(items[i], iso).Ok?
  {
    if items != [] {
      var init := items[..|items| - 1];
      YieldAllFacts(init, iso);
      var prev := YieldAll(init, iso);
      if prev.1 == Done {
        match CrateOf(items[|items| - 1], iso)
        case Ok(c) => ReadAppend(prev.0, [Yield(c)]);
        case Err(_) =>
      }
      forall i | 0 <= i < |init| ensures items[i] == init[i] { }
    }
  }

  /**
   * `crates_by_page`: exactly one request, for its page; a failed fetch is
   * logged as that page's failure, yields no crate and does not propagate, so
   * the caller's loop goes on; an answer without a usable `crates` list raises
   * out of the generator before anything is yielded.
   */
  lemma ByPageFacts(fetch: Fetcher, iso: IsoParser, page: int, perPage: int, sort: string)
    ensures Requested(ByPage(fetch, iso, page, perPage, sort).0) == [page]
    ensures Sleeps(ByPage(fetch, iso, page, perPage, sort).0) == 0
    ensures Failures(ByPage(fetch, iso, page, perPage, sort).0) == if fetch(page, perPage, sort).Err? then [page] else []
    ensures fetch(page, perPage, sort).Err? ==>
              ByPage(fetch, iso, page, perPage, sort)
              == ([Request(page, perPage, sort), Failed(page, fetch(page, perPage, sort).error)], Done)
    ensures fetch(page, perPage, sort).Ok? && PageItems(fetch(page, perPage, sort).value).Err? ==>
              ByPage(fetch, iso, page, perPage, sort)
              == ([Request(page, perPage, sort)], Raised(PageItems(fetch(page, perPage, sort).value).error))
    ensures ByPage(fetch, iso, page, perPage, sort).1 == Done ==>
              Yielded(ByPage(fetch, iso, page, perPage, sort).0) == PageCrates(fetch, iso, page, perPage, sort)
  {
    ByPageRequested(fetch, iso, page, perPage, sort);
    ByPageFailures(fetch, iso, page, perPage, sort);
    if ByPage(fetch, iso, page, perPage, sort).1 == Done {
      PageYields(fetch, iso, page, perPage, sort);
    }
  }

  /** One request, for the page itself, and no sleep. */
  lemma ByPageRequested(fetch: Fetcher, iso: IsoParser, page: int, perPage: int, sort: string)
    ensures Requested(ByPage(fetch, iso, page, perPage, sort).0) == [page]
    ensures Sleeps(ByPage(fetch, iso, page, perPage, sort).0) == 0
  {
    var head := [Request(page, perPage, sort)];
    assert Requested(head) == [page] by { assert head[..0] == []; }
    match fetch(page, perPage, sort)
    case Err(e) =>
      ReadAppend(head, [Failed(page, e)]);
      assert head + [Failed(page, e)] == [Request(page, perPage, sort), Failed(page, e)];
    case Ok(answer) =>
      match PageItems(answer)
      case Err(_) =>
      case Ok(items) =>
        YieldAllFacts(items, iso);
        ReadAppend(head, YieldAll(items, iso).0);
  }

  /** A failure is logged for the page exactly when its fetch failed. */
  lemma ByPageFailures(fetch: Fetcher, iso: IsoParser, page: int, perPage: int, sort: string)
    ensures Failures(ByPage(fetch, iso, page, perPage, sort).0) == if fetch(page, perPage, sort).Err? then [page] else []
  {
    var head := [Request(page, perPage, sort)];
    assert Failures(head) == [] by { assert head[..0] == []; }
    match fetch(page, perPage, sort)
    case Err(e) =>
      ReadAppend(head, [Failed(page, e)]);
      assert head + [Failed(page, e)] == [Request(page, perPage, sort), Failed(page, e)];
      assert Failures([Failed(page, e)]) == [page] by { assert [Failed(page, e)][..0] == []; }
    case Ok(answer) =>
      match PageItems(answer)
      case Err(_) =>
      case Ok(items) =>
        YieldAllFacts(items, iso);
        ReadAppend(head, YieldAll(items, iso).0);
  }

  /** The crates one completed page yields. */
  lemma PageYields(fetch: Fetcher, iso: IsoParser, page: int, perPage: int, sort: string)
    requires ByPage(fetch, iso, page, perPage, sort).1 == Done
    ensures Yielded(ByPage(fetch, iso, page, perPage, sort).0) == PageCrates(fetch, iso, page, perPage, sort)
  {
    var head := [Request(page, perPage, sort)];
    assert Yielded(head) == [] by { assert head[..0] == []; }
    match fetch(page, perPage, sort)
    case Err(e) =>
      ReadAppend(head, [Failed(page, e)]);
      assert head + [Failed(page, e)] == [Request(page, perPage, sort), Failed(page, e)];
      assert Yielded([Failed(page, e)]) == [] by { assert [Failed(page, e)][..0] == []; }
    case Ok(answer) =>
      match PageItems(answer)
      case Err(_) =>
      case Ok(items) =>
        YieldAllFacts(items, iso);
        ReadAppend(head, YieldAll(items, iso).0);
  }

  /**
   * The page loop: the pages requested are 1, 2, ... in increasing order, one
   * per iteration begun; a completed walk of `k` pages requested exactly pages
   * 1..k, slept exactly `k` times (also after pages that yielded nothing),
   * logged a failure for exactly the pages whose fetch failed, and yielded
   * every fetched page's crates in page order.
   */
  lemma {:induction false} PagesFacts(fetch: Fetcher, iso: IsoParser, delay: real, perPage: int, sort: string, k: nat)
    ensures var r := Pages(fetch, iso, delay, perPage, sort, k);
      && Requested(r.0) == Range(1, |Requested(r.0)| + 1)
      && |Requested(r.0)| <= k
      && (r.1 == Done ==> |Requested(r.0)| == k && Sleeps(r.0) == k)
      && (r.1 == Done ==> Failures(r.0) == FailedPages(fetch, perPage, sort, k))
      && (r.1 == Done ==> Yielded(r.0) == Expected(fetch, iso, perPage, sort, k))
  {
    PagesRequested(fetch, iso, delay, perPage, sort, k);
    PagesCompleted(fetch, iso, delay, perPage, sort, k);
  }

  /** One iteration of the page loop: the page's events, then a sleep unless the page raised. */
  lemma PagesUnfold(fetch: Fetcher, iso: IsoParser, delay: real, perPage: int, sort: string, k: nat)
    requires k > 0 && Pages(fetch, iso, delay, perPage, sort, k - 1).1 == Done
    ensures var page := ByPage(fetch, iso, k, perPage, sort);
            Pages(fetch, iso, delay, perPage, sort, k)
            == (Pages(fetch, iso, delay, perPage, sort, k - 1).0 + page.0
                + (if page.1 == Done then [Sleep(delay)] else []), page.1)
  {
    var prev := Pages(fetch, iso, delay, perPage, sort, k - 1).0;
    var page := ByPage(fetch, iso, k, perPage, sort);
    if page.1.Raised? {
      assert prev + page.0 + [] == prev + page.0;
    }
  }

  /** The readers of a trace extended by one page's events and possibly one sleep. */
  lemma TraceParts(prev: seq<Event>, page: seq<Event>, tail: seq<Event>, k: int, delay: real)
    requires Requested(page) == [k] && Sleeps(page) == 0
    requires tail == [] || tail == [Sleep(delay)]
    ensures Requested(prev + page + tail) == Requested(prev) + [k]
    ensures Sleeps(prev + page + tail) == Sleeps(prev) + |tail|
    ensures Failures(prev + page + tail) == Failures(prev) + Failures(page)
    ensures Yielded(prev + page + tail) == Yielded(prev) + Yielded(page)
  {
    ReadAppend(prev, page);
    ReadAppend(prev + page, tail);
    if tail != [] {
      assert tail[..0] == [];
    } else {
      assert prev + page + tail == prev + page;
    }
  }

  /** The pages asked are 1, 2, ... in order, all of them when the walk completes. */
  lemma {:induction false} PagesRequested(fetch: Fetcher, iso: IsoParser, delay: real, perPage: int, sort: string, k: nat)
    ensures var r := Pages(fetch, iso, delay, perPage, sort, k);
      && Requested(r.0) == Range(1, |Requested(r.0)| + 1)
      && |Requested(r.0)| <= k
      && (r.1 == Done ==> |Requested(r.0)| == k)
  {
    if k > 0 {
      var prev := Pages(fetch, iso, delay, perPage, sort, k - 1);
      PagesRequested(fetch, iso, delay, perPage, sort, k - 1);
      if prev.1.Raised? {
        PagesRaisedPersists(fetch, iso, delay, perPage, sort, k, k - 1);
      } else {
        assert Requested(prev.0) == Range(1, k);
        var page := ByPage(fetch, iso, k, perPage, sort);
        var tail := if page.1 == Done then [Sleep(delay)] else [];
        PagesUnfold(fetch, iso, delay, perPage, sort, k);
        ByPageRequested(fetch, iso, k, perPage, sort);
        TraceParts(prev.0, page.0, tail, k, delay);
        assert Requested(Pages(fetch, iso, delay, perPage, sort, k).0) == Range(1, k) + [k];
        assert Range(1, k + 1) == Range(1, k) + [k];
      }
    }
  }

  /**
   * A completed walk of `k` pages slept `k` times, logged exactly the failed
   * fetches and yielded every page's crates in order.
   */
  lemma PagesCompleted(fetch: Fetcher, iso: IsoParser, delay: real, perPage: int, sort: string, k: nat)
    ensures var r := Pages(fetch, iso, delay, perPage, sort, k);
      r.1 == Done ==> && Sleeps(r.0) == k
                      && Failures(r.0) == FailedPages(fetch, perPage, sort, k)
                      && Yielded(r.0) == Expected(fetch, iso, perPage, sort, k)
  {
    PagesSleeps(fetch, iso, delay, perPage, sort, k);
    PagesFailures(fetch, iso, delay, perPage, sort, k);
    PagesYielded(fetch, iso, delay, perPage, sort, k);
  }

  lemma {:induction false} PagesSleeps(fetch: Fetcher, iso: IsoParser, delay: real, perPage: int, sort: string, k: nat)
    ensures var r := Pages(fetch, iso, delay, perPage, sort, k);
      r.1 == Done ==> Sleeps(r.0) == k
  {
    if k > 0 {
      var prev := Pages(fetch, iso, delay, perPage, sort, k - 1);
      PagesSleeps(fetch, iso, delay, perPage, sort, k - 1);
      if prev.1.Raised? {
        PagesRaisedPersists(fetch, iso, delay, perPage, sort, k, k - 1);
      } else {
        assert Sleeps(prev.0) == k - 1;
        var page := ByPage(fetch, iso, k, perPage, sort);
        PagesUnfold(fetch, iso, delay, perPage, sort, k);
        if page.1 == Done {
          ByPageRequested(fetch, iso, k, perPage, sort);
          TraceParts(prev.0, page.0, [Sleep(delay)], k, delay);
          assert Sleeps(Pages(fetch, iso, delay, perPage, sort, k).0) == k - 1 + 1;
        }
      }
    }
  }

  lemma {:induction false} PagesFailures(fetch: Fetcher, iso: IsoParser, delay: real, perPage: int, sort: string, k: nat)
    ensures var r := Pages(fetch, iso, delay, perPage, sort, k);
      r.1 == Done ==> Failures(r.0) == FailedPages(fetch, perPage, sort, k)
  {
    if k > 0 {
      var prev := Pages(fetch, iso, delay, perPage, sort, k - 1);
      PagesFailures(fetch, iso, delay, perPage, sort, k - 1);
      if prev.1.Raised? {
        PagesRaisedPersists(fetch, iso, delay, perPage, sort, k, k - 1);
      } else {
        var page := ByPage(fetch, iso, k, perPage, sort);
        assert Failures(prev.0) == FailedPages(fetch, perPage, sort, k - 1);
        PagesUnfold(fetch, iso, delay, perPage, sort, k);
        if page.1 == Done {
          ByPageFailures(fetch, iso, k, perPage, sort);
          FailuresStep(prev.0, page.0, delay);
          assert Failures(Pages(fetch, iso, delay, perPage, sort, k).0)
              == FailedPages(fetch, perPage, sort, k - 1) + Failures(page.0);
        }
      }
    }
  }

  /** A page and its sleep add the page's failures to the trace's. */
  lemma FailuresStep(prev: seq<Event>, page: seq<Event>, delay: real)
    ensures Failures(prev + page + [Sleep(delay)]) == Failures(prev) + Failures(page)
  {
    FailuresAppend(prev, page);
    FailuresAppend(prev + page, [Sleep(delay)]);
    assert [Sleep(delay)][..0] == [];
  }

  lemma {:induction false} PagesYielded(fetch: Fetcher, iso: IsoParser, delay: real, perPage: int, sort: string, k: nat)
    ensures var r := Pages(fetch, iso, delay, perPage, sort, k);
      r.1 == Done ==> Yielded(r.0) == Expected(fetch, iso, perPage, sort, k)
  {
    if k > 0 {
      var prev := Pages(fetch, iso, delay, perPage, sort, k - 1);
      PagesYielded(fetch, iso, delay, perPage, sort, k - 1);
      if prev.1.Raised? {
        PagesRaisedPersists(fetch, iso, delay, perPage, sort, k, k - 1);
      } else {
        assert Yielded(prev.0) == Expected(fetch, iso, perPage, sort, k - 1);
        var page := ByPage(fetch, iso, k, perPage, sort);
        PagesUnfold(fetch, iso, delay, perPage, sort, k);
        if page.1 == Done {
          ByPageRequested(fetch, iso, k, perPage, sort);
          PageYields(fetch, iso, k, perPage, sort);
          TraceParts(prev.0, page.0, [Sleep(delay)], k, delay);
          assert Yielded(Pages(fetch, iso, delay, perPage, sort, k).0)
              == Expected(fetch, iso, perPage, sort, k - 1) + PageCrates(fetch, iso, k, perPage, sort);
        }
      }
    }
  }

  /**
   * The whole generator: page 1 is asked first for the catalog size; when it
   * runs to the end, it then asked exactly pages 1..ceil(total / per_page),
   * slept once per page, logged exactly the pages whose fetch failed and
   * yielded the crates of the others in order. A non-positive count asks no
   * page.
   */
  lemma RunFacts(fetch: Fetcher, iso: IsoParser, delay: real, perPage: int, sort: string)
    ensures Run(fetch, iso, delay, perPage, sort).1 == Done ==>
              && fetch(1, 50, "alpha").Ok?
              && Total(fetch(1, 50, "alpha").value).Ok?
              && PageCount(Total(fetch(1, 50, "alpha").value).value, perPage).Ok?
              && var n := PageCount(Total(fetch(1, 50, "alpha").value).value, perPage).value;
              && Requested(Run(fetch, iso, delay, perPage, sort).0) == [1] + Range(1, n + 1)
              && Sleeps(Run(fetch, iso, delay, perPage, sort).0) == n
              && Failures(Run(fetch, iso, delay, perPage, sort).0) == FailedPages(fetch, perPage, sort, n)
              && Yielded(Run(fetch, iso, delay, perPage, sort).0) == Expected(fetch, iso, perPage, sort, n)
  {
    var first := [Request(1, 50, "alpha")];
    match fetch(1, 50, "alpha")
    case Err(e) =>
    case Ok(answer) =>
      match Total(answer)
      case Err(e) =>
      case Ok(total) =>
        match PageCount(total, perPage)
        case Err(e) =>
        case Ok(n) =>
          PagesFacts(fetch, iso, delay, perPage, sort, n);
          ReadAppend(first, Pages(fetch, iso, delay, perPage, sort, n).0);
          assert Requested(first) == [1] && Failures(first) == [] by { assert first[..0] == []; }
  }

  /** An empty catalog (or a non-positive page count) asks only for the size. */
  lemma EmptyCatalog(fetch: Fetcher, iso: IsoParser, delay: real, perPage: int, sort: string)
    requires fetch(1, 50, "alpha").Ok? && Total(fetch(1, 50, "alpha").value).Ok?
    requires perPage > 0 && Total(fetch(1, 50, "alpha").value).value <= 0.0
    ensures Run(fetch, iso, delay, perPage, sort) == ([Request(1, 50, "alpha")], Done)
  {
    CeilDivIsCeiling(Total(fetch(1, 50, "alpha").value).value, perPage);
    assert [Request(1, 50, "alpha")] + [] == [Request(1, 50, "alpha")];
  }

  /** 101 crates at 50 per page take 3 pages, the last being page 3; 100 take 2. */
  lemma ThreePagesFor101()
    ensures PageCount(101.0, 50) == Ok(3)
    ensures PageCount(100.0, 50) == Ok(2)
    ensures Range(1, 3 + 1) == [1, 2, 3]
  {
    CeilDivIsCeiling(101.0, 50);
    CeilDivIsCeiling(100.0, 50);
  }
}
