/**
 * `CratesIO.categories_to_str` / `keywords_to_str` of lib/crates_io.py: one
 * line `key + '\t' + jsonify(value)` per registry key, keys in ascending
 * order (`sorted(data)`), lines joined by `'\n'`.
 */
module Serializer {
  import opened Json
  import opened PyDict

  /** Python's `a < b` on `str`: code point by code point, a proper prefix first. */
  predicate LexLess(a: string, b: string) {
    if a == [] then b != []
    else b != [] && (a[0] < b[0] || (a[0] == b[0] && LexLess(a[1..], b[1..])))
  }

  lemma {:induction false} LexIrreflexive(a: string)
    ensures !LexLess(a, a)
  {
    if a != [] { LexIrreflexive(a[1..]); }
  }

  lemma {:induction false} LexTransitive(a: string, b: string, c: string)
    requires LexLess(a, b) && LexLess(b, c)
    ensures LexLess(a, c)
  {
    if a != [] && a[0] == b[0] && b[0] == c[0] {
      LexTransitive(a[1..], b[1..], c[1..]);
    }
  }

  /** Distinct strings are always ordered one way or the other. */
  lemma {:induction false} LexTotal(a: string, b: string)
    requires a != b
    ensures LexLess(a, b) || LexLess(b, a)
  {
    if a != [] && b != [] && a[0] == b[0] {
      assert a == [a[0]] + a[1..] && b == [b[0]] + b[1..];
      LexTotal(a[1..], b[1..]);
    }
  }

  /** Strictly ascending under Python's string order. */
  ghost predicate Ascending(s: seq<string>) {
    forall i, j :: 0 <= i < j < |s| ==> LexLess(s[i], s[j])
  }

  ghost predicate Distinct<T>(s: seq<T>) {
    forall i, j :: 0 <= i < j < |s| ==> s[i] != s[j]
  }

  /** One step of insertion sort. */
  function Insert(x: string, s: seq<string>): seq<string> {
    if s == [] then [x]
    else if LexLess(x, s[0]) then [x] + s
    else [s[0]] + Insert(x, s[1..])
  }

  lemma {:induction false} InsertMultiset(x: string, s: seq<string>)
    ensures multiset(Insert(x, s)) == multiset(s) + multiset{x}
  {
    if s != [] && !LexLess(x, s[0]) {
      InsertMultiset(x, s[1..]);
      assert s == [s[0]] + s[1..];
    }
  }

  /** Prefixing an element below every element keeps a sequence ascending. */
  lemma ConsAscending(h: string, r: seq<string>)
    requires Ascending(r)
    requires forall j :: 0 <= j < |r| ==> LexLess(h, r[j])
    ensures Ascending([h] + r)
  {
    var out := [h] + r;
    forall i, j | 0 <= i < j < |out| ensures LexLess(out[i], out[j]) {
      assert out[j] == r[j - 1];
      if i > 0 { assert out[i] == r[i - 1]; }
    }
  }

  /** A lower bound of `x` and of all of `s` bounds all of `Insert(x, s)`. */
  lemma {:induction false} InsertBelow(b: string, x: string, s: seq<string>)
    requires LexLess(b, x)
    requires forall j :: 0 <= j < |s| ==> LexLess(b, s[j])
    ensures forall j :: 0 <= j < |Insert(x, s)| ==> LexLess(b, Insert(x, s)[j])
  {
    if s != [] && !LexLess(x, s[0]) {
      InsertBelow(b, x, s[1..]);
      assert Insert(x, s) == [s[0]] + Insert(x, s[1..]);
    } else if s != [] {
      assert Insert(x, s) == [x] + s;
    }
  }

  lemma {:induction false} InsertAscending(x: string, s: seq<string>)
    requires Ascending(s) && x !in s
    ensures Ascending(Insert(x, s))
  {
    if s == [] {
    } else if LexLess(x, s[0]) {
      forall j | 0 <= j < |s| ensures LexLess(x, s[j]) {
        if j > 0 { LexTransitive(x, s[0], s[j]); }
      }
      ConsAscending(x, s);
    } else {
      var tail := s[1..];
      assert Ascending(tail);
      InsertAscending(x, tail);
      LexTotal(x, s[0]);
      InsertBelow(s[0], x, tail);
      ConsAscending(s[0], Insert(x, tail));
    }
  }

  /** `sorted(keys)` for distinct keys. */
  function Sort(s: seq<string>): (r: seq<string>)
    requires Distinct(s)
    ensures Ascending(r)
    ensures multiset(r) == multiset(s)
  {
    if s == [] then []
    else
      var rest := Sort(s[1..]);
      assert s[0] !in multiset(rest);
      InsertAscending(s[0], rest);
      InsertMultiset(s[0], rest);
      assert s == [s[0]] + s[1..];
      Insert(s[0], rest)
  }

  /** `sep.join(parts)`. */
  function Join(sep: string, parts: seq<string>): (r: string)
    ensures parts == [] ==> r == []
    // the text starts with the first part and ends with the last
    ensures parts != [] ==> parts[0] <= r
    ensures parts != [] ==> |parts[|parts| - 1]| <= |r| && r[|r| - |parts[|parts| - 1]|..] == parts[|parts| - 1]
  {
    if parts == [] then ""
    else if |parts| == 1 then parts[0]
    else
      var rest := Join(sep, parts[1..]);
      assert parts[1..][|parts[1..]| - 1] == parts[|parts| - 1];
      assert (parts[0] + sep + rest)[|parts[0] + sep + rest| - |rest|..] == rest;
      parts[0] + sep + rest
  }

  /** Every id of a registry is a string (the only ids `sorted` and the f-string handle alike). */
  ghost predicate StringKeyed<V>(d: Dict<Json, V>) {
    forall k | k in d.items :: k.JStr?
  }

  /** The ids of a string-keyed registry as Python strings, in dict order. */
  function KeyStrings<V>(d: Dict<Json, V>): (ks: seq<string>)
    requires d.Valid() && StringKeyed(d)
    ensures |ks| == |d.order|
    ensures forall i :: 0 <= i < |ks| ==> JStr(ks[i]) == d.order[i]
    ensures Distinct(ks)
  {
    d.OrderInItems();
    seq(|d.order|, i requires 0 <= i < |d.order| => d.order[i].s)
  }

  /** The lines of the file, one per id in ascending order, before joining. */
  function Lines<V>(d: Dict<Json, V>, enc: V -> string): (lines: seq<string>)
    requires d.Valid() && StringKeyed(d)
  {
    var ks := Sort(KeyStrings(d));
    seq(|ks|, i requires 0 <= i < |ks| =>
      assert ks[i] in multiset(KeyStrings(d));
      ks[i] + "\t" + enc(d.items[JStr(ks[i])]))
  }

  /** `categories_to_str()` / `keywords_to_str()` of a registry. */
  function ToStr<V>(d: Dict<Json, V>, enc: V -> string): (r: string)
    requires d.Valid() && StringKeyed(d)
    ensures d.order == [] ==> r == []
    // otherwise the text opens with the least id and a tab
    ensures d.order != [] ==> |Sort(KeyStrings(d))| == |d.order| && Sort(KeyStrings(d))[0] + "\t" <= r
  {
    var ks := Sort(KeyStrings(d));
    assert |ks| == |KeyStrings(d)| by { assert |multiset(ks)| == |multiset(KeyStrings(d))|; }
    Join("\n", Lines(d, enc))
  }

  /**
   * The layout: exactly one line per registry id, ids strictly ascending, and
   * each line is the id, a tab, and the encoding of that id's entry.
   */
  lemma LinesLayout<V>(d: Dict<Json, V>, enc: V -> string)
    requires d.Valid() && StringKeyed(d)
    ensures |Lines(d, enc)| == |d.items|
    ensures Ascending(Sort(KeyStrings(d)))
    ensures forall k :: JStr(k) in d.items <==> k in Sort(KeyStrings(d))
    ensures forall i :: 0 <= i < |Lines(d, enc)| ==>
              var k := Sort(KeyStrings(d))[i];
              JStr(k) in d.items && Lines(d, enc)[i] == k + "\t" + enc(d.items[JStr(k)])
  {
    var ks := KeyStrings(d);
    var sorted := Sort(ks);
    assert |sorted| == |ks| by { assert |multiset(sorted)| == |multiset(ks)|; }
    DistinctCard(d.order);
    forall k ensures JStr(k) in d.items <==> k in sorted {
      assert k in sorted <==> k in multiset(ks);
      if JStr(k) in d.items {
        var i :| 0 <= i < |d.order| && d.order[i] == JStr(k);
        assert ks[i] == k;
      }
    }
  }

  /** A sequence without repetitions has as many elements as its set. */
  lemma {:induction false} DistinctCard<T>(s: seq<T>)
    requires Distinct(s)
    ensures |set x | x in s| == |s|
  {
    if s != [] {
      var rest := s[1..];
      assert Distinct(rest);
      DistinctCard(rest);
      assert (set x | x in s) == (set x | x in rest) + {s[0]};
      assert s[0] !in rest;
    }
  }
}
