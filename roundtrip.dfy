/**
 * The taxonomy files round-trip: the text `categories_to_str` (lib/crates_io.py)
 * writes, read back through `_load_txt_1` (data/__init__.py), gives the same
 * id-to-entry map, with the JSON codec taken as an opaque encoding that
 * `json.loads` inverts and that never emits a line break.
 */
module RoundTrip {
  import opened Wrappers
  import opened Json
  import opened PyDict
  import opened Serializer
  import opened Loaders

  /**
   * What the round trip needs of `jsonify` / `json.loads`: the encoding has no
   * line break (JSON escapes them inside strings) and is decoded back, with or
   * without the `'\n'` that ends every line but the last.
   */
  ghost predicate LineCodec<V(!new)>(enc: V -> string, dec: Decoder<V>) {
    forall v :: '\n' !in enc(v) && '\r' !in enc(v) && dec(enc(v)) == Ok(v) && dec(enc(v) + "\n") == Ok(v)
  }

  /** Ids that survive the file layout: no tab and no line break. */
  ghost predicate SafeKeys<V>(d: Dict<Json, V>) {
    forall k | k in d.items :: k.JStr? && '\t' !in k.s && '\n' !in k.s && '\r' !in k.s
  }

  lemma {:induction false} JoinAvoids(c: char, sep: string, parts: seq<string>)
    requires c !in sep && forall i :: 0 <= i < |parts| ==> c !in parts[i]
    ensures c !in Join(sep, parts)
  {
    if |parts| > 1 {
      JoinAvoids(c, sep, parts[1..]);
    }
  }

  lemma FindAfter(k: string, c: char, w: string)
    requires c !in k
    ensures Find(k + [c] + w, c) == |k|
  {
    var t := k + [c] + w;
    assert t[|k|] == c;
    assert forall j :: 0 <= j < |k| ==> t[j] == k[j];
  }

  /** A line made of a tab-free key, a tab and anything splits back into the two. */
  lemma SplitTabOf(k: string, w: string)
    requires '\t' !in k
    ensures SplitTab(k + "\t" + w) == Ok((k, w))
  {
    var line := k + "\t" + w;
    FindAfter(k, '\t', w);
    assert line[..|k|] == k && line[|k| + 1..] == w;
  }

  /** The lines file iteration yields from a `'\n'`-joined text: each part, all but the last ending in `'\n'`. */
  function Terminated(parts: seq<string>): (ls: seq<string>)
    ensures |ls| == |parts|
  {
    seq(|parts|, i requires 0 <= i < |parts| => if i < |parts| - 1 then parts[i] + "\n" else parts[i])
  }

  lemma TerminatedCons(parts: seq<string>)
    requires |parts| > 1
    ensures Terminated(parts) == [parts[0] + "\n"] + Terminated(parts[1..])
  {
    var l, r := Terminated(parts), [parts[0] + "\n"] + Terminated(parts[1..]);
    forall i | 0 <= i < |l| ensures l[i] == r[i] {
      if i > 0 { assert r[i] == Terminated(parts[1..])[i - 1]; }
    }
  }

  lemma {:induction false} FileLinesOfJoin(parts: seq<string>)
    requires forall i :: 0 <= i < |parts| ==> parts[i] != [] && '\n' !in parts[i]
    ensures FileLines(Join("\n", parts)) == Terminated(parts)
  {
    if |parts| == 1 {
      var t := parts[0];
      assert Find(t, '\n') == |t|;
    } else if |parts| > 1 {
      var head, rest := parts[0], parts[1..];
      assert forall i :: 0 <= i < |rest| ==> rest[i] == parts[i + 1];
      FileLinesOfJoin(rest);
      var tail := Join("\n", rest);
      var t := Join("\n", parts);
      assert t == head + "\n" + tail;
      FindAfter(head, '\n', tail);
      assert t[..|head| + 1] == head + "\n";
      assert t[|head| + 1..] == tail;
      assert FileLines(t) == [head + "\n"] + FileLines(tail);
      TerminatedCons(parts);
    }
  }

  /** The line splits into key `k` and a text that decodes to `v`. */
  ghost predicate SplitsTo<V>(line: string, dec: Decoder<V>, k: string, v: V) {
    SplitTab(line).Ok? && SplitTab(line).value.0 == k && dec(SplitTab(line).value.1) == Ok(v)
  }

  /** Loading lines that each split into the given key and an encoding of the given value. */
  lemma {:induction false} LoadSplitLines<V>(lines: seq<string>, dec: Decoder<V>, ks: seq<string>, vs: seq<V>)
    requires |lines| == |ks| == |vs|
    requires forall i :: 0 <= i < |lines| ==> SplitsTo(lines[i], dec, ks[i], vs[i])
    ensures Load1(lines, dec).Ok?
    ensures Load1(lines, dec).value.items == Zip(ks, vs)
  {
    if lines != [] {
      var n := |lines| - 1;
      var init, ks', vs' := lines[..n], ks[..n], vs[..n];
      assert forall i :: 0 <= i < n ==> init[i] == lines[i] && ks'[i] == ks[i] && vs'[i] == vs[i];
      LoadSplitLines(init, dec, ks', vs');
      assert SplitsTo(lines[n], dec, ks[n], vs[n]);
      Load1Extend(lines, dec);
    }
  }

  /** The conditions of a load over lines hold of all lines but the last. */
  lemma PrefixSplits<V>(lines: seq<string>, dec: Decoder<V>, ks: seq<string>, vs: seq<V>,
                        init: seq<string>, ks': seq<string>, vs': seq<V>)
    requires |lines| == |ks| == |vs| > 0 && Distinct(ks)
    requires forall i :: 0 <= i < |lines| ==> SplitsTo(lines[i], dec, ks[i], vs[i])
    requires init == lines[..|lines| - 1] && ks' == ks[..|ks| - 1] && vs' == vs[..|vs| - 1]
    ensures Distinct(ks')
    ensures forall i :: 0 <= i < |init| ==> SplitsTo(init[i], dec, ks'[i], vs'[i])
    ensures ks[|ks| - 1] !in ks'
  {
  }

  /** ... and with distinct keys the dict lists them in line order. */
  lemma {:induction false} LoadDistinctOrder<V>(lines: seq<string>, dec: Decoder<V>, ks: seq<string>, vs: seq<V>)
    requires |lines| == |ks| == |vs| && Distinct(ks)
    requires forall i :: 0 <= i < |lines| ==> SplitsTo(lines[i], dec, ks[i], vs[i])
    ensures Load1(lines, dec).Ok?
    ensures Load1(lines, dec).value.order == ks
  {
    if lines != [] {
      var n := |lines| - 1;
      var init, ks', vs' := lines[..n], ks[..n], vs[..n];
      PrefixSplits(lines, dec, ks, vs, init, ks', vs');
      LoadDistinctOrder(init, dec, ks', vs');
      var prev := Load1(init, dec).value;
      assert SplitsTo(lines[n], dec, ks[n], vs[n]);
      assert LineKey(lines[n]) == ks[n];
      Load1Extend(lines, dec);
      prev.OrderInItems();
      assert ks[n] !in prev.items;
      assert Load1(lines, dec).value.order == prev.order + [ks[n]];
      assert ks == ks' + [ks[n]];
    }
  }

  /** The map built by assigning `vs[i]` to `ks[i]` in order. */
  function Zip<K, V>(ks: seq<K>, vs: seq<V>): map<K, V>
    requires |ks| == |vs|
  {
    if ks == [] then map[] else Zip(ks[..|ks| - 1], vs[..|vs| - 1])[ks[|ks| - 1] := vs[|vs| - 1]]
  }

  /** With distinct keys, each key of `Zip` holds its own value and nothing else is a key. */
  lemma {:induction false} ZipAt<K, V>(ks: seq<K>, vs: seq<V>)
    requires |ks| == |vs| && Distinct(ks)
    ensures forall k :: k in Zip(ks, vs) <==> k in ks
    ensures forall i :: 0 <= i < |ks| ==> Zip(ks, vs)[ks[i]] == vs[i]
  {
    if ks != [] {
      var n := |ks| - 1;
      var ks', vs' := ks[..n], vs[..n];
      assert forall i :: 0 <= i < n ==> ks'[i] == ks[i] && vs'[i] == vs[i];
      assert Distinct(ks');
      ZipAt(ks', vs');
      assert ks == ks' + [ks[n]];
    }
  }

  /** The entries of a registry listed in ascending id order. */
  function SortedValues<V>(d: Dict<Json, V>): (vs: seq<V>)
    requires d.Valid() && StringKeyed(d)
    ensures |vs| == |Sort(KeyStrings(d))|
  {
    LinesLayout(d, (v: V) => "");
    var ks := Sort(KeyStrings(d));
    seq(|ks|, i requires 0 <= i < |ks| => d.items[JStr(ks[i])])
  }

  /** Each written line is a tab-free id, a tab and the encoding of the id's entry. */
  lemma LinesShape<V>(d: Dict<Json, V>, enc: V -> string)
    requires d.Valid() && SafeKeys(d)
    ensures StringKeyed(d)
    ensures |Lines(d, enc)| == |Sort(KeyStrings(d))| == |SortedValues(d)|
    ensures forall i :: 0 <= i < |Lines(d, enc)| ==>
              Lines(d, enc)[i] == Sort(KeyStrings(d))[i] + "\t" + enc(SortedValues(d)[i])
              && '\t' !in Sort(KeyStrings(d))[i]
  {
    var parts := Lines(d, enc);
    var ks := Sort(KeyStrings(d));
    var vs := SortedValues(d);
    LinesLayout(d, enc);
    forall i | 0 <= i < |parts|
      ensures parts[i] == ks[i] + "\t" + enc(vs[i]) && '\t' !in ks[i]
    {
      assert JStr(ks[i]) in d.items;
    }
  }

  /** Reading the written text with universal newlines gives back the written lines, terminated. */
  lemma TextLines<V(!new)>(d: Dict<Json, V>, enc: V -> string, dec: Decoder<V>)
    requires d.Valid() && SafeKeys(d) && LineCodec(enc, dec)
    ensures StringKeyed(d)
    ensures FileLines(Universal(ToStr(d, enc))) == Terminated(Lines(d, enc))
    ensures forall i :: 0 <= i < |Lines(d, enc)| ==>
              Lines(d, enc)[i] == Sort(KeyStrings(d))[i] + "\t" + enc(SortedValues(d)[i])
              && '\t' !in Sort(KeyStrings(d))[i]
  {
    LinesShape(d, enc);
    var parts := Lines(d, enc);
    var ks := Sort(KeyStrings(d));
    var vs := SortedValues(d);
    forall i | 0 <= i < |parts|
      ensures parts[i] != [] && '\n' !in parts[i] && '\r' !in parts[i]
    {
      assert parts[i] == ks[i] + "\t" + enc(vs[i]);
      assert JStr(ks[i]) in d.items by { LinesLayout(d, enc); }
    }
    JoinAvoids('\r', "\n", parts);
    FileLinesOfJoin(parts);
  }

  /** Terminated lines of the form id, tab, encoding split back into the id and the value. */
  lemma TerminatedSplits<V(!new)>(parts: seq<string>, ks: seq<string>, vs: seq<V>, enc: V -> string, dec: Decoder<V>)
    requires LineCodec(enc, dec)
    requires |parts| == |ks| == |vs|
    requires forall i :: 0 <= i < |parts| ==> parts[i] == ks[i] + "\t" + enc(vs[i]) && '\t' !in ks[i]
    ensures forall i :: 0 <= i < |parts| ==> SplitsTo(Terminated(parts)[i], dec, ks[i], vs[i])
  {
    var lines := Terminated(parts);
    forall i | 0 <= i < |lines|
      ensures SplitsTo(lines[i], dec, ks[i], vs[i])
    {
      if i < |lines| - 1 {
        assert lines[i] == ks[i] + "\t" + (enc(vs[i]) + "\n");
        SplitTabOf(ks[i], enc(vs[i]) + "\n");
      } else {
        SplitTabOf(ks[i], enc(vs[i]));
      }
    }
  }

  /** Each line read back splits into its id and the entry stored under it. */
  lemma ReadLinesSplit<V(!new)>(d: Dict<Json, V>, enc: V -> string, dec: Decoder<V>)
    requires d.Valid() && SafeKeys(d) && LineCodec(enc, dec)
    ensures StringKeyed(d)
    ensures var lines := FileLines(Universal(ToStr(d, enc)));
            |lines| == |Sort(KeyStrings(d))| == |SortedValues(d)|
            && forall i :: 0 <= i < |lines| ==> SplitsTo(lines[i], dec, Sort(KeyStrings(d))[i], SortedValues(d)[i])
  {
    TextLines(d, enc, dec);
    TerminatedSplits(Lines(d, enc), Sort(KeyStrings(d)), SortedValues(d), enc, dec);
  }

  /** Sorted ids are distinct. */
  lemma AscendingDistinct(ks: seq<string>)
    requires Ascending(ks)
    ensures Distinct(ks)
  {
    forall i, j | 0 <= i < j < |ks| ensures ks[i] != ks[j] {
      LexIrreflexive(ks[i]);
    }
  }

  /** What reading back the written text gives: a load that succeeds with the ids in sorted order, holding `Zip` of ids and entries. */
  lemma ReadBack<V(!new)>(d: Dict<Json, V>, enc: V -> string, dec: Decoder<V>)
    requires d.Valid() && SafeKeys(d) && LineCodec(enc, dec)
    ensures StringKeyed(d)
    ensures Load1(FileLines(Universal(ToStr(d, enc))), dec).Ok?
    ensures Load1(FileLines(Universal(ToStr(d, enc))), dec).value.order == Sort(KeyStrings(d))
    ensures Load1(FileLines(Universal(ToStr(d, enc))), dec).value.items == Zip(Sort(KeyStrings(d)), SortedValues(d))
  {
    ReadLinesSplit(d, enc, dec);
    var lines := FileLines(Universal(ToStr(d, enc)));
    var ks := Sort(KeyStrings(d));
    var vs := SortedValues(d);
    AscendingDistinct(ks);
    LoadSplitLines(lines, dec, ks, vs);
    LoadDistinctOrder(lines, dec, ks, vs);
  }

  /** `Zip` of the sorted ids and their entries is the registry, read with string ids. */
  lemma ZipIsRegistry<V>(d: Dict<Json, V>)
    requires d.Valid() && StringKeyed(d)
    ensures forall k :: k in Zip(Sort(KeyStrings(d)), SortedValues(d)) <==> JStr(k) in d.items
    ensures forall k | JStr(k) in d.items :: Zip(Sort(KeyStrings(d)), SortedValues(d))[k] == d.items[JStr(k)]
  {
    var ks := Sort(KeyStrings(d));
    var vs := SortedValues(d);
    LinesLayout(d, (v: V) => "");
    AscendingDistinct(ks);
    ZipAt(ks, vs);
    forall k | JStr(k) in d.items ensures Zip(ks, vs)[k] == d.items[JStr(k)] {
      var i :| 0 <= i < |ks| && ks[i] == k;
    }
  }

  /**
   * Round trip: the text written for a registry, read back line by line, gives
   * a dict with the same ids mapped to the same entries, in ascending id order.
   */
  lemma RoundTrip<V(!new)>(d: Dict<Json, V>, enc: V -> string, dec: Decoder<V>)
    requires d.Valid() && SafeKeys(d) && LineCodec(enc, dec)
    ensures StringKeyed(d)
    ensures Load1(FileLines(Universal(ToStr(d, enc))), dec).Ok?
    ensures Load1(FileLines(Universal(ToStr(d, enc))), dec).value.order == Sort(KeyStrings(d))
    ensures forall k :: k in Load1(FileLines(Universal(ToStr(d, enc))), dec).value.items <==> JStr(k) in d.items
    ensures forall k | JStr(k) in d.items ::
              Load1(FileLines(Universal(ToStr(d, enc))), dec).value.items[k] == d.items[JStr(k)]
  {
    ReadBack(d, enc, dec);
    ZipIsRegistry(d);
  }
}
