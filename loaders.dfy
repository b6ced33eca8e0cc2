/**
 * The flat-file loaders of data/__init__.py. A file is read as text with
 * universal newlines and iterated line by line; `_load_txt_1` splits each
 * line at its first tab into a key and a JSON value, `_load_txt_2` decodes
 * each line as a JSON record and keys it by its `name`. Later lines overwrite
 * earlier ones with the same key.
 */
module Loaders {
  import opened Wrappers
  import opened Json
  import opened PyDict

  /** `json.loads` seen as an oracle. */
  type Decoder<V> = string -> Result<V>

  /** The first position of `c` in `t`, or `|t|` when there is none. */
  function Find(t: string, c: char): (i: nat)
    ensures i <= |t|
    ensures forall j :: 0 <= j < i ==> t[j] != c
    ensures i < |t| ==> t[i] == c
  {
    if t == [] then 0 else if t[0] == c then 0 else 1 + Find(t[1..], c)
  }

  /**
   * `open(path, 'r')` reads with universal newlines: `'\r\n'` and a lone
   * `'\r'` both become `'\n'`, and text without `'\r'` is read as it is.
   */
  function Universal(t: string): (u: string)
    ensures '\r' !in u
    ensures '\r' !in t ==> u == t
    ensures |u| <= |t|
  {
    if t == [] then []
    else if t[0] == '\r' then
      if |t| > 1 && t[1] == '\n' then "\n" + Universal(t[2..]) else "\n" + Universal(t[1..])
    else
      assert t == [t[0]] + t[1..];
      [t[0]] + Universal(t[1..])
  }

  /** `t.replace('\r\n', '\n')`: each `'\r\n'`, from left to right, becomes `'\n'`. */
  function ReplaceCrlf(t: string): string {
    if t == [] then []
    else if |t| > 1 && t[0] == '\r' && t[1] == '\n' then "\n" + ReplaceCrlf(t[2..])
    else [t[0]] + ReplaceCrlf(t[1..])
  }

  /** `t.replace('\r', '\n')`. */
  function ReplaceCr(t: string): (u: string)
    ensures |u| == |t|
  {
    seq(|t|, i requires 0 <= i < |t| => if t[i] == '\r' then '\n' else t[i])
  }

  lemma ReplaceCrAppend(a: string, b: string)
    ensures ReplaceCr(a + b) == ReplaceCr(a) + ReplaceCr(b)
  {
  }

  /** Universal-newline reading is the two replacements, `'\r\n'` first. */
  lemma {:induction false} UniversalIsReplace(t: string)
    ensures Universal(t) == ReplaceCr(ReplaceCrlf(t))
  {
    if t != [] {
      if |t| > 1 && t[0] == '\r' && t[1] == '\n' {
        UniversalIsReplace(t[2..]);
        ReplaceCrAppend("\n", ReplaceCrlf(t[2..]));
      } else {
        UniversalIsReplace(t[1..]);
        ReplaceCrAppend([t[0]], ReplaceCrlf(t[1..]));
      }
    }
  }

  /** `''.join(lines)`. */
  function Concat(lines: seq<string>): string {
    if lines == [] then [] else lines[0] + Concat(lines[1..])
  }

  /**
   * `for line in f`: the text cut after each `'\n'`. The lines are not empty,
   * make up the text, end in `'\n'` (all but perhaps the last) and hold no
   * other `'\n'`.
   */
  function FileLines(t: string): (lines: seq<string>)
    ensures forall i :: 0 <= i < |lines| ==> lines[i] != []
    ensures Concat(lines) == t
    ensures forall i :: 0 <= i < |lines| - 1 ==> lines[i][|lines[i]| - 1] == '\n'
    ensures forall i :: 0 <= i < |lines| ==> '\n' !in lines[i][..|lines[i]| - 1]
    decreases |t|
  {
    if t == [] then []
    else
      var i := Find(t, '\n');
      if i == |t| then
        assert t[..|t| - 1] == t[..i][..|t| - 1];
        [t]
      else
        assert t == t[..i + 1] + t[i + 1..];
        assert t[..i + 1][..i] == t[..i];
        [t[..i + 1]] + FileLines(t[i + 1..])
  }

  /** `key, value = line.split('\t', maxsplit=1)`: `ValueError` when the line has no tab. */
  function SplitTab(line: string): (r: Result<(string, string)>)
    ensures r.Err? <==> '\t' !in line
    ensures r.Err? ==> r.error == ValueError
    ensures r.Ok? ==> '\t' !in r.value.0 && line == r.value.0 + "\t" + r.value.1
  {
    var i := Find(line, '\t');
    if i == |line| then Err(ValueError)
    else
      assert line == line[..i] + "\t" + line[i + 1..];
      Ok((line[..i], line[i + 1..]))
  }

  /** `_load_txt_1` over a sequence of lines: the dict built, or the first exception. */
  function Load1<V>(lines: seq<string>, dec: Decoder<V>): (r: Result<Dict<string, V>>)
    ensures r.Ok? ==> r.value.Valid() && |r.value.order| <= |lines|
    ensures r.Ok? ==> forall k :: k in r.value.items ==> '\t' !in k
  {
    if lines == [] then Ok(Empty())
    else match Load1(lines[..|lines| - 1], dec)
      case Err(e) => Err(e)
      case Ok(data) =>
        match SplitTab(lines[|lines| - 1])
        case Err(e) => Err(e)
        case Ok(kv) =>
          match dec(kv.1)
          case Err(e) => Err(e)
          case Ok(v) => Ok(Set(data, kv.0, v))
  }

  /**
   * `value = json.loads(line)`, then `value['name']` as a dict key: what the
   * decoder raises; `KeyError` for an object without `name`; `TypeError` for
   * a value that is not an object, or for a name that is a list or an object.
   */
  function Named(line: string, dec: Decoder<Json>): (r: Result<Json>)
    ensures dec(line).Err? ==> r == Err(dec(line).error)
    ensures var v := dec(line);
      v.Ok? ==> (r.Ok? <==> v.value.JObj? && "name" in v.value.fields && Hashable(v.value.fields["name"]))
    ensures r.Ok? ==> r.value == dec(line).value.fields["name"]
    ensures var v := dec(line);
      v.Ok? && v.value.JObj? && "name" !in v.value.fields ==> r == Err(KeyError)
    ensures var v := dec(line);
      v.Ok? && (!v.value.JObj? || ("name" in v.value.fields && !Hashable(v.value.fields["name"]))) ==> r == Err(TypeError)
  {
    match dec(line)
    case Err(e) => Err(e)
    case Ok(v) =>
      match Subscript(v, "name")
      case Err(e) => Err(e)
      case Ok(name) => if Hashable(name) then Ok(name) else Err(TypeError)
  }

  /** `_load_txt_2` over a sequence of lines: the dict built, or the first exception. */
  function Load2(lines: seq<string>, dec: Decoder<Json>): (r: Result<Dict<Json, Json>>)
    ensures r.Ok? ==> r.value.Valid() && |r.value.order| <= |lines|
    ensures r.Ok? ==> forall k :: k in r.value.items ==> Hashable(k)
  {
    if lines == [] then Ok(Empty())
    else match Load2(lines[..|lines| - 1], dec)
      case Err(e) => Err(e)
      case Ok(data) =>
        match Named(lines[|lines| - 1], dec)
        case Err(e) => Err(e)
        case Ok(k) => Ok(Set(data, k, dec(lines[|lines| - 1]).value))
  }

  /** An exception on one line ends the whole load: it is what the load raises. */
  lemma {:induction false} Load1ErrPersists<V>(lines: seq<string>, dec: Decoder<V>, i: nat)
    requires i <= |lines| && Load1(lines[..i], dec).Err?
    ensures Load1(lines, dec) == Load1(lines[..i], dec)
    decreases |lines| - i
  {
    if i < |lines| {
      assert lines[..i + 1][..i] == lines[..i];
      Load1ErrPersists(lines, dec, i + 1);
      assert Load1(lines[..i + 1], dec) == Load1(lines[..i], dec);
    } else {
      assert lines[..i] == lines;
    }
  }

  lemma {:induction false} Load2ErrPersists(lines: seq<string>, dec: Decoder<Json>, i: nat)
    requires i <= |lines| && Load2(lines[..i], dec).Err?
    ensures Load2(lines, dec) == Load2(lines[..i], dec)
    decreases |lines| - i
  {
    if i < |lines| {
      assert lines[..i + 1][..i] == lines[..i];
      Load2ErrPersists(lines, dec, i + 1);
      assert Load2(lines[..i + 1], dec) == Load2(lines[..i], dec);
    } else {
      assert lines[..i] == lines;
    }
  }

  /** The key of a line that has a tab: the text before its first tab. */
  function LineKey(line: string): string
    requires SplitTab(line).Ok?
  {
    SplitTab(line).value.0
  }

  /** One more line that splits and decodes extends a successful load by one assignment. */
  lemma Load1Extend<V>(lines: seq<string>, dec: Decoder<V>)
    requires lines != [] && Load1(lines[..|lines| - 1], dec).Ok?
    requires SplitTab(lines[|lines| - 1]).Ok? && dec(SplitTab(lines[|lines| - 1]).value.1).Ok?
    ensures Load1(lines, dec) == Ok(Set(Load1(lines[..|lines| - 1], dec).value,
                                        LineKey(lines[|lines| - 1]),
                                        dec(SplitTab(lines[|lines| - 1]).value.1).value))
  {
  }

  /** One more line: a successful load is the load of the earlier lines plus one assignment. */
  lemma Load1Step<V>(lines: seq<string>, dec: Decoder<V>)
    requires lines != [] && Load1(lines, dec).Ok?
    ensures Load1(lines[..|lines| - 1], dec).Ok?
    ensures SplitTab(lines[|lines| - 1]).Ok?
    ensures dec(SplitTab(lines[|lines| - 1]).value.1).Ok?
    ensures Load1(lines, dec).value == Set(Load1(lines[..|lines| - 1], dec).value,
                                           LineKey(lines[|lines| - 1]),
                                           dec(SplitTab(lines[|lines| - 1]).value.1).value)
  {
  }

  /** The key facts of the earlier lines, carried over a step that keeps their keys and adds the last one's. */
  lemma LineKeysStep<V>(lines: seq<string>, init: seq<string>, before: Dict<string, V>, after: Dict<string, V>)
    requires lines != [] && init == lines[..|lines| - 1]
    requires forall i :: 0 <= i < |init| ==> SplitTab(init[i]).Ok? && LineKey(init[i]) in before.items
    requires forall k :: k in before.items ==> k in after.items
    requires SplitTab(lines[|lines| - 1]).Ok? && LineKey(lines[|lines| - 1]) in after.items
    ensures forall i :: 0 <= i < |lines| ==> SplitTab(lines[i]).Ok? && LineKey(lines[i]) in after.items
  {
    forall i | 0 <= i < |lines| ensures SplitTab(lines[i]).Ok? && LineKey(lines[i]) in after.items {
      if i < |init| { assert lines[i] == init[i]; }
    }
  }

  /** A successful `_load_txt_1`: every line had a tab, and its key is a key of the result. */
  lemma {:induction false} Load1LineKeysPresent<V>(lines: seq<string>, dec: Decoder<V>)
    requires Load1(lines, dec).Ok?
    ensures forall i :: 0 <= i < |lines| ==> SplitTab(lines[i]).Ok? && LineKey(lines[i]) in Load1(lines, dec).value.items
  {
    if lines != [] {
      var init := lines[..|lines| - 1];
      Load1Step(lines, dec);
      Load1LineKeysPresent(init, dec);
      LineKeysStep(lines, init, Load1(init, dec).value, Load1(lines, dec).value);
    }
  }

  /** A successful `_load_txt_1` has no key that is not the key of some line. */
  lemma {:induction false} Load1KeysFromLines<V>(lines: seq<string>, dec: Decoder<V>, k: string)
    requires Load1(lines, dec).Ok? && k in Load1(lines, dec).value.items
    ensures exists i :: 0 <= i < |lines| && SplitTab(lines[i]).Ok? && LineKey(lines[i]) == k
  {
    var init, last := lines[..|lines| - 1], lines[|lines| - 1];
    Load1Step(lines, dec);
    if k != LineKey(last) {
      Load1KeysFromLines(init, dec, k);
      var i :| 0 <= i < |init| && SplitTab(init[i]).Ok? && LineKey(init[i]) == k;
      assert lines[i] == init[i];
    } else {
      assert LineKey(lines[|lines| - 1]) == k;
    }
  }

  /** A successful `_load_txt_1` keeps, under each key, the value of the LAST line carrying it. */
  lemma {:induction false} Load1LastWins<V>(lines: seq<string>, dec: Decoder<V>, i: nat)
    requires Load1(lines, dec).Ok?
    requires i < |lines| && SplitTab(lines[i]).Ok?
    requires forall j :: i < j < |lines| ==> SplitTab(lines[j]).Ok? && LineKey(lines[j]) != LineKey(lines[i])
    ensures dec(SplitTab(lines[i]).value.1).Ok?
    ensures LineKey(lines[i]) in Load1(lines, dec).value.items
    ensures Load1(lines, dec).value.items[LineKey(lines[i])] == dec(SplitTab(lines[i]).value.1).value
  {
    var n := |lines| - 1;
    var init := lines[..n];
    Load1Step(lines, dec);
    if i < n {
      var before, after := Load1(init, dec).value, Load1(lines, dec).value;
      var key := LineKey(lines[n]);
      assert after.items == before.items[key := dec(SplitTab(lines[n]).value.1).value];
      assert lines[i] == init[i];
      assert LineKey(lines[i]) != key;
      LastWinsPrefix(lines, init, i);
      Load1LastWins(init, dec, i);
    }
  }

  /** The condition of `Load1LastWins` holds of all lines but the last. */
  lemma LastWinsPrefix(lines: seq<string>, init: seq<string>, i: nat)
    requires |lines| > 0 && init == lines[..|lines| - 1] && i < |init| && SplitTab(lines[i]).Ok?
    requires forall j :: i < j < |lines| ==> SplitTab(lines[j]).Ok? && LineKey(lines[j]) != LineKey(lines[i])
    ensures SplitTab(init[i]).Ok?
    ensures forall j :: i < j < |init| ==> SplitTab(init[j]).Ok? && LineKey(init[j]) != LineKey(init[i])
  {
    forall j | i < j < |init| ensures SplitTab(init[j]).Ok? && LineKey(init[j]) != LineKey(init[i]) {
      assert init[j] == lines[j];
    }
  }

  /**
   * A successful `_load_txt_2`: its keys are exactly the names of the decoded
   * records, and each name holds the LAST record carrying it.
   */
  lemma Load2Facts(lines: seq<string>, dec: Decoder<Json>)
    requires Load2(lines, dec).Ok?
    ensures forall i :: 0 <= i < |lines| ==> Named(lines[i], dec).Ok? && Named(lines[i], dec).value in Load2(lines, dec).value.items
    ensures forall k | k in Load2(lines, dec).value.items ::
              exists i :: 0 <= i < |lines| && Named(lines[i], dec).Ok? && Named(lines[i], dec).value == k
    ensures forall i :: 0 <= i < |lines| &&
                        (forall j :: i < j < |lines| ==> Named(lines[j], dec).value != Named(lines[i], dec).value) ==>
              Load2(lines, dec).value.items[Named(lines[i], dec).value] == dec(lines[i]).value
  {
    Load2NamesPresent(lines, dec);
    Load2KeysFromNames(lines, dec);
    Load2LastWins(lines, dec);
  }

  /** Every line decodes, and its record's name is a key. */
  lemma {:induction false} Load2NamesPresent(lines: seq<string>, dec: Decoder<Json>)
    requires Load2(lines, dec).Ok?
    ensures forall i :: 0 <= i < |lines| ==> Named(lines[i], dec).Ok? && Named(lines[i], dec).value in Load2(lines, dec).value.items
  {
    if lines != [] {
      var init := lines[..|lines| - 1];
      Load2NamesPresent(init, dec);
      forall i | 0 <= i < |lines| - 1 ensures lines[i] == init[i] { }
    }
  }

  /** Every key is the name of some line's record. */
  lemma {:induction false} Load2KeysFromNames(lines: seq<string>, dec: Decoder<Json>)
    requires Load2(lines, dec).Ok?
    ensures forall k | k in Load2(lines, dec).value.items ::
              exists i :: 0 <= i < |lines| && Named(lines[i], dec).Ok? && Named(lines[i], dec).value == k
  {
    if lines != [] {
      var init, last := lines[..|lines| - 1], lines[|lines| - 1];
      Load2KeysFromNames(init, dec);
      var d := Load2(lines, dec).value;
      forall k | k in d.items ensures exists i :: 0 <= i < |lines| && Named(lines[i], dec).Ok? && Named(lines[i], dec).value == k {
        if k != Named(last, dec).value {
          var i :| 0 <= i < |init| && Named(init[i], dec).Ok? && Named(init[i], dec).value == k;
          assert lines[i] == init[i];
        } else {
          assert Named(lines[|lines| - 1], dec).value == k;
        }
      }
    }
  }

  /** A name holds the record of the last line carrying it. */
  lemma {:induction false} Load2LastWins(lines: seq<string>, dec: Decoder<Json>)
    requires Load2(lines, dec).Ok?
    ensures forall i :: 0 <= i < |lines| ==> Named(lines[i], dec).Ok? && Named(lines[i], dec).value in Load2(lines, dec).value.items
    ensures forall i :: 0 <= i < |lines| &&
                        (forall j :: i < j < |lines| ==> Named(lines[j], dec).value != Named(lines[i], dec).value) ==>
              Load2(lines, dec).value.items[Named(lines[i], dec).value] == dec(lines[i]).value
  {
    if lines != [] {
      var init := lines[..|lines| - 1];
      Load2NamesPresent(lines, dec);
      Load2LastWins(init, dec);
      forall i | 0 <= i < |lines| - 1 ensures lines[i] == init[i] { }
    }
  }

  /** `_load_txt_1`: the loop of data/__init__.py, line by line. */
  method LoadTxt1<V>(lines: seq<string>, dec: Decoder<V>) returns (r: Result<Dict<string, V>>)
    ensures r == Load1(lines, dec)
  {
    var data: Dict<string, V> := Empty();
    var i := 0;
    while i < |lines|
      invariant 0 <= i <= |lines|
      invariant Load1(lines[..i], dec) == Ok(data)
    {
      assert lines[..i + 1][..i] == lines[..i];
      var split := SplitTab(lines[i]);
      if split.Err? {
        Load1ErrPersists(lines, dec, i + 1);
        return Err(split.error);
      }
      var (key, value) := split.value;
      var decoded := dec(value);
      if decoded.Err? {
        Load1ErrPersists(lines, dec, i + 1);
        return Err(decoded.error);
      }
      data := Set(data, key, decoded.value);
      i := i + 1;
    }
    assert lines[..i] == lines;
    return Ok(data);
  }

  /** `_load_txt_2`: the loop of data/__init__.py, line by line. */
  method LoadTxt2(lines: seq<string>, dec: Decoder<Json>) returns (r: Result<Dict<Json, Json>>)
    ensures r == Load2(lines, dec)
  {
    var data: Dict<Json, Json> := Empty();
    var i := 0;
    while i < |lines|
      invariant 0 <= i <= |lines|
      invariant Load2(lines[..i], dec) == Ok(data)
    {
      assert lines[..i + 1][..i] == lines[..i];
      var decoded := dec(lines[i]);
      if decoded.Err? {
        Load2ErrPersists(lines, dec, i + 1);
        return Err(decoded.error);
      }
      var name := Subscript(decoded.value, "name");
      if name.Err? {
        Load2ErrPersists(lines, dec, i + 1);
        return Err(name.error);
      }
      if !Hashable(name.value) {
        Load2ErrPersists(lines, dec, i + 1);
        return Err(TypeError);
      }
      data := Set(data, name.value, decoded.value);
      i := i + 1;
    }
    assert lines[..i] == lines;
    return Ok(data);
  }
}
