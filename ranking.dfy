/**
 * `Analysis._max` of data/__main__.py: `sorted(data, key=key, reverse=True)[:n]`.
 * Python's sort is stable even when reversed, compares keys with `<` only,
 * and raises TypeError when a key is `None` (no order between `None` and a
 * number, nor between two `None`s). Keys are numbers or `None`.
 */
module Ranking {
  import opened Wrappers
  import opened Serializer

  /** Non-increasing under `key`. */
  ghost predicate Descending<T>(s: seq<T>, key: T -> real) {
    forall i, j :: 0 <= i < j < |s| ==> key(s[i]) >= key(s[j])
  }

  /** The elements of `s` whose key is `v`, in their order in `s`. */
  function KeyFilter<T>(s: seq<T>, key: T -> real, v: real): (r: seq<T>)
    ensures |r| <= |s|
  {
    if s == [] then []
    else (if key(s[0]) == v then [s[0]] else []) + KeyFilter(s[1..], key, v)
  }

  /**
   * Insert `x`, which comes before every element of `s` in the input, ahead of
   * all elements whose key is not greater than its own.
   */
  function InsertFront<T>(x: T, s: seq<T>, key: T -> real): (r: seq<T>)
    ensures |r| == |s| + 1
  {
    if s == [] || key(x) >= key(s[0]) then [x] + s
    else [s[0]] + InsertFront(x, s[1..], key)
  }

  /** `sorted(s, key=key, reverse=True)` on real keys. */
  function SortDesc<T>(s: seq<T>, key: T -> real): (r: seq<T>)
    ensures |r| == |s|
  {
    if s == [] then [] else InsertFront(s[0], SortDesc(s[1..], key), key)
  }

  lemma {:induction false} InsertFrontMultiset<T>(x: T, s: seq<T>, key: T -> real)
    ensures multiset(InsertFront(x, s, key)) == multiset(s) + multiset{x}
  {
    if s != [] && key(x) < key(s[0]) {
      InsertFrontMultiset(x, s[1..], key);
      assert s == [s[0]] + s[1..];
    }
  }

  /** An upper bound of `x` and of all of `s` bounds all of `InsertFront(x, s)`. */
  lemma {:induction false} InsertFrontBelow<T>(b: real, x: T, s: seq<T>, key: T -> real)
    requires key(x) <= b
    requires forall j :: 0 <= j < |s| ==> key(s[j]) <= b
    ensures forall j :: 0 <= j < |InsertFront(x, s, key)| ==> key(InsertFront(x, s, key)[j]) <= b
  {
    if s != [] && key(x) < key(s[0]) {
      InsertFrontBelow(b, x, s[1..], key);
      assert InsertFront(x, s, key) == [s[0]] + InsertFront(x, s[1..], key);
    }
  }

  lemma ConsDescending<T>(h: T, r: seq<T>, key: T -> real)
    requires Descending(r, key)
    requires forall j :: 0 <= j < |r| ==> key(r[j]) <= key(h)
    ensures Descending([h] + r, key)
  {
    var out := [h] + r;
    forall i, j | 0 <= i < j < |out| ensures key(out[i]) >= key(out[j]) {
      assert out[j] == r[j - 1];
      if i > 0 { assert out[i] == r[i - 1]; }
    }
  }

  lemma {:induction false} InsertFrontDescending<T>(x: T, s: seq<T>, key: T -> real)
    requires Descending(s, key)
    ensures Descending(InsertFront(x, s, key), key)
  {
    if s == [] {
    } else if key(x) >= key(s[0]) {
      ConsDescending(x, s, key);
    } else {
      var tail := s[1..];
      assert Descending(tail, key);
      InsertFrontDescending(x, tail, key);
      InsertFrontBelow(key(s[0]), x, tail, key);
      ConsDescending(s[0], InsertFront(x, tail, key), key);
    }
  }

  lemma KeyFilterCons<T>(h: T, t: seq<T>, key: T -> real, v: real)
    ensures KeyFilter([h] + t, key, v) == (if key(h) == v then [h] else []) + KeyFilter(t, key, v)
  {
    assert ([h] + t)[1..] == t;
  }

  /** `x` lands ahead of every element with its own key: stability of one step. */
  lemma {:induction false} InsertFrontFilter<T>(x: T, s: seq<T>, key: T -> real, v: real)
    ensures KeyFilter(InsertFront(x, s, key), key, v)
         == (if key(x) == v then [x] else []) + KeyFilter(s, key, v)
  {
    if s == [] || key(x) >= key(s[0]) {
      KeyFilterCons(x, s, key, v);
    } else {
      var tail := s[1..];
      var fx: seq<T> := if key(x) == v then [x] else [];
      var f0: seq<T> := if key(s[0]) == v then [s[0]] else [];
      var ins := InsertFront(x, tail, key);
      InsertFrontFilter(x, tail, key, v);
      KeyFilterCons(s[0], ins, key, v);
      KeyFilterCons(s[0], tail, key, v);
      assert s == [s[0]] + tail;
      assert fx == [] || f0 == [];
      assert KeyFilter(InsertFront(x, s, key), key, v) == f0 + (fx + KeyFilter(tail, key, v));
      assert f0 + fx == fx + f0;
    }
  }

  lemma {:induction false} InsertFrontDistinct<T>(x: T, s: seq<T>, key: T -> real)
    requires Distinct(s) && x !in s
    ensures Distinct(InsertFront(x, s, key))
  {
    if s != [] && key(x) < key(s[0]) {
      var tail := s[1..];
      assert Distinct(tail);
      InsertFrontDistinct(x, tail, key);
      InsertFrontMultiset(x, tail, key);
      var ins := InsertFront(x, tail, key);
      assert s[0] !in multiset(ins);
      var out := [s[0]] + ins;
      forall i, j | 0 <= i < j < |out| ensures out[i] != out[j] {
        assert out[j] == ins[j - 1] && out[j] in multiset(ins);
        if i > 0 { assert out[i] == ins[i - 1]; }
      }
    }
  }

  /** The sort is a permutation. */
  lemma {:induction false} SortDescMultiset<T>(s: seq<T>, key: T -> real)
    ensures multiset(SortDesc(s, key)) == multiset(s)
  {
    if s != [] {
      SortDescMultiset(s[1..], key);
      InsertFrontMultiset(s[0], SortDesc(s[1..], key), key);
      assert s == [s[0]] + s[1..];
    }
  }

  /** The sort is non-increasing. */
  lemma {:induction false} SortDescDescending<T>(s: seq<T>, key: T -> real)
    ensures Descending(SortDesc(s, key), key)
  {
    if s != [] {
      SortDescDescending(s[1..], key);
      InsertFrontDescending(s[0], SortDesc(s[1..], key), key);
    }
  }

  /** The sort is stable: the elements sharing any one key keep their input order. */
  lemma {:induction false} SortDescStable<T>(s: seq<T>, key: T -> real, v: real)
    ensures KeyFilter(SortDesc(s, key), key, v) == KeyFilter(s, key, v)
  {
    if s != [] {
      SortDescStable(s[1..], key, v);
      SortDescDescending(s[1..], key);
      InsertFrontFilter(s[0], SortDesc(s[1..], key), key, v);
    }
  }

  /** The sort of distinct elements is distinct. */
  lemma {:induction false} SortDescDistinct<T>(s: seq<T>, key: T -> real)
    requires Distinct(s)
    ensures Distinct(SortDesc(s, key))
  {
    if s != [] {
      var rest := SortDesc(s[1..], key);
      assert Distinct(s[1..]);
      SortDescDistinct(s[1..], key);
      SortDescMultiset(s[1..], key);
      assert s[0] !in s[1..];
      assert s[0] !in multiset(rest);
      InsertFrontDistinct(s[0], rest, key);
    }
  }

  /** How many elements the slice `[:n]` keeps of `len`. */
  function SliceLen(len: nat, n: int): (m: nat)
    ensures m <= len
    ensures n >= 0 ==> m == (if n < len then n else len)
    ensures n < 0 ==> m + (if -n < len then -n else len) == len
  {
    if n >= 0 then (if n < len then n else len)
    else if -n < len then len + n else 0
  }

  /** Python's `s[:n]`: a negative `n` counts from the end. */
  function Slice<T>(s: seq<T>, n: int): (r: seq<T>)
    ensures |r| == SliceLen(|s|, n) && r <= s
  {
    s[..SliceLen(|s|, n)]
  }

  /** The order the sort uses when every key is a number. */
  function Rank<T>(key: T -> Option<real>): T -> real {
    x => if key(x).Some? then key(x).value else 0.0
  }

  /** `_max(data, n, key)`. */
  function Max<T>(data: seq<T>, n: int, key: T -> Option<real>): (r: Result<seq<T>>)
    ensures r.Err? <==> |data| >= 2 && exists i :: 0 <= i < |data| && key(data[i]).None?
    ensures r.Err? ==> r.error == TypeError
    ensures r.Ok? ==> |r.value| == SliceLen(|data|, n)
  {
    if |data| >= 2 && exists i :: 0 <= i < |data| && key(data[i]).None? then Err(TypeError)
    else
      SortDescMultiset(data, Rank(key));
      assert |SortDesc(data, Rank(key))| == |multiset(data)|;
      Ok(Slice(SortDesc(data, Rank(key)), n))
  }

  /** The result only draws from `data`, and never repeats an element `data` does not repeat. */
  lemma MaxDrawsFromData<T>(data: seq<T>, n: int, key: T -> Option<real>)
    requires Max(data, n, key).Ok?
    ensures multiset(Max(data, n, key).value) <= multiset(data)
    ensures Distinct(data) ==> Distinct(Max(data, n, key).value)
  {
    var sorted := SortDesc(data, Rank(key));
    SortDescMultiset(data, Rank(key));
    var r := Max(data, n, key).value;
    assert sorted == r + sorted[|r|..];
    if Distinct(data) { SortDescDistinct(data, Rank(key)); }
  }

  /**
   * The keys of `s` do not increase, and are all numbers once there are two
   * elements to compare (a lone element is never compared, whatever its key).
   */
  ghost predicate KeysDescending<T>(s: seq<T>, key: T -> Option<real>) {
    (|s| >= 2 ==> forall i :: 0 <= i < |s| ==> key(s[i]).Some?) && Descending(s, Rank(key))
  }

  /** The keys of the result are numbers and do not increase. */
  lemma MaxOrdered<T>(data: seq<T>, n: int, key: T -> Option<real>)
    requires Max(data, n, key).Ok?
    ensures KeysDescending(Max(data, n, key).value, key)
  {
    var sorted := SortDesc(data, Rank(key));
    SortDescMultiset(data, Rank(key));
    SortDescDescending(data, Rank(key));
    var r := Max(data, n, key).value;
    if |r| >= 2 {
      forall i | 0 <= i < |r| ensures key(r[i]).Some? {
        assert r[i] == sorted[i] && r[i] in multiset(data);
        var a :| 0 <= a < |data| && data[a] == r[i];
      }
    }
  }

  /**
   * Ties are stable: among elements with the same key, the result holds the
   * first ones in input order.
   */
  lemma MaxStable<T>(data: seq<T>, n: int, key: T -> Option<real>, v: real)
    requires Max(data, n, key).Ok?
    ensures KeyFilter(Max(data, n, key).value, Rank(key), v) <= KeyFilter(data, Rank(key), v)
  {
    var sorted := SortDesc(data, Rank(key));
    SortDescStable(data, Rank(key), v);
    FilterPrefix(Max(data, n, key).value, sorted, Rank(key), v);
  }

  lemma {:induction false} FilterPrefix<T>(a: seq<T>, b: seq<T>, key: T -> real, v: real)
    requires a <= b
    ensures KeyFilter(a, key, v) <= KeyFilter(b, key, v)
  {
    if a != [] {
      FilterPrefix(a[1..], b[1..], key, v);
    }
  }

  /** Every element left out has a key no greater than the last one kept. */
  lemma MaxCutoff<T>(data: seq<T>, n: int, key: T -> Option<real>, x: T)
    requires Max(data, n, key).Ok? && |Max(data, n, key).value| > 0
    requires multiset(Max(data, n, key).value)[x] < multiset(data)[x]
    ensures key(x).Some? && key(Max(data, n, key).value[|Max(data, n, key).value| - 1]).Some?
    ensures key(x).value <= key(Max(data, n, key).value[|Max(data, n, key).value| - 1]).value
  {
    var sorted := SortDesc(data, Rank(key));
    SortDescMultiset(data, Rank(key));
    SortDescDescending(data, Rank(key));
    var r := Max(data, n, key).value;
    var m := |r|;
    assert sorted == r + sorted[m..];
    assert multiset(sorted) == multiset(r) + multiset(sorted[m..]);
    assert x in multiset(sorted[m..]);
    var i :| m <= i < |sorted| && sorted[i] == x;
    assert |data| >= 2;
    assert r[m - 1] == sorted[m - 1];
    assert x in multiset(data) && r[m - 1] in multiset(data);
  }

  lemma {:induction false} InsertFrontCongruent<T>(x: T, s: seq<T>, k1: T -> real, k2: T -> real)
    requires k1(x) == k2(x) && forall i :: 0 <= i < |s| ==> k1(s[i]) == k2(s[i])
    ensures InsertFront(x, s, k1) == InsertFront(x, s, k2)
  {
    if s != [] {
      InsertFrontCongruent(x, s[1..], k1, k2);
    }
  }

  lemma {:induction false} SortDescCongruent<T>(s: seq<T>, k1: T -> real, k2: T -> real)
    requires forall i :: 0 <= i < |s| ==> k1(s[i]) == k2(s[i])
    ensures SortDesc(s, k1) == SortDesc(s, k2)
  {
    if s != [] {
      SortDescCongruent(s[1..], k1, k2);
      var rest := SortDesc(s[1..], k1);
      SortDescMultiset(s[1..], k1);
      forall i | 0 <= i < |rest| ensures k1(rest[i]) == k2(rest[i]) {
        assert rest[i] in multiset(s[1..]);
        var j :| 0 <= j < |s[1..]| && s[1..][j] == rest[i];
        assert s[1..][j] == s[j + 1];
      }
      InsertFrontCongruent(s[0], rest, k1, k2);
    }
  }

  /** `_max` looks at nothing but the keys of the elements of `data`. */
  lemma MaxCongruent<T>(data: seq<T>, n: int, k1: T -> Option<real>, k2: T -> Option<real>)
    requires forall i :: 0 <= i < |data| ==> k1(data[i]) == k2(data[i])
    ensures Max(data, n, k1) == Max(data, n, k2)
  {
    forall i | 0 <= i < |data| ensures Rank(k1)(data[i]) == Rank(k2)(data[i]) {
    }
    SortDescCongruent(data, Rank(k1), Rank(k2));
  }
}
