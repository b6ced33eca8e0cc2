/**
 * Python's `dict`: a finite map that remembers the order in which its keys
 * were first inserted. Iterating over a dict yields `order`; assigning to a key
 * already present replaces its value and leaves its position alone.
 */
module PyDict {

  datatype Dict<K(==), V> = Dict(order: seq<K>, items: map<K, V>) {

    /** Each key occurs once in `order`, and `order` lists exactly the keys of `items`. */
    ghost predicate Valid() {
      && (forall i, j :: 0 <= i < j < |order| ==> order[i] != order[j])
      && items.Keys == (set k | k in order)
    }

    /** The two directions of "`order` lists exactly the keys of `items`". */
    lemma OrderInItems()
      requires Valid()
      ensures forall i :: 0 <= i < |order| ==> order[i] in items
      ensures forall k | k in items :: k in order
    {
    }
  }

  /** `{}`. */
  function Empty<K(==), V>(): (d: Dict<K, V>)
    ensures d.Valid() && d.items == map[] && d.order == []
  {
    Dict([], map[])
  }

  /** `d[k] = v`. */
  function Set<K(==), V>(d: Dict<K, V>, k: K, v: V): (r: Dict<K, V>)
    requires d.Valid()
    ensures r.Valid()
    ensures r.items == d.items[k := v]
    ensures k in d.items ==> r.order == d.order
    ensures k !in d.items ==> r.order == d.order + [k]
  {
    if k in d.items then Dict(d.order, d.items[k := v]) else Dict(d.order + [k], d.items[k := v])
  }

  /** The position of a key in iteration order. */
  function IndexOf<K(==)>(s: seq<K>, k: K): (i: nat)
    requires k in s
    ensures i < |s| && s[i] == k
    ensures forall j :: 0 <= j < i ==> s[j] != k
  {
    if s[0] == k then 0 else 1 + IndexOf(s[1..], k)
  }

  /** Assignment never moves a key that is already present: iteration order is first-insertion order. */
  lemma {:induction false} SetKeepsPositions<K, V>(d: Dict<K, V>, k: K, v: V, x: K)
    requires d.Valid() && x in d.items
    ensures x in Set(d, k, v).order
    ensures IndexOf(Set(d, k, v).order, x) == IndexOf(d.order, x)
  {
    var r := Set(d, k, v);
    var i := IndexOf(d.order, x);
    assert r.order[..|d.order|] == d.order;
    assert r.order[i] == x;
    IndexOfUnique(r.order, x, i);
  }

  /** In a sequence, the first position holding `k` is any position before which `k` does not occur. */
  lemma {:induction false} IndexOfUnique<K>(s: seq<K>, k: K, i: nat)
    requires i < |s| && s[i] == k
    requires forall j :: 0 <= j < i ==> s[j] != k
    ensures IndexOf(s, k) == i
  {
    if i > 0 {
      assert s[0] != k;
      IndexOfUnique(s[1..], k, i - 1);
    }
  }
}
