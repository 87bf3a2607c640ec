/** Python's `dict` with string keys: an association list that keeps insertion order
    (rendering depends on it) and never holds a key twice. Python compares dicts as
    mappings, ignoring order; `AsMap` gives that view. */
module Dicts {

  datatype Option<+T> = None | Some(value: T)

  predicate DistinctKeys<V>(s: seq<(string, V)>)
  {
    forall i, j :: 0 <= i < j < |s| ==> s[i].0 != s[j].0
  }

  type Dict<V> = s: seq<(string, V)> | DistinctKeys(s) witness []

  /** `list(d.keys())`. */
  function Keys<V>(d: seq<(string, V)>): (ks: seq<string>)
    ensures |ks| == |d| && forall i :: 0 <= i < |d| ==> ks[i] == d[i].0
    decreases |d|
  {
    if |d| == 0 then [] else [d[0].0] + Keys(d[1..])
  }

  /** `set(d.keys())`. */
  function KeySet<V>(d: seq<(string, V)>): set<string>
  {
    set i | 0 <= i < |d| :: d[i].0
  }

  /** `d.get(k)`, with `None` for a missing key. */
  function Lookup<V>(d: seq<(string, V)>, k: string): Option<V>
    decreases |d|
  {
    if |d| == 0 then None
    else if d[0].0 == k then Some(d[0].1)
    else Lookup(d[1..], k)
  }

  /** In a dict, looking up the i-th key finds the i-th value. */
  lemma {:induction false} LookupAt<V>(d: Dict<V>, i: nat)
    requires i < |d|
    ensures Lookup(d, d[i].0) == Some(d[i].1)
    decreases i
  {
    if i > 0 {
      var t: Dict<V> := d[1..];
      assert t[i - 1] == d[i];
      LookupAt(t, i - 1);
    }
  }

  /** A key is found exactly when it is one of the keys. */
  lemma {:induction false} LookupFound<V>(d: seq<(string, V)>, k: string)
    ensures Lookup(d, k).Some? <==> k in KeySet(d)
    ensures Lookup(d, k).Some? ==> exists i :: 0 <= i < |d| && d[i] == (k, Lookup(d, k).value)
    decreases |d|
  {
    if |d| > 0 {
      LookupFound(d[1..], k);
      if d[0].0 != k {
        if k in KeySet(d) {
          var i :| 0 <= i < |d| && d[i].0 == k;
          assert d[1..][i - 1].0 == k;
        }
        if Lookup(d, k).Some? {
          var j :| 0 <= j < |d| - 1 && d[1..][j] == (k, Lookup(d, k).value);
          assert d[j + 1] == (k, Lookup(d, k).value);
        }
      }
    }
  }

  /** The mapping a dict stands for: what Python's `==` on dicts compares. */
  function AsMap<V>(d: seq<(string, V)>): map<string, V>
    decreases |d|
  {
    if |d| == 0 then map[] else AsMap(d[1..])[d[0].0 := d[0].1]
  }

  lemma {:induction false} AsMapLookup<V>(d: seq<(string, V)>, k: string)
    ensures k in AsMap(d) <==> Lookup(d, k).Some?
    ensures k in AsMap(d) ==> AsMap(d)[k] == Lookup(d, k).value
    decreases |d|
  {
    if |d| > 0 {
      AsMapLookup(d[1..], k);
    }
  }

  /** Two dicts whose every lookup agrees are equal as mappings. */
  lemma SameLookupsSameMap<V>(a: seq<(string, V)>, b: seq<(string, V)>)
    requires forall k :: Lookup(a, k) == Lookup(b, k)
    ensures AsMap(a) == AsMap(b)
  {
    forall k
      ensures k in AsMap(a) <==> k in AsMap(b)
      ensures k in AsMap(a) ==> AsMap(a)[k] == AsMap(b)[k]
    {
      AsMapLookup(a, k);
      AsMapLookup(b, k);
    }
  }

  /** Two dicts equal as mappings agree on every lookup. */
  lemma SameMapSameLookups<V>(a: seq<(string, V)>, b: seq<(string, V)>, k: string)
    requires AsMap(a) == AsMap(b)
    ensures Lookup(a, k) == Lookup(b, k)
  {
    AsMapLookup(a, k);
    AsMapLookup(b, k);
  }

  /** Python's truthiness of a dict: an empty dict is the only one that maps nothing. */
  lemma {:induction false} EmptyIffNoMapping<V>(d: seq<(string, V)>)
    ensures |d| == 0 <==> AsMap(d) == map[]
  {
    if |d| > 0 {
      AsMapLookup(d, d[0].0);
    }
  }

  /** Where a key sits. */
  function IndexOf<V>(d: seq<(string, V)>, k: string): (i: nat)
    requires k in KeySet(d)
    ensures i < |d| && d[i].0 == k
    decreases |d|
  {
    if d[0].0 == k then 0
    else
      assert k in KeySet(d[1..]) by {
        var j :| 0 <= j < |d| && d[j].0 == k;
        assert d[1..][j - 1].0 == k;
      }
      1 + IndexOf(d[1..], k)
  }

  /** `d[k] = v`: an existing key keeps its place and takes the new value; a new key
      goes at the end. */
  function Insert<V>(d: Dict<V>, k: string, v: V): (r: Dict<V>)
    ensures Keys(r) == if k in KeySet(d) then Keys(d) else Keys(d) + [k]
  {
    if k in KeySet(d) then
      var i := IndexOf(d, k);
      var r := d[i := (k, v)];
      assert forall j :: 0 <= j < |r| ==> r[j].0 == d[j].0;
      r
    else
      var r := d + [(k, v)];
      assert forall j :: 0 <= j < |d| ==> d[j].0 != k;
      r
  }

  /** After `d[k] = v`, `k` maps to `v` and every other key as before. */
  lemma InsertLookup<V>(d: Dict<V>, k: string, v: V)
    ensures Lookup(Insert(d, k, v), k) == Some(v)
    ensures forall k' :: k' != k ==> Lookup(Insert(d, k, v), k') == Lookup(d, k')
  {
    var r := Insert(d, k, v);
    var i := if k in KeySet(d) then IndexOf(d, k) else |d|;
    assert r[i] == (k, v);
    LookupAt(r, i);
    forall k' | k' != k ensures Lookup(r, k') == Lookup(d, k') {
      LookupFound(d, k');
      LookupFound(r, k');
      if k' in KeySet(d) {
        var j := IndexOf(d, k');
        assert r[j] == d[j];
        LookupAt(d, j);
        LookupAt(r, j);
      } else {
        assert forall j :: 0 <= j < |r| ==> r[j].0 != k';
      }
    }
  }

  /** `d.update(e)`: inserts the entries of `e` one by one, in order. */
  function Update<V>(d: Dict<V>, e: Dict<V>): Dict<V>
    decreases |e|
  {
    if |e| == 0 then d else Update(Insert(d, e[0].0, e[0].1), e[1..])
  }

  /** After `d.update(e)` a key maps to its value in `e` when it has one there, and to
      its value in `d` otherwise; the keys of `d` keep their places at the front. */
  lemma {:induction false} UpdateLookup<V>(d: Dict<V>, e: Dict<V>)
    ensures forall k :: Lookup(Update(d, e), k) == if Lookup(e, k).Some? then Lookup(e, k) else Lookup(d, k)
    ensures |Update(d, e)| >= |d| && Keys(Update(d, e))[..|d|] == Keys(d)
    decreases |e|
  {
    if |e| > 0 {
      var d' := Insert(d, e[0].0, e[0].1);
      var t: Dict<V> := e[1..];
      UpdateLookup(d', t);
      InsertLookup(d, e[0].0, e[0].1);
      LookupFound(t, e[0].0);
      assert e[0].0 !in KeySet(t);
      assert Keys(d')[..|d|] == Keys(d);
      assert Keys(Update(d', t))[..|d|] == Keys(Update(d', t))[..|d'|][..|d|];
    }
  }

  /** As mappings, `d.update(e)` is `d` overridden by `e`. */
  lemma UpdateAsMap<V>(d: Dict<V>, e: Dict<V>)
    ensures AsMap(Update(d, e)) == AsMap(d) + AsMap(e)
  {
    UpdateLookup(d, e);
    forall k ensures k in AsMap(Update(d, e)) <==> k in AsMap(d) + AsMap(e) {
      AsMapLookup(Update(d, e), k);
      AsMapLookup(d, k);
      AsMapLookup(e, k);
    }
    forall k | k in AsMap(Update(d, e)) ensures AsMap(Update(d, e))[k] == (AsMap(d) + AsMap(e))[k] {
      AsMapLookup(Update(d, e), k);
      AsMapLookup(d, k);
      AsMapLookup(e, k);
    }
  }

  /** `d.update(e)` is empty only when both are. */
  lemma UpdateEmpty<V>(d: Dict<V>, e: Dict<V>)
    ensures |Update(d, e)| == 0 <==> |d| == 0 && |e| == 0
  {
    UpdateLookup(d, e);
    if |e| > 0 {
      LookupAt(e, 0);
      assert Lookup(Update(d, e), e[0].0).Some?;
    }
  }

  /** `{n: v for n in keys}`: a repeated key keeps its first place. */
  function FromKeys<V>(keys: seq<string>, v: V): (r: Dict<V>)
    ensures forall k :: Lookup(r, k) == if k in keys then Some(v) else None
    ensures forall i :: 0 <= i < |r| ==> r[i].1 == v
    decreases |keys|
  {
    if |keys| == 0 then []
    else
      var front := FromKeys(keys[..|keys| - 1], v);
      var r := Insert(front, keys[|keys| - 1], v);
      InsertLookup(front, keys[|keys| - 1], v);
      assert keys == keys[..|keys| - 1] + [keys[|keys| - 1]];
      assert forall i :: 0 <= i < |r| ==> Lookup(r, r[i].0) == Some(r[i].1) by {
        forall i | 0 <= i < |r| ensures Lookup(r, r[i].0) == Some(r[i].1) { LookupAt(r, i); }
      }
      r
  }

  predicate Distinct(s: seq<string>)
  {
    forall i, j :: 0 <= i < j < |s| ==> s[i] != s[j]
  }

  /** Without repeated names, `FromKeys` keeps the names in the given order. */
  lemma {:induction false} FromKeysOrder<V>(keys: seq<string>, v: V)
    requires Distinct(keys)
    ensures Keys(FromKeys(keys, v)) == keys
    decreases |keys|
  {
    if |keys| > 0 {
      var init := keys[..|keys| - 1];
      FromKeysOrder(init, v);
      var front := FromKeys(init, v);
      LookupFound(front, keys[|keys| - 1]);
      assert keys[|keys| - 1] !in init;
      assert init + [keys[|keys| - 1]] == keys;
    }
  }

  function Min(a: nat, b: nat): nat { if a <= b then a else b }

  /** `dict(zip(d.keys(), values))`: pairs the keys of `d` in order with the values,
      stopping at the shorter of the two. */
  function Zip<V, W>(d: Dict<V>, values: seq<W>): (r: Dict<W>)
    ensures |r| == Min(|d|, |values|)
    ensures forall i :: 0 <= i < |r| ==> r[i] == (d[i].0, values[i])
  {
    seq(Min(|d|, |values|), i requires 0 <= i < Min(|d|, |values|) => (d[i].0, values[i]))
  }
}
