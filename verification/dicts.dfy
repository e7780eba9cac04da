/**
 * A Python `dict`: a finite map that remembers the order in which its keys
 * were first inserted. Iteration (`items()`, `values()`), `Counter` and
 * directory listings in the sources all depend on that order.
 */
module Dicts {
  import opened Base

  datatype Dict<K(==,!new), V> = Dict(keys: seq<K>, entries: map<K, V>) {

    /** Keys are listed once each, and exactly the keys of `entries` are listed. */
    ghost predicate Valid() {
      && (forall i, j :: 0 <= i < j < |keys| ==> keys[i] != keys[j])
      && (forall k :: k in entries <==> k in keys)
    }

    /** `d.get(k)`. */
    function Get(k: K): (r: Option<V>)
      ensures r.Some? <==> k in entries
      ensures r.Some? ==> r.value == entries[k]
    {
      if k in entries then Some(entries[k]) else None
    }

    /** `d[k] = v`: an existing key keeps its place, a new key goes last. */
    function Put(k: K, v: V): (d: Dict<K, V>)
      requires Valid()
      ensures d.Valid()
      ensures d.entries == entries[k := v]
      ensures k in entries ==> d.keys == keys
      ensures k !in entries ==> d.keys == keys + [k]
    {
      if k in entries then Dict(keys, entries[k := v]) else Dict(keys + [k], entries[k := v])
    }

    /** `d.update(other)`: the keys of `other`, in its order, are set one by one. */
    function Update(other: Dict<K, V>): (d: Dict<K, V>)
      requires Valid() && other.Valid()
      ensures d.Valid()
    {
      UpdatePrefix(this, other, |other.keys|)
    }

    /** `list(d.values())`, in key order. */
    function Values(): (vs: seq<V>)
      requires Valid()
      ensures |vs| == |keys|
      ensures forall i :: 0 <= i < |keys| ==> vs[i] == entries[keys[i]]
    {
      ValuesOf(keys, entries)
    }
  }

  /** `base.update(upd)` restricted to the first `n` keys of `upd`, taken in their order. */
  function UpdatePrefix<K(==,!new), V>(base: Dict<K, V>, upd: Dict<K, V>, n: nat): (r: Dict<K, V>)
    requires base.Valid() && upd.Valid() && n <= |upd.keys|
    ensures r.Valid()
  {
    if n == 0 then base else UpdatePrefix(base, upd, n - 1).Put(upd.keys[n - 1], upd.entries[upd.keys[n - 1]])
  }

  /** After the first `n` keys of `upd`, those keys hold `upd`'s values and every other key of `base` its own. */
  lemma {:induction false} UpdatePrefixAt<K(!new), V>(base: Dict<K, V>, upd: Dict<K, V>, n: nat, k: K)
    requires base.Valid() && upd.Valid() && n <= |upd.keys|
    ensures k in UpdatePrefix(base, upd, n).entries <==> k in base.entries || k in upd.keys[..n]
    ensures k in upd.keys[..n] ==> UpdatePrefix(base, upd, n).entries[k] == upd.entries[k]
    ensures k in base.entries && k !in upd.keys[..n] ==> UpdatePrefix(base, upd, n).entries[k] == base.entries[k]
  {
    if n > 0 {
      var key := upd.keys[n - 1];
      var prev := UpdatePrefix(base, upd, n - 1);
      UpdatePrefixAt(base, upd, n - 1, k);
      assert UpdatePrefix(base, upd, n).entries == prev.entries[key := upd.entries[key]];
      assert upd.keys[..n] == upd.keys[..n - 1] + [key];
      assert k in upd.keys[..n] <==> k in upd.keys[..n - 1] || k == key;
    }
  }

  function ValuesOf<K, V>(ks: seq<K>, m: map<K, V>): (vs: seq<V>)
    requires forall k :: k in ks ==> k in m
    ensures |vs| == |ks|
    ensures forall i :: 0 <= i < |ks| ==> vs[i] == m[ks[i]]
  {
    if ks == [] then [] else ValuesOf(ks[..|ks| - 1], m) + [m[ks[|ks| - 1]]]
  }

  /** After `base.update(upd)`, the keys of `upd` hold its values and every other key keeps its own. */
  lemma UpdateAt<K(!new), V>(base: Dict<K, V>, upd: Dict<K, V>, k: K)
    requires base.Valid() && upd.Valid()
    ensures k in base.Update(upd).entries <==> k in base.entries || k in upd.entries
    ensures k in upd.entries ==> base.Update(upd).entries[k] == upd.entries[k]
    ensures k in base.entries && k !in upd.entries ==> base.Update(upd).entries[k] == base.entries[k]
  {
    UpdatePrefixAt(base, upd, |upd.keys|, k);
    assert upd.keys[..|upd.keys|] == upd.keys;
  }

  /** The dict built by setting `ks[i]` to `vs[i]` for each `i` in turn. */
  function FromPairs<K(==,!new), V>(ks: seq<K>, vs: seq<V>): (d: Dict<K, V>)
    requires |ks| == |vs|
    ensures d.Valid()
  {
    if ks == [] then Empty() else FromPairs(ks[..|ks| - 1], vs[..|vs| - 1]).Put(ks[|ks| - 1], vs[|vs| - 1])
  }

  lemma FromPairsSnoc<K(!new), V>(ks: seq<K>, vs: seq<V>, k: K, v: V)
    requires |ks| == |vs|
    ensures FromPairs(ks + [k], vs + [v]) == FromPairs(ks, vs).Put(k, v)
  {
    assert (ks + [k])[..|ks|] == ks;
    assert (vs + [v])[..|vs|] == vs;
  }

  /** From distinct keys, the dict lists the keys in their order, each with its own value. */
  lemma {:induction false} FromPairsSpec<K(!new), V>(ks: seq<K>, vs: seq<V>)
    requires |ks| == |vs| && NoDup(ks)
    ensures FromPairs(ks, vs).keys == ks
    ensures forall i :: 0 <= i < |ks| ==> FromPairs(ks, vs).entries[ks[i]] == vs[i]
  {
    if ks != [] {
      var p := ks[..|ks| - 1];
      FromPairsSpec(p, vs[..|vs| - 1]);
      assert ks[|ks| - 1] !in p;
      LastSplit(ks);
    }
  }

  function Empty<K(==,!new), V>(): (d: Dict<K, V>)
    ensures d.Valid() && d.keys == [] && d.entries == map[]
  {
    Dict([], map[])
  }
}
