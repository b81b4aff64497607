/**
 * Insertion-ordered dictionaries with string keys: the shape of a Python `dict`, and of
 * a JavaScript object whose keys are not array indices. (JavaScript enumerates keys
 * such as "0" and "12" first, in ascending numeric order, and only then the others in
 * insertion order.) Assigning to a key that is present keeps its position; a new key
 * goes last.
 */
module Dicts {
  import opened Results

  datatype Entry<V> = Entry(key: string, value: V)

  type Dict<V> = seq<Entry<V>>

  function Keys<V>(d: Dict<V>): seq<string> {
    seq(|d|, i requires 0 <= i < |d| => d[i].key)
  }

  predicate UniqueKeys<V>(d: Dict<V>) {
    forall i, j :: 0 <= i < j < |d| ==> d[i].key != d[j].key
  }

  /** The value stored under `k`, if any (the first entry with that key). */
  function Get<V>(d: Dict<V>, k: string): Option<V> {
    if d == [] then None
    else if d[0].key == k then Some(d[0].value)
    else Get(d[1..], k)
  }

  lemma {:induction false} GetSpec<V>(d: Dict<V>, k: string)
    ensures Get(d, k).None? <==> k !in Keys(d)
    ensures Get(d, k).Some? ==> exists i :: 0 <= i < |d| && d[i] == Entry(k, Get(d, k).value)
  {
    if d != [] {
      assert Keys(d) == [d[0].key] + Keys(d[1..]);
      GetSpec(d[1..], k);
      if d[0].key != k && Get(d, k).Some? {
        var i :| 0 <= i < |d[1..]| && d[1..][i] == Entry(k, Get(d, k).value);
        assert d[i + 1] == d[1..][i];
      }
    }
  }

  lemma GetUnique<V>(d: Dict<V>, i: nat)
    requires UniqueKeys(d) && i < |d|
    ensures Get(d, d[i].key) == Some(d[i].value)
  {
    GetSpec(d, d[i].key);
    assert Keys(d)[i] == d[i].key;
    var j :| 0 <= j < |d| && d[j] == Entry(d[i].key, Get(d, d[i].key).value);
    assert j == i;
  }

  /** `d[k] = v`: an existing key keeps its place and takes the new value, a new key is appended. */
  function Set<V>(d: Dict<V>, k: string, v: V): Dict<V> {
    if d == [] then [Entry(k, v)]
    else if d[0].key == k then [Entry(k, v)] + d[1..]
    else [d[0]] + Set(d[1..], k, v)
  }

  lemma {:induction false} SetNewKey<V>(d: Dict<V>, k: string, v: V)
    requires k !in Keys(d)
    ensures Set(d, k, v) == d + [Entry(k, v)]
  {
    if d != [] {
      assert Keys(d) == [d[0].key] + Keys(d[1..]);
      SetNewKey(d[1..], k, v);
      assert [d[0]] + (d[1..] + [Entry(k, v)]) == d + [Entry(k, v)];
    }
  }

  lemma {:induction false} SetExistingKey<V>(d: Dict<V>, k: string, v: V)
    requires UniqueKeys(d) && k in Keys(d)
    ensures |Set(d, k, v)| == |d|
    ensures forall i :: 0 <= i < |d| ==> Set(d, k, v)[i] == (if d[i].key == k then Entry(k, v) else d[i])
  {
    var r := Set(d, k, v);
    assert Keys(d) == [d[0].key] + Keys(d[1..]);
    if d[0].key == k {
      forall i | 0 < i < |d| ensures d[i].key != k {
        assert d[0].key != d[i].key;
      }
    } else {
      assert UniqueKeys(d[1..]);
      SetExistingKey(d[1..], k, v);
      forall i | 0 <= i < |d| ensures r[i] == (if d[i].key == k then Entry(k, v) else d[i]) {
        if i > 0 {
          assert r[i] == Set(d[1..], k, v)[i - 1];
          assert d[i] == d[1..][i - 1];
        }
      }
    }
  }

  /** The value under a key after `d[k] = v`; the other keys are untouched. */
  lemma {:induction false} SetGet<V>(d: Dict<V>, k: string, v: V, j: string)
    ensures Get(Set(d, k, v), j) == if j == k then Some(v) else Get(d, j)
  {
    if d != [] && d[0].key != k {
      SetGet(d[1..], k, v, j);
      assert Set(d, k, v)[1..] == Set(d[1..], k, v);
    }
  }

  /** The last entry of a dict whose key occurs nowhere before it: found by `Get`, replaced in place by `Set`. */
  lemma {:induction false} LastEntry<V>(d: Dict<V>, k: string, v: V, w: V)
    requires k !in Keys(d)
    ensures Get(d + [Entry(k, v)], k) == Some(v)
    ensures Set(d + [Entry(k, v)], k, w) == d + [Entry(k, w)]
  {
    SetNewKey(d, k, v);
    SetGet(d, k, v, k);
    if d != [] {
      assert Keys(d) == [d[0].key] + Keys(d[1..]);
      assert (d + [Entry(k, v)])[1..] == d[1..] + [Entry(k, v)];
      LastEntry(d[1..], k, v, w);
      assert [d[0]] + (d[1..] + [Entry(k, w)]) == d + [Entry(k, w)];
    }
  }

  lemma SetKeepsUnique<V>(d: Dict<V>, k: string, v: V)
    requires UniqueKeys(d)
    ensures UniqueKeys(Set(d, k, v))
    ensures Keys(Set(d, k, v)) == if k in Keys(d) then Keys(d) else Keys(d) + [k]
  {
    var r := Set(d, k, v);
    if k in Keys(d) {
      SetExistingKey(d, k, v);
      assert Keys(r) == Keys(d);
      forall i, j | 0 <= i < j < |r| ensures r[i].key != r[j].key {
        assert r[i].key == Keys(d)[i] && r[j].key == Keys(d)[j];
      }
    } else {
      SetNewKey(d, k, v);
      assert Keys(r) == Keys(d) + [k];
    }
  }

  /** `del d[k]` / `d.pop(k)` for every entry under `k`: the other entries keep their order. */
  function Remove<V>(d: Dict<V>, k: string): Dict<V> {
    if d == [] then []
    else if d[0].key == k then Remove(d[1..], k)
    else [d[0]] + Remove(d[1..], k)
  }

  lemma {:induction false} RemoveSpec<V>(d: Dict<V>, k: string)
    ensures k !in Keys(Remove(d, k))
    ensures forall j :: j in Keys(Remove(d, k)) ==> j in Keys(d)
    ensures forall j :: j != k ==> Get(Remove(d, k), j) == Get(d, j)
    ensures k !in Keys(d) ==> Remove(d, k) == d
    ensures UniqueKeys(d) ==> UniqueKeys(Remove(d, k))
  {
    if d != [] {
      var rest := Remove(d[1..], k);
      RemoveSpec(d[1..], k);
      assert Keys(d) == [d[0].key] + Keys(d[1..]);
      if d[0].key != k {
        var r := [d[0]] + rest;
        assert r[1..] == rest;
        assert Keys(r) == [d[0].key] + Keys(rest);
        assert k !in Keys(d) ==> r == d by {
          if k !in Keys(d) { assert [d[0]] + d[1..] == d; }
        }
        if UniqueKeys(d) {
          RemoveConsUnique(d, rest);
        }
      }
    }
  }

  /** Putting back the first entry of a dictionary in front of a part of the rest keeps the keys distinct. */
  lemma RemoveConsUnique<V>(d: Dict<V>, rest: Dict<V>)
    requires d != [] && UniqueKeys(d)
    requires UniqueKeys(rest) && forall j :: j in Keys(rest) ==> j in Keys(d[1..])
    ensures UniqueKeys([d[0]] + rest)
  {
    var r := [d[0]] + rest;
    assert Keys(d) == [d[0].key] + Keys(d[1..]);
    assert d[0].key !in Keys(d[1..]) by {
      forall i | 0 <= i < |d[1..]| ensures Keys(d[1..])[i] != d[0].key {
        assert Keys(d[1..])[i] == d[i + 1].key;
      }
    }
    forall j | 0 < j < |r| ensures r[j].key != d[0].key {
      assert r[j].key == Keys(rest)[j - 1];
    }
  }
}
