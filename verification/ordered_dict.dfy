/**
 * Python's `collections.OrderedDict`, as the trace analysis script uses it:
 * keys kept in first-insertion order, assignment to a present key keeps its
 * place, `del` removes one key, and iteration visits the keys in order.
 */
module OrderedDict {

  /** No key occurs twice. */
  ghost predicate Distinct<K>(s: seq<K>)
  {
    forall i, j :: 0 <= i < j < |s| ==> s[i] != s[j]
  }

  /** The keys of s other than k, in order. */
  function Without<K(==)>(s: seq<K>, k: K): seq<K>
  {
    if |s| == 0 then []
    else if s[0] == k then Without(s[1..], k)
    else [s[0]] + Without(s[1..], k)
  }

  /** Removing k keeps every other key, in order, and removes one entry when k occurs once. */
  lemma {:induction false} WithoutKeeps<K(!new)>(s: seq<K>, k: K)
    ensures forall x :: x in Without(s, k) <==> x in s && x != k
    ensures Distinct(s) ==> Distinct(Without(s, k))
    ensures Distinct(s) && k in s ==> |Without(s, k)| == |s| - 1
    ensures k !in s ==> Without(s, k) == s
  {
    if |s| > 0 {
      WithoutKeeps(s[1..], k);
      if s[0] != k {
        var r := Without(s, k);
        assert r == [s[0]] + Without(s[1..], k);
        assert Distinct(s) ==> s[0] !in s[1..];
        if Distinct(s) {
          forall i, j | 0 <= i < j < |r|
            ensures r[i] != r[j]
          {
            if i == 0 {
              assert r[j] in Without(s[1..], k);
            }
          }
        }
      }
      assert s == [s[0]] + s[1..];
    }
  }

  /** An ordered dictionary: the key order and the current value of each key. */
  datatype ODict<K(==, !new), V> = ODict(keys: seq<K>, values: map<K, V>)
  {
    /** Every key appears once in the order, and the order lists exactly the keys. */
    ghost predicate Valid()
    {
      Distinct(keys) && forall k :: k in values <==> k in keys
    }

    /** `d[k] = v`: k takes the new value and every other key keeps its own. */
    function Set(k: K, v: V): (d: ODict<K, V>)
      ensures d.values == values[k := v]
    {
      if k in values then ODict(keys, values[k := v]) else ODict(keys + [k], values[k := v])
    }

    /** `del d[k]` for a present key: k loses its value and every other key keeps its own. */
    function Delete(k: K): (d: ODict<K, V>)
      requires k in values
      ensures d.values == values - {k}
    {
      ODict(Without(keys, k), values - {k})
    }
  }

  /** After `d[k] = v` the dictionary is well formed, and a new key goes last while a present key keeps its place. */
  lemma SetOrder<K(!new), V>(d: ODict<K, V>, k: K, v: V)
    requires d.Valid()
    ensures d.Set(k, v).Valid()
    ensures k in d.values ==> d.Set(k, v).keys == d.keys
    ensures k !in d.values ==> d.Set(k, v).keys == d.keys + [k]
  {
  }

  /** After `del d[k]` the dictionary is well formed, with the other keys in their order, one fewer. */
  lemma DeleteOrder<K(!new), V>(d: ODict<K, V>, k: K)
    requires d.Valid() && k in d.values
    ensures d.Delete(k).Valid()
    ensures d.Delete(k).keys == Without(d.keys, k) && |d.Delete(k).keys| == |d.keys| - 1
  {
    WithoutKeeps(d.keys, k);
  }

  /** `OrderedDict()`. */
  function Empty<K(==, !new), V>(): (d: ODict<K, V>)
    ensures d.Valid() && d.keys == [] && d.values == map[]
  {
    ODict([], map[])
  }

  /** Every listed key has a value. */
  predicate Listed(keys: seq<int>, values: map<int, int>)
  {
    forall i :: 0 <= i < |keys| ==> keys[i] in values
  }

  /** The sum of the values listed under keys, taken in that order; a key without a value adds nothing. */
  function SumOver(keys: seq<int>, values: map<int, int>): int
  {
    if |keys| == 0 then 0
    else
      (if keys[0] in values then values[keys[0]] else 0) + SumOver(keys[1..], values)
  }

  /** The sum of all values of an ordered dictionary. */
  function Total(d: ODict<int, int>): int
  {
    SumOver(d.keys, d.values)
  }

  lemma {:induction false} SumOverAppend(keys: seq<int>, k: int, values: map<int, int>)
    requires Listed(keys, values)
    requires k in values
    ensures SumOver(keys + [k], values) == SumOver(keys, values) + values[k]
    decreases |keys|
  {
    if |keys| > 0 {
      assert (keys + [k])[1..] == keys[1..] + [k];
      SumOverAppend(keys[1..], k, values);
    }
  }

  /** Values outside the listed keys do not matter to the sum. */
  lemma {:induction false} SumOverAgree(keys: seq<int>, values: map<int, int>, other: map<int, int>)
    requires Listed(keys, values) && Listed(keys, other) && forall i :: 0 <= i < |keys| ==> values[keys[i]] == other[keys[i]]
    ensures SumOver(keys, values) == SumOver(keys, other)
    decreases |keys|
  {
    if |keys| > 0 {
      SumOverAgree(keys[1..], values, other);
    }
  }

  /** Changing the value of one listed key changes the sum by the difference. */
  lemma {:induction false} SumOverUpdate(keys: seq<int>, values: map<int, int>, k: int, v: int)
    requires Distinct(keys) && k in keys
    requires Listed(keys, values)
    ensures SumOver(keys, values[k := v]) == SumOver(keys, values) - values[k] + v
    decreases |keys|
  {
    if keys[0] == k {
      assert k !in keys[1..];
      SumOverAgree(keys[1..], values, values[k := v]);
    } else {
      SumOverUpdate(keys[1..], values, k, v);
    }
  }

  /** Removing one listed key removes its value from the sum. */
  lemma {:induction false} SumOverWithout(keys: seq<int>, values: map<int, int>, k: int)
    requires Distinct(keys) && k in keys
    requires Listed(keys, values)
    ensures SumOver(Without(keys, k), values - {k}) == SumOver(keys, values) - values[k]
    decreases |keys|
  {
    if keys[0] == k {
      assert k !in keys[1..];
      WithoutKeeps(keys[1..], k);
      SumOverAgree(keys[1..], values, values - {k});
    } else {
      SumOverWithout(keys[1..], values, k);
    }
  }

  /** Total after `d[k] = v`: the old value of k, if any, is replaced by v. */
  lemma TotalAfterSet(d: ODict<int, int>, k: int, v: int)
    requires d.Valid()
    ensures Total(d.Set(k, v)) == Total(d) - (if k in d.values then d.values[k] else 0) + v
  {
    SetOrder(d, k, v);
    if k in d.values {
      SumOverUpdate(d.keys, d.values, k, v);
    } else {
      SumOverAgree(d.keys, d.values, d.values[k := v]);
      SumOverAppend(d.keys, k, d.values[k := v]);
    }
  }

  /** Total after `del d[k]`: the value of k is gone. */
  lemma TotalAfterDelete(d: ODict<int, int>, k: int)
    requires d.Valid() && k in d.values
    ensures Total(d.Delete(k)) == Total(d) - d.values[k]
  {
    DeleteOrder(d, k);
    SumOverWithout(d.keys, d.values, k);
  }
}
