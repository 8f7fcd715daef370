/**
 * An insertion-ordered dictionary, as a Python `dict`: the keys in the order of
 * their first insertion, and the mapping itself. Assigning to a key that is
 * already present changes its value and keeps its position; a new key goes last.
 */
module Dicts {
  import opened Seqs

  datatype Dict<K(!new), V> = Dict(order: seq<K>, values: map<K, V>) {

    /** Every key appears once in `order`, and `order` lists exactly the mapped keys. */
    ghost predicate Valid() {
      Distinct(order) && forall k :: k in values <==> k in order
    }

    /** `d.get(k, default)` */
    function Get(k: K, default: V): V {
      if k in values then values[k] else default
    }

    /** `d[k] = v` */
    function Put(k: K, v: V): (r: Dict<K, V>)
      requires Valid()
      ensures r.Valid()
      ensures r.values == values[k := v]
      ensures r.order == if k in values then order else order + [k]
    {
      if k in values then Dict(order, values[k := v]) else Dict(order + [k], values[k := v])
    }

    /** The sum of `f` over the values, in key order. */
    function Sum(f: V -> int): int
      requires Valid()
    {
      SumOver(order, values, f)
    }
  }

  function Empty<K(!new), V>(): (r: Dict<K, V>)
    ensures r.Valid() && r.order == []
  {
    Dict([], map[])
  }

  function SumOver<K, V>(ks: seq<K>, m: map<K, V>, f: V -> int): int
    requires forall k :: k in ks ==> k in m
    decreases |ks|
  {
    if ks == [] then 0
    else
      var init := ks[..|ks| - 1];
      assert forall k :: k in init ==> k in ks;
      SumOver(init, m, f) + f(m[ks[|ks| - 1]])
  }

  /** Changing the value of a key outside `ks` leaves the sum over `ks` alone. */
  lemma {:induction false} SumOverOther<K, V>(ks: seq<K>, m: map<K, V>, f: V -> int, k: K, v: V)
    requires forall j :: j in ks ==> j in m
    requires k !in ks
    ensures SumOver(ks, m[k := v], f) == SumOver(ks, m, f)
    decreases |ks|
  {
    if ks != [] {
      var init := ks[..|ks| - 1];
      assert forall j :: j in init ==> j in ks;
      SumOverOther(init, m, f, k, v);
    }
  }

  /** Changing the value of a key listed once in `ks` changes the sum by the difference. */
  lemma {:induction false} SumOverUpdate<K, V>(ks: seq<K>, m: map<K, V>, f: V -> int, k: K, v: V)
    requires forall j :: j in ks ==> j in m
    requires Distinct(ks) && k in ks
    ensures SumOver(ks, m[k := v], f) == SumOver(ks, m, f) - f(m[k]) + f(v)
    decreases |ks|
  {
    var init := ks[..|ks| - 1];
    assert forall j :: j in init ==> j in ks;
    assert ks == init + [ks[|ks| - 1]];
    if ks[|ks| - 1] == k {
      assert k !in init by {
        forall i | 0 <= i < |init| ensures init[i] != k {
          assert init[i] == ks[i];
        }
      }
      SumOverOther(init, m, f, k, v);
    } else {
      assert Distinct(init) by {
        forall i, j | 0 <= i < j < |init| ensures init[i] != init[j] {
          assert init[i] == ks[i] && init[j] == ks[j];
        }
      }
      SumOverUpdate(init, m, f, k, v);
    }
  }

  /** `d[k] = v` changes the sum by replacing the old value of `k` (none if absent) with `v`. */
  lemma SumPut<K(!new), V>(d: Dict<K, V>, k: K, v: V, f: V -> int)
    requires d.Valid()
    ensures d.Put(k, v).Sum(f) == d.Sum(f) - (if k in d.values then f(d.values[k]) else 0) + f(v)
  {
    var r := d.Put(k, v);
    if k in d.values {
      SumOverUpdate(d.order, d.values, f, k, v);
    } else {
      assert r.order[..|r.order| - 1] == d.order;
      SumOverOther(d.order, d.values, f, k, v);
    }
  }
}
