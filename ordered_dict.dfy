/**
 * A Python dictionary as the tracker uses it: insertion-ordered, with string keys.
 * It is modelled as an association list in insertion order. Item assignment `d[k] = v`
 * is `Put`, item lookup `d[k]` is `Lookup`, and `ToMap` forgets the order.
 */
module OrderedDict {
  import opened Wrappers

  type Dict<V> = seq<(string, V)>

  /** The keys in insertion order, as `d.keys()` lists them. */
  function Keys<V>(d: Dict<V>): seq<string>
  {
    seq(|d|, i requires 0 <= i < |d| => d[i].0)
  }

  /** No key occurs twice, as in every Python dictionary. */
  predicate DistinctKeys<V>(d: Dict<V>)
  {
    forall i, j :: 0 <= i < j < |d| ==> d[i].0 != d[j].0
  }

  /** `d[k]`: the value stored under `k`, or `None` where Python raises `KeyError`. */
  function Lookup<V>(d: Dict<V>, k: string): (r: Option<V>)
    ensures r.Some? <==> k in Keys(d)
    ensures r.Some? ==> (k, r.value) in d
  {
    if d == [] then None
    else
      assert Keys(d) == [d[0].0] + Keys(d[1..]);
      if d[0].0 == k then Some(d[0].1) else Lookup(d[1..], k)
  }

  /** `d[k] = v`: replace the value of an existing key in place, or append a new entry. */
  function Put<V>(d: Dict<V>, k: string, v: V): Dict<V>
  {
    if d == [] then [(k, v)]
    else if d[0].0 == k then [(k, v)] + d[1..]
    else [d[0]] + Put(d[1..], k, v)
  }

  /** The dictionary's contents without its order. */
  function ToMap<V>(d: Dict<V>): map<string, V>
  {
    if d == [] then map[] else ToMap(d[1..])[d[0].0 := d[0].1]
  }

  lemma {:induction false} KeysCons<V>(d: Dict<V>)
    requires d != []
    ensures Keys(d) == [d[0].0] + Keys(d[1..])
  {
  }

  /** Assigning to a key that is present replaces its entry where it stands. */
  lemma {:induction false} PutExisting<V>(d: Dict<V>, k: string, v: V, i: nat)
    requires DistinctKeys(d)
    requires i < |d| && d[i].0 == k
    ensures Put(d, k, v) == d[i := (k, v)]
  {
    if i > 0 {
      assert d[0].0 != k;
      assert DistinctKeys(d[1..]) by {
        forall a, b | 0 <= a < b < |d[1..]| ensures d[1..][a].0 != d[1..][b].0 {
          assert d[1..][a] == d[a + 1] && d[1..][b] == d[b + 1];
        }
      }
      PutExisting(d[1..], k, v, i - 1);
      assert [d[0]] + d[1..][i - 1 := (k, v)] == d[i := (k, v)];
    }
  }

  /** Assigning to a key that is absent appends the entry at the end. */
  lemma {:induction false} PutNew<V>(d: Dict<V>, k: string, v: V)
    requires k !in Keys(d)
    ensures Put(d, k, v) == d + [(k, v)]
  {
    if d != [] {
      KeysCons(d);
      PutNew(d[1..], k, v);
      assert [d[0]] + (d[1..] + [(k, v)]) == d + [(k, v)];
    }
  }

  /** The key order after an assignment: unchanged for a known key, extended otherwise. */
  lemma {:induction false} PutKeys<V>(d: Dict<V>, k: string, v: V)
    ensures Keys(Put(d, k, v)) == if k in Keys(d) then Keys(d) else Keys(d) + [k]
  {
    if d != [] {
      KeysCons(d);
      KeysCons(Put(d, k, v));
      if d[0].0 != k {
        PutKeys(d[1..], k, v);
        assert Keys(Put(d, k, v)) == [d[0].0] + Keys(Put(d[1..], k, v));
      } else {
        assert Put(d, k, v)[1..] == d[1..];
      }
    }
  }

  /** An assignment keeps the keys distinct. */
  lemma PutDistinct<V>(d: Dict<V>, k: string, v: V)
    requires DistinctKeys(d)
    ensures DistinctKeys(Put(d, k, v))
  {
    if k in Keys(d) {
      var i :| 0 <= i < |d| && Keys(d)[i] == k;
      PutExisting(d, k, v, i);
    } else {
      PutNew(d, k, v);
      var e := d + [(k, v)];
      forall a, b | 0 <= a < b < |e| ensures e[a].0 != e[b].0 {
        if b == |d| {
          assert Keys(d)[a] == e[a].0;
        }
      }
    }
  }

  /** After `d[k] = v`, `d[k]` is `v` and every other key reads as before. */
  lemma {:induction false} PutLookup<V>(d: Dict<V>, k: string, v: V, j: string)
    ensures Lookup(Put(d, k, v), k) == Some(v)
    ensures j != k ==> Lookup(Put(d, k, v), j) == Lookup(d, j)
  {
    if d != [] && d[0].0 != k {
      PutLookup(d[1..], k, v, j);
      assert Put(d, k, v)[1..] == Put(d[1..], k, v);
    } else if d != [] {
      assert Put(d, k, v)[1..] == d[1..];
    }
  }

  /** Last write wins: assigning twice to a key is assigning the second value once. */
  lemma {:induction false} PutTwice<V>(d: Dict<V>, k: string, v: V, w: V)
    ensures Put(Put(d, k, v), k, w) == Put(d, k, w)
  {
    if d != [] && d[0].0 != k {
      PutTwice(d[1..], k, v, w);
      assert Put(d, k, v)[1..] == Put(d[1..], k, v);
    } else if d != [] {
      assert Put(d, k, v)[1..] == d[1..];
    }
  }

  /** The ordered lookup agrees with the unordered contents. */
  lemma {:induction false} ToMapLookup<V>(d: Dict<V>, k: string)
    ensures k in ToMap(d) <==> Lookup(d, k).Some?
    ensures k in ToMap(d) ==> ToMap(d)[k] == Lookup(d, k).value
  {
    if d != [] {
      ToMapLookup(d[1..], k);
    }
  }

  /** Item assignment on the ordered dictionary is map update on its contents. */
  lemma {:induction false} PutToMap<V>(d: Dict<V>, k: string, v: V)
    ensures ToMap(Put(d, k, v)) == ToMap(d)[k := v]
  {
    if d != [] {
      if d[0].0 == k {
        assert Put(d, k, v)[1..] == d[1..];
      } else {
        PutToMap(d[1..], k, v);
        assert Put(d, k, v)[1..] == Put(d[1..], k, v);
      }
    }
  }

  /** With distinct keys, the number of entries is the number of distinct names. */
  lemma {:induction false} DistinctKeysCount<V>(d: Dict<V>)
    requires DistinctKeys(d)
    ensures |ToMap(d).Keys| == |d|
  {
    if d != [] {
      var rest := d[1..];
      assert DistinctKeys(rest) by {
        forall a, b | 0 <= a < b < |rest| ensures rest[a].0 != rest[b].0 {
          assert rest[a] == d[a + 1] && rest[b] == d[b + 1];
        }
      }
      DistinctKeysCount(rest);
      ToMapLookup(rest, d[0].0);
      KeysCons(d);
      assert d[0].0 !in Keys(rest) by {
        forall i | 0 <= i < |rest| ensures Keys(rest)[i] != d[0].0 {
          assert rest[i] == d[i + 1];
        }
      }
      assert d[0].0 !in ToMap(rest);
      assert ToMap(d).Keys == ToMap(rest).Keys + {d[0].0};
    }
  }
}
