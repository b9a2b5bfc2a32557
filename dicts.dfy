/**
 * Python's insertion-ordered dict over string keys, as a sequence of pairs.
 * AsMap is the mapping a sequence of pairs denotes when a later pair overrides
 * an earlier one with the same key; the operations below are proved against it.
 */
module Dicts {
  import opened JsonValues

  /** No key occurs twice: what every Python dict satisfies. */
  predicate DistinctKeys(d: Items) {
    forall i, j | 0 <= i < j < |d| :: d[i].0 != d[j].0
  }

  /** The keys that occur in d. */
  function KeysOf(d: Items): set<string> {
    set i | 0 <= i < |d| :: d[i].0
  }

  lemma KeysCons(d: Items)
    requires d != []
    ensures KeysOf(d) == {d[0].0} + KeysOf(d[1..])
  {
    forall k | k in KeysOf(d) ensures k in {d[0].0} + KeysOf(d[1..]) {
      var i :| 0 <= i < |d| && d[i].0 == k;
      if i > 0 { assert d[1..][i - 1].0 == k; }
    }
    forall k | k in KeysOf(d[1..]) ensures k in KeysOf(d) {
      var i :| 0 <= i < |d[1..]| && d[1..][i].0 == k;
      assert d[i + 1].0 == k;
    }
  }

  lemma DistinctCons(d: Items)
    requires d != []
    ensures DistinctKeys(d) <==> DistinctKeys(d[1..]) && d[0].0 !in KeysOf(d[1..])
  {
    if DistinctKeys(d) {
      forall i | 0 <= i < |d[1..]| ensures d[1..][i].0 != d[0].0 {
        assert d[1..][i] == d[i + 1];
      }
    }
    if DistinctKeys(d[1..]) && d[0].0 !in KeysOf(d[1..]) {
      forall i, j | 0 <= i < j < |d| ensures d[i].0 != d[j].0 {
        assert d[j] == d[1..][j - 1];
        if i > 0 { assert d[i] == d[1..][i - 1]; }
      }
    }
  }

  /** The mapping d denotes: a later pair overrides an earlier pair with the same key. */
  function AsMap(d: Items): (m: map<string, Json>)
  {
    if d == [] then map[] else map[d[0].0 := d[0].1] + AsMap(d[1..])
  }

  lemma {:induction false} AsMapKeys(d: Items)
    ensures AsMap(d).Keys == KeysOf(d)
  {
    if d != [] {
      AsMapKeys(d[1..]);
      KeysCons(d);
    }
  }

  /** Map identities used below. */
  lemma UnionAssoc(x: map<string, Json>, y: map<string, Json>, z: map<string, Json>)
    ensures x + (y + z) == (x + y) + z
  {
  }

  lemma UnionSingleton(m: map<string, Json>, k: string, v: Json)
    ensures m + map[k := v] == m[k := v]
  {
  }

  lemma {:induction false} AsMapConcat(a: Items, b: Items)
    ensures AsMap(a + b) == AsMap(a) + AsMap(b)
  {
    if a == [] {
      assert a + b == b;
    } else {
      var head := map[a[0].0 := a[0].1];
      assert AsMap(a + b) == head + AsMap(a[1..] + b) by {
        assert (a + b)[0] == a[0] && (a + b)[1..] == a[1..] + b;
      }
      AsMapConcat(a[1..], b);
      UnionAssoc(head, AsMap(a[1..]), AsMap(b));
    }
  }

  /** The mapping of a sequence with one more pair at the end. */
  lemma AsMapSnoc(d: Items, k: string, v: Json)
    ensures AsMap(d + [(k, v)]) == AsMap(d)[k := v]
  {
    AsMapConcat(d, [(k, v)]);
    assert AsMap([(k, v)]) == map[k := v];
    UnionSingleton(AsMap(d), k, v);
  }

  /** A pair that no later pair overrides gives the value of its key. */
  lemma {:induction false} AsMapLast(d: Items, j: nat)
    requires j < |d|
    requires forall j' | j < j' < |d| :: d[j'].0 != d[j].0
    ensures d[j].0 in AsMap(d) && AsMap(d)[d[j].0] == d[j].1
  {
    if j == 0 {
      forall i | 0 <= i < |d[1..]| ensures d[1..][i].0 != d[0].0 {
        assert d[1..][i] == d[i + 1];
      }
      AsMapKeys(d[1..]);
    } else {
      AsMapLast(d[1..], j - 1);
    }
  }

  /** Concatenations of pair lists with the same mappings have the same mapping. */
  lemma AsMapConcatCongruent(x1: Items, y1: Items, x2: Items, y2: Items)
    requires AsMap(x1) == AsMap(x2) && AsMap(y1) == AsMap(y2)
    ensures AsMap(x1 + y1) == AsMap(x2 + y2)
  {
    AsMapConcat(x1, y1);
    AsMapConcat(x2, y2);
  }

  /** A pair followed by pairs none of which has its key gives that key's value. */
  lemma AsMapMiddle(before: Items, k: string, v: Json, after: Items)
    ensures k in AsMap(before + [(k, v)] + after)
    ensures k !in KeysOf(after) ==> AsMap(before + [(k, v)] + after)[k] == v
  {
    AsMapConcat(before + [(k, v)], after);
    AsMapSnoc(before, k, v);
    AsMapKeys(after);
  }

  /** `d.get(k, default)`: the value stored under k, or default when k is absent. */
  function Get(d: Items, k: string, default: Json): (r: Json)
    ensures k in AsMap(d) ==> r == AsMap(d)[k]
    ensures k !in AsMap(d) ==> r == default
  {
    if d == [] then default
    else
      var n := |d| - 1;
      assert AsMap(d) == AsMap(d[..n])[d[n].0 := d[n].1] by {
        assert d == d[..n] + [(d[n].0, d[n].1)];
        AsMapSnoc(d[..n], d[n].0, d[n].1);
      }
      if d[n].0 == k then d[n].1 else Get(d[..n], k, default)
  }

  /** `d[k] = v`: an existing key keeps its position and takes the new value; a new key goes last. */
  function Put(d: Items, k: string, v: Json): (r: Items)
    ensures KeysOf(r) == KeysOf(d) + {k}
    ensures k !in KeysOf(d) ==> r == d + [(k, v)]
    ensures forall p | p in r :: p in d || p == (k, v)
  {
    if d == [] then
      assert KeysOf([(k, v)]) == {k} by { KeysCons([(k, v)]); }
      [(k, v)]
    else if d[0].0 == k then
      var r := [(k, v)] + d[1..];
      assert r[1..] == d[1..];
      KeysCons(d);
      KeysCons(r);
      r
    else
      var rest := Put(d[1..], k, v);
      var r := [d[0]] + rest;
      assert r[1..] == rest;
      KeysCons(d);
      KeysCons(r);
      assert d == [d[0]] + d[1..];
      r
  }

  /** On a dict, `d[k] = v` keeps the keys distinct. */
  lemma {:induction false} PutDistinct(d: Items, k: string, v: Json)
    requires DistinctKeys(d)
    ensures DistinctKeys(Put(d, k, v))
  {
    if d != [] {
      DistinctCons(d);
      var r := Put(d, k, v);
      if d[0].0 == k {
        assert r[1..] == d[1..];
      } else {
        assert r[1..] == Put(d[1..], k, v);
        PutDistinct(d[1..], k, v);
      }
      DistinctCons(r);
    }
  }

  /** Map identities used when a pair is put into a dict. */
  lemma UpdateFresh(k: string, v: Json, x: Json, tail: map<string, Json>)
    requires k !in tail
    ensures map[k := v] + tail == (map[k := x] + tail)[k := v]
  {
  }
  lemma UpdateBelow(k: string, v: Json, k0: string, x: Json, tail: map<string, Json>)
    requires k != k0
    ensures map[k0 := x] + tail[k := v] == (map[k0 := x] + tail)[k := v]
  {
  }
  /** On a dict, `d[k] = v` maps k to v and leaves every other key as it was. */
  lemma {:induction false} PutAsMap(d: Items, k: string, v: Json)
    requires DistinctKeys(d)
    ensures AsMap(Put(d, k, v)) == AsMap(d)[k := v]
  {
    if d != [] {
      DistinctCons(d);
      var tail := AsMap(d[1..]);
      assert AsMap(d) == map[d[0].0 := d[0].1] + tail;
      if d[0].0 == k {
        var r := [(k, v)] + d[1..];
        assert Put(d, k, v) == r;
        assert r[0] == (k, v) && r[1..] == d[1..];
        assert AsMap(r) == map[k := v] + tail;
        AsMapKeys(d[1..]);
        assert k !in tail;
        UpdateFresh(k, v, d[0].1, tail);
      } else {
        var rest := Put(d[1..], k, v);
        var r := [d[0]] + rest;
        assert Put(d, k, v) == r;
        assert r[0] == d[0] && r[1..] == rest;
        PutAsMap(d[1..], k, v);
        assert AsMap(r) == map[d[0].0 := d[0].1] + tail[k := v];
        UpdateBelow(k, v, d[0].0, d[0].1, tail);
      }
    }
  }

  /** `dict(items)`: the pairs inserted left to right, each with `d[k] = v`. */
  function FromItems(items: Items): (r: Items)
    decreases |items|, 0
    ensures AsMap(r) == AsMap(items)
  {
    if items == [] then []
    else
      var n := |items| - 1;
      var init, k, v := items[..n], items[n].0, items[n].1;
      var prev := FromItems(init);
      assert AsMap(items) == AsMap(init)[k := v] by {
        assert items == init + [(k, v)];
        AsMapSnoc(init, k, v);
      }
      FromItemsDistinctKeys(init);
      PutAsMap(prev, k, v);
      Put(prev, k, v)
  }

  lemma {:induction false} FromItemsDistinctKeys(items: Items)
    decreases |items|, 1
    ensures DistinctKeys(FromItems(items))
  {
    if items != [] {
      var n := |items| - 1;
      FromItemsDistinctKeys(items[..n]);
      PutDistinct(FromItems(items[..n]), items[n].0, items[n].1);
    }
  }

  /** Every pair of the built dict is one of the given pairs. */
  lemma {:induction false} FromItemsPairs(items: Items)
    ensures forall p | p in FromItems(items) :: p in items
  {
    if items != [] {
      var n := |items| - 1;
      var init := items[..n];
      FromItemsPairs(init);
      assert items == init + [items[n]];
      forall p | p in FromItems(items) ensures p in items {
        assert p in FromItems(init) || p == items[n];
      }
    }
  }

  /** Building a dict from pairs whose keys are already distinct keeps them as they are. */
  lemma {:induction false} FromItemsDistinct(items: Items)
    requires DistinctKeys(items)
    ensures FromItems(items) == items
  {
    if items != [] {
      var n := |items| - 1;
      assert DistinctKeys(items[..n]);
      FromItemsDistinct(items[..n]);
      assert items[n].0 !in KeysOf(items[..n]);
      assert items == items[..n] + [items[n]];
    }
  }

  lemma KeysConcat(a: Items, b: Items)
    ensures KeysOf(a + b) == KeysOf(a) + KeysOf(b)
  {
    forall k | k in KeysOf(a + b) ensures k in KeysOf(a) + KeysOf(b) {
      var i :| 0 <= i < |a + b| && (a + b)[i].0 == k;
      if i >= |a| { assert b[i - |a|].0 == k; }
    }
    forall k | k in KeysOf(a) ensures k in KeysOf(a + b) {
      var i :| 0 <= i < |a| && a[i].0 == k;
      assert (a + b)[i].0 == k;
    }
    forall k | k in KeysOf(b) ensures k in KeysOf(a + b) {
      var i :| 0 <= i < |b| && b[i].0 == k;
      assert (a + b)[|a| + i].0 == k;
    }
  }

  /** Pairs drawn from two dicts whose key sets do not meet have distinct keys. */
  lemma ConcatDistinct(a: Items, b: Items)
    requires DistinctKeys(a) && DistinctKeys(b)
    requires KeysOf(a) !! KeysOf(b)
    ensures DistinctKeys(a + b)
  {
    forall i, j | 0 <= i < j < |a + b| ensures (a + b)[i].0 != (a + b)[j].0 {
      if j >= |a| && i < |a| {
        assert (a + b)[i].0 in KeysOf(a);
        assert (a + b)[j] == b[j - |a|];
        assert (a + b)[j].0 in KeysOf(b);
      } else if i >= |a| {
        assert (a + b)[i] == b[i - |a|] && (a + b)[j] == b[j - |a|];
      }
    }
  }
}
