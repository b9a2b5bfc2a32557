/**
 * What `ClubMember.flatten_dict` computes. The function Flatten follows the
 * source step by step: it flattens each nested object into a dict of its own
 * before splicing that dict's pairs into the enclosing list. Leaves is an
 * independent reference: every (path, leaf) pair in depth-first order, with no
 * deduplication. The two agree as mappings (FlattenMatchesLeaves).
 */
module Flattening {
  import opened JsonValues
  import opened Dicts

  /** The key an entry k gets under parent: the joined path, or k alone when parent is empty. */
  function Join(parent: string, k: string, sep: string): (r: string)
    ensures parent != "" ==> parent + sep <= r && r[|parent + sep|..] == k
    ensures parent == "" ==> r == k
  {
    if parent != "" then parent + sep + k else k
  }

  /** The items list of `flatten_dict(d, parent, sep)` after its loop has visited the first n entries. */
  function ItemsUpTo(d: Items, parent: string, sep: string, n: nat): (r: Items)
    requires n <= |d|
    decreases JObj(d), n
  {
    if n == 0 then []
    else
      var (k, v) := d[n - 1];
      var key := Join(parent, k, sep);
      var prev := ItemsUpTo(d, parent, sep, n - 1);
      if v.JObj? then
        assert d[n - 1] in d;
        var sub := Flatten(v.fields, key, sep);
        prev + sub
      else
        prev + [(key, v)]
  }

  /** `flatten_dict(d, parent, sep)`: the loop's items turned into a dict. */
  function Flatten(d: Items, parent: string, sep: string): (r: Items)
    decreases JObj(d), |d| + 1
  {
    FromItems(ItemsUpTo(d, parent, sep, |d|))
  }

  /** Every pair is a leaf, and under a non-empty parent its path starts with parent + sep. */
  predicate Shaped(r: Items, parent: string, sep: string) {
    forall p | p in r :: !p.1.JObj? && (parent != "" ==> parent + sep <= p.0)
  }

  /** Paths under key = parent + sep + k are also paths under parent. */
  lemma ShapedNested(sub: Items, parent: string, k: string, sep: string)
    requires Shaped(sub, Join(parent, k, sep), sep)
    ensures Shaped(sub, parent, sep)
  {
    if parent != "" {
      var key := Join(parent, k, sep);
      forall p | p in sub ensures parent + sep <= p.0 {
        assert key + sep <= p.0;
      }
    }
  }

  lemma ShapedConcat(a: Items, b: Items, parent: string, sep: string)
    requires Shaped(a, parent, sep) && Shaped(b, parent, sep)
    ensures Shaped(a + b, parent, sep)
  {
    forall p | p in a + b ensures p in a || p in b {
    }
  }

  /** Every pair the loop has collected so far is a leaf under parent. */
  lemma {:induction false} ItemsShape(d: Items, parent: string, sep: string, n: nat)
    requires n <= |d|
    decreases JObj(d), n
    ensures Shaped(ItemsUpTo(d, parent, sep, n), parent, sep)
  {
    if n > 0 {
      ItemsShape(d, parent, sep, n - 1);
      var (k, v) := d[n - 1];
      var key := Join(parent, k, sep);
      var prev := ItemsUpTo(d, parent, sep, n - 1);
      if v.JObj? {
        assert d[n - 1] in d;
        var sub := Flatten(v.fields, key, sep);
        FlattenShape(v.fields, key, sep);
        ShapedNested(sub, parent, k, sep);
        ShapedConcat(prev, sub, parent, sep);
      } else {
        ShapedConcat(prev, [(key, v)], parent, sep);
      }
    }
  }

  /** The result of flattening is a dict of leaves whose paths, under a non-empty parent, start with parent + sep. */
  lemma {:induction false} FlattenShape(d: Items, parent: string, sep: string)
    decreases JObj(d), |d| + 1
    ensures DistinctKeys(Flatten(d, parent, sep))
    ensures Shaped(Flatten(d, parent, sep), parent, sep)
  {
    var items := ItemsUpTo(d, parent, sep, |d|);
    ItemsShape(d, parent, sep, |d|);
    FromItemsDistinctKeys(items);
    FromItemsPairs(items);
  }

  /** An empty object flattens to the empty dict. */
  lemma FlattenEmpty(parent: string, sep: string)
    ensures Flatten([], parent, sep) == []
  {
  }

  /** A single leaf entry flattens to that leaf under its joined path. */
  lemma FlattenOne(k: string, v: Json, parent: string, sep: string)
    requires !v.JObj?
    ensures Flatten([(k, v)], parent, sep) == [(Join(parent, k, sep), v)]
  {
    var d := [(k, v)];
    assert ItemsUpTo(d, parent, sep, 1) == [(Join(parent, k, sep), v)];
    FromItemsDistinct([(Join(parent, k, sep), v)]);
  }

  /** Two leaf entries with different keys flatten to the two leaves under their joined paths, in order. */
  lemma FlattenTwo(k1: string, v1: Json, k2: string, v2: Json, parent: string, sep: string)
    requires k1 != k2 && !v1.JObj? && !v2.JObj?
    ensures Flatten([(k1, v1), (k2, v2)], parent, sep)
         == [(Join(parent, k1, sep), v1), (Join(parent, k2, sep), v2)]
  {
    var d := [(k1, v1), (k2, v2)];
    FlattenFlat(d, parent, sep);
    var r := Prefixed(d, parent, sep);
    assert r == [(Join(parent, k1, sep), v1), (Join(parent, k2, sep), v2)];
  }

  /** A single entry holding an object flattens to that object flattened under the joined path. */
  lemma FlattenNestedOne(k: string, inner: Items, parent: string, sep: string)
    ensures Flatten([(k, JObj(inner))], parent, sep) == Flatten(inner, Join(parent, k, sep), sep)
  {
    var d := [(k, JObj(inner))];
    var sub := Flatten(inner, Join(parent, k, sep), sep);
    assert d[0] in d;
    assert ItemsUpTo(d, parent, sep, 1) == [] + sub;
    assert [] + sub == sub;
    FlattenShape(inner, Join(parent, k, sep), sep);
    FromItemsDistinct(sub);
  }

  /** Reference: the (path, leaf) pairs of the first n entries of d, depth first, duplicates kept. */
  function LeavesUpTo(d: Items, parent: string, sep: string, n: nat): (r: Items)
    requires n <= |d|
    decreases JObj(d), n
  {
    if n == 0 then []
    else
      var (k, v) := d[n - 1];
      var key := Join(parent, k, sep);
      if v.JObj? then
        assert d[n - 1] in d;
        LeavesUpTo(d, parent, sep, n - 1) + LeavesUpTo(v.fields, key, sep, |v.fields|)
      else
        LeavesUpTo(d, parent, sep, n - 1) + [(key, v)]
  }

  function Leaves(d: Items, parent: string, sep: string): Items {
    LeavesUpTo(d, parent, sep, |d|)
  }

  /** One step of both loops: the pairs that entry n - 1 adds to the items and to the leaves. */
  lemma StepTails(d: Items, parent: string, sep: string, n: nat)
    requires 0 < n <= |d|
    ensures var (k, v) := d[n - 1];
            var key := Join(parent, k, sep);
            if v.JObj? then
              ItemsUpTo(d, parent, sep, n) == ItemsUpTo(d, parent, sep, n - 1) + Flatten(v.fields, key, sep)
              && LeavesUpTo(d, parent, sep, n) == LeavesUpTo(d, parent, sep, n - 1) + LeavesUpTo(v.fields, key, sep, |v.fields|)
            else
              ItemsUpTo(d, parent, sep, n) == ItemsUpTo(d, parent, sep, n - 1) + [(key, v)]
              && LeavesUpTo(d, parent, sep, n) == LeavesUpTo(d, parent, sep, n - 1) + [(key, v)]
  {
  }

  /** Flattening a nested object keeps the mapping of its loop's items. */
  lemma FlattenAsMap(d: Items, parent: string, sep: string)
    ensures AsMap(Flatten(d, parent, sep)) == AsMap(ItemsUpTo(d, parent, sep, |d|))
  {
  }

  /** The loop's items after n entries and the reference leaves of those entries denote the same dict. */
  predicate PrefixMatches(d: Items, parent: string, sep: string, n: nat)
    requires n <= |d|
  {
    AsMap(ItemsUpTo(d, parent, sep, n)) == AsMap(LeavesUpTo(d, parent, sep, n))
  }

  /** Flattening and the reference agree as mappings: the same paths, and on each path the same value. */
  lemma {:induction false} ItemsMatchLeaves(d: Items, parent: string, sep: string, n: nat)
    requires n <= |d|
    decreases JObj(d), n, 1
    ensures PrefixMatches(d, parent, sep, n)
  {
    if n > 0 {
      if d[n - 1].1.JObj? {
        NestedStepMatches(d, parent, sep, n);
      } else {
        LeafStepMatches(d, parent, sep, n);
      }
    }
  }

  /** Entry n - 1 holds a leaf: both sides gain the same pair. */
  lemma {:induction false} LeafStepMatches(d: Items, parent: string, sep: string, n: nat)
    requires 0 < n <= |d| && !d[n - 1].1.JObj?
    decreases JObj(d), n, 0
    ensures PrefixMatches(d, parent, sep, n)
  {
    var (k, v) := d[n - 1];
    var key := Join(parent, k, sep);
    ItemsMatchLeaves(d, parent, sep, n - 1);
    StepTails(d, parent, sep, n);
    AsMapConcatCongruent(ItemsUpTo(d, parent, sep, n - 1), [(key, v)],
                         LeavesUpTo(d, parent, sep, n - 1), [(key, v)]);
  }

  /** Entry n - 1 holds an object: both sides gain the pairs of that object, which agree by induction. */
  lemma {:induction false} NestedStepMatches(d: Items, parent: string, sep: string, n: nat)
    requires 0 < n <= |d| && d[n - 1].1.JObj?
    decreases JObj(d), n, 0
    ensures PrefixMatches(d, parent, sep, n)
  {
    var (k, v) := d[n - 1];
    var key := Join(parent, k, sep);
    assert d[n - 1] in d;
    ItemsMatchLeaves(d, parent, sep, n - 1);
    ItemsMatchLeaves(v.fields, key, sep, |v.fields|);
    StepTails(d, parent, sep, n);
    FlattenAsMap(v.fields, key, sep);
    AsMapConcatCongruent(ItemsUpTo(d, parent, sep, n - 1), Flatten(v.fields, key, sep),
                         LeavesUpTo(d, parent, sep, n - 1), LeavesUpTo(v.fields, key, sep, |v.fields|));
  }

  lemma FlattenMatchesLeaves(d: Items, parent: string, sep: string)
    ensures AsMap(Flatten(d, parent, sep)) == AsMap(Leaves(d, parent, sep))
    ensures KeysOf(Flatten(d, parent, sep)) == KeysOf(Leaves(d, parent, sep))
  {
    ItemsMatchLeaves(d, parent, sep, |d|);
    AsMapKeys(Flatten(d, parent, sep));
    AsMapKeys(Leaves(d, parent, sep));
  }

  /** When two paths give the same key, the leaf visited last is the one kept. */
  lemma LaterVisitWins(d: Items, parent: string, sep: string, j: nat)
    requires j < |Leaves(d, parent, sep)|
    requires forall j' | j < j' < |Leaves(d, parent, sep)| ::
               Leaves(d, parent, sep)[j'].0 != Leaves(d, parent, sep)[j].0
    ensures Leaves(d, parent, sep)[j].0 in AsMap(Flatten(d, parent, sep))
    ensures AsMap(Flatten(d, parent, sep))[Leaves(d, parent, sep)[j].0] == Leaves(d, parent, sep)[j].1
  {
    FlattenMatchesLeaves(d, parent, sep);
    AsMapLast(Leaves(d, parent, sep), j);
  }

  /** An object none of whose values is an object. */
  predicate IsFlat(d: Items) {
    forall i | 0 <= i < |d| :: !d[i].1.JObj?
  }

  /** Every key of d replaced by its joined path under parent. */
  function Prefixed(d: Items, parent: string, sep: string): (r: Items) {
    seq(|d|, i requires 0 <= i < |d| => (Join(parent, d[i].0, sep), d[i].1))
  }

  lemma {:induction false} ItemsOfFlat(d: Items, parent: string, sep: string, n: nat)
    requires n <= |d| && IsFlat(d)
    ensures ItemsUpTo(d, parent, sep, n) == Prefixed(d[..n], parent, sep)
  {
    if n > 0 {
      ItemsOfFlat(d, parent, sep, n - 1);
      assert d[..n][..n - 1] == d[..n - 1];
    }
  }

  /** Flattening an object with no nested objects only renames its keys: `{P + sep + k: v}`, or the object itself when P is empty. */
  lemma FlattenFlat(d: Items, parent: string, sep: string)
    requires IsFlat(d) && DistinctKeys(d)
    ensures Flatten(d, parent, sep) == Prefixed(d, parent, sep)
    ensures parent == "" ==> Flatten(d, parent, sep) == d
  {
    var r := Prefixed(d, parent, sep);
    ItemsOfFlat(d, parent, sep, |d|);
    assert d[..|d|] == d;
    forall i, j | 0 <= i < j < |r| ensures r[i].0 != r[j].0 {
      assert d[i].0 != d[j].0;
      if parent != "" {
        assert r[i].0[|parent + sep|..] == d[i].0;
        assert r[j].0[|parent + sep|..] == d[j].0;
      }
    }
    FromItemsDistinct(r);
  }

  lemma {:induction false} ItemsPrefix(d: Items, e: Items, parent: string, sep: string, n: nat)
    requires n <= |d| && n <= |e| && d[..n] == e[..n]
    ensures ItemsUpTo(d, parent, sep, n) == ItemsUpTo(e, parent, sep, n)
  {
    if n > 0 {
      assert d[n - 1] == d[..n][n - 1] == e[..n][n - 1] == e[n - 1];
      assert d[..n - 1] == d[..n][..n - 1] == e[..n][..n - 1] == e[..n - 1];
      ItemsPrefix(d, e, parent, sep, n - 1);
    }
  }

  /** Concatenation of pair lists is associative. */
  lemma ConcatAssoc(x: Items, y: Items, z: Items)
    ensures (x + y) + z == x + (y + z)
  {
  }

  /** The items of a concatenation are the items of its parts: the loop treats entries one at a time. */
  lemma {:induction false} ItemsConcat(a: Items, b: Items, parent: string, sep: string, m: nat)
    requires m <= |b|
    ensures ItemsUpTo(a + b, parent, sep, |a| + m)
         == ItemsUpTo(a, parent, sep, |a|) + ItemsUpTo(b, parent, sep, m)
  {
    if m == 0 {
      assert (a + b)[..|a|] == a[..|a|];
      ItemsPrefix(a + b, a, parent, sep, |a|);
    } else {
      ItemsConcat(a, b, parent, sep, m - 1);
      var (k, v) := b[m - 1];
      var key := Join(parent, k, sep);
      assert (a + b)[|a| + m - 1] == (k, v);
      var tail := if v.JObj? then Flatten(v.fields, key, sep) else [(key, v)];
      var x, y := ItemsUpTo(a, parent, sep, |a|), ItemsUpTo(b, parent, sep, m - 1);
      calc {
        ItemsUpTo(a + b, parent, sep, |a| + m);
        ItemsUpTo(a + b, parent, sep, |a| + m - 1) + tail;
        (x + y) + tail;
        { ConcatAssoc(x, y, tail); }
        x + (y + tail);
        x + ItemsUpTo(b, parent, sep, m);
      }
    }
  }

  lemma {:induction false} LeavesPrefix(d: Items, e: Items, parent: string, sep: string, n: nat)
    requires n <= |d| && n <= |e| && d[..n] == e[..n]
    ensures LeavesUpTo(d, parent, sep, n) == LeavesUpTo(e, parent, sep, n)
  {
    if n > 0 {
      assert d[n - 1] == d[..n][n - 1] == e[..n][n - 1] == e[n - 1];
      assert d[..n - 1] == d[..n][..n - 1] == e[..n][..n - 1] == e[..n - 1];
      LeavesPrefix(d, e, parent, sep, n - 1);
    }
  }

  lemma {:induction false} LeavesConcat(a: Items, b: Items, parent: string, sep: string, m: nat)
    requires m <= |b|
    ensures LeavesUpTo(a + b, parent, sep, |a| + m)
         == LeavesUpTo(a, parent, sep, |a|) + LeavesUpTo(b, parent, sep, m)
  {
    if m == 0 {
      assert (a + b)[..|a|] == a[..|a|];
      LeavesPrefix(a + b, a, parent, sep, |a|);
    } else {
      LeavesConcat(a, b, parent, sep, m - 1);
      var (k, v) := b[m - 1];
      var key := Join(parent, k, sep);
      assert (a + b)[|a| + m - 1] == (k, v);
      var tail := if v.JObj? then LeavesUpTo(v.fields, key, sep, |v.fields|) else [(key, v)];
      var x, y := LeavesUpTo(a, parent, sep, |a|), LeavesUpTo(b, parent, sep, m - 1);
      calc {
        LeavesUpTo(a + b, parent, sep, |a| + m);
        LeavesUpTo(a + b, parent, sep, |a| + m - 1) + tail;
        (x + y) + tail;
        { ConcatAssoc(x, y, tail); }
        x + (y + tail);
        x + LeavesUpTo(b, parent, sep, m);
      }
    }
  }

  /** An entry holding an empty object adds no items. */
  lemma EmptyEntryItems(x: Items, parent: string, sep: string)
    requires |x| == 1 && x[0].1 == JObj([])
    ensures ItemsUpTo(x, parent, sep, 1) == []
  {
    assert Flatten([], Join(parent, x[0].0, sep), sep) == [];
  }

  /** Dropping an entry that holds an empty object leaves the loop's items unchanged. */
  lemma ItemsSkipEmpty(a: Items, x: Items, b: Items, parent: string, sep: string)
    requires |x| == 1 && x[0].1 == JObj([])
    ensures ItemsUpTo((a + x) + b, parent, sep, |(a + x) + b|) == ItemsUpTo(a + b, parent, sep, |a + b|)
  {
    var ia, ib := ItemsUpTo(a, parent, sep, |a|), ItemsUpTo(b, parent, sep, |b|);
    EmptyEntryItems(x, parent, sep);
    ItemsConcat(a, x, parent, sep, 1);
    assert ia + [] == ia;
    ItemsConcat(a + x, b, parent, sep, |b|);
    ItemsConcat(a, b, parent, sep, |b|);
  }

  /** A nested empty object contributes no key: flattening is as if the entry were absent. */
  lemma EmptyObjectVanishes(d: Items, parent: string, sep: string, i: nat)
    requires i < |d| && d[i].1 == JObj([])
    ensures Flatten(d, parent, sep) == Flatten(d[..i] + d[i + 1..], parent, sep)
  {
    var a, x, b := d[..i], [d[i]], d[i + 1..];
    assert d == (a + x) + b;
    assert d[..i] + d[i + 1..] == a + b;
    ItemsSkipEmpty(a, x, b, parent, sep);
  }

  /** The reference leaves around a non-object entry: those before it, its own, those after it. */
  lemma LeavesAround(d: Items, parent: string, sep: string, i: nat)
    requires i < |d| && !d[i].1.JObj?
    ensures Leaves(d, parent, sep)
         == LeavesUpTo(d[..i + 1], parent, sep, i) + [(Join(parent, d[i].0, sep), d[i].1)]
            + Leaves(d[i + 1..], parent, sep)
  {
    var a, b := d[..i + 1], d[i + 1..];
    assert d == a + b;
    LeavesConcat(a, b, parent, sep, |b|);
    assert a[i] == d[i];
  }

  /**
   * An entry whose value is not an object (a string, number, boolean, null or a
   * whole array) is emitted under its joined path; with an empty parent that path
   * is the key itself. Unless a later entry yields the same path, its value is kept
   * as it is.
   */
  lemma LeafEntryKept(d: Items, parent: string, sep: string, i: nat)
    requires i < |d| && !d[i].1.JObj?
    ensures Join(parent, d[i].0, sep) in AsMap(Flatten(d, parent, sep))
    ensures Join(parent, d[i].0, sep) !in KeysOf(Leaves(d[i + 1..], parent, sep)) ==>
              AsMap(Flatten(d, parent, sep))[Join(parent, d[i].0, sep)] == d[i].1
  {
    LeavesAround(d, parent, sep, i);
    FlattenMatchesLeaves(d, parent, sep);
    AsMapMiddle(LeavesUpTo(d[..i + 1], parent, sep, i), Join(parent, d[i].0, sep), d[i].1,
                Leaves(d[i + 1..], parent, sep));
  }
}
