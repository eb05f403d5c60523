/** Weighted sums over a cart's quantity table: the cart's `count` is the sum of its
    quantities (every unit weighs 1) and its `total` the sum of quantity times price. */
module Tally {

  type ProductId = string

  /** Some key of a non-empty key set; every sum below takes its keys off in this order. */
  ghost function Pick(keys: set<ProductId>): (k: ProductId)
    requires keys != {}
    ensures k in keys
  {
    var k :| k in keys; k
  }

  /** The sum of m[k] * w(k) over all keys k of m. */
  ghost function Weighted(m: map<ProductId, int>, w: ProductId -> int): int
    decreases |m|
  {
    if m == map[] then 0
    else
      var k := Pick(m.Keys);
      assert (m - {k}).Keys == m.Keys - {k};
      m[k] * w(k) + Weighted(m - {k}, w)
  }

  /** The quantity recorded for p, or 0 when the table has no entry for it. */
  function Entry(m: map<ProductId, int>, p: ProductId): int
  {
    if p in m then m[p] else 0
  }

  /** The weight of a unit of quantity when counting items. */
  function Unit(p: ProductId): int { 1 }

  /** Any key can be taken off first, whatever order Weighted itself uses. */
  lemma {:induction false} WeightedRemove(m: map<ProductId, int>, k: ProductId, w: ProductId -> int)
    requires k in m
    ensures Weighted(m, w) == m[k] * w(k) + Weighted(m - {k}, w)
    decreases |m|
  {
    var j := Pick(m.Keys);
    assert (m - {j}).Keys == m.Keys - {j};
    if j != k {
      assert (m - {k}).Keys == m.Keys - {k};
      WeightedRemove(m - {j}, k, w);
      WeightedRemove(m - {k}, j, w);
      assert m - {j} - {k} == m - {k} - {j};
    }
  }

  /** Deleting the entry for p lowers the sum by that entry's weight. */
  lemma WeightedDelete(m: map<ProductId, int>, p: ProductId, w: ProductId -> int)
    ensures Weighted(m - {p}, w) == Weighted(m, w) - Entry(m, p) * w(p)
  {
    if p in m {
      WeightedRemove(m, p, w);
    } else {
      assert m - {p} == m;
    }
  }

  /** Setting the entry for p to v moves the sum by the change in that entry times its weight. */
  lemma WeightedSet(m: map<ProductId, int>, p: ProductId, v: int, w: ProductId -> int)
    ensures Weighted(m[p := v], w) == Weighted(m, w) + (v - Entry(m, p)) * w(p)
  {
    WeightedRemove(m[p := v], p, w);
    assert m[p := v] - {p} == m - {p};
    WeightedDelete(m, p, w);
    assert (v - Entry(m, p)) * w(p) == v * w(p) - Entry(m, p) * w(p);
  }
}
