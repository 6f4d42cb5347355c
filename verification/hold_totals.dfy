/** The sum of the per-hold balances of an account, as a specification function.

    The account keeps its aggregate hold balance as a separate number; the
    invariant that ties the two together is stated with `Total`.
 */
module HoldTotals {

  /** Some key of a non-empty map, the one `Total` peels off first. */
  ghost function PickKey<K, V>(m: map<K, V>): (k: K)
    requires m != map[]
    ensures k in m
  {
    var k :| k in m; k
  }

  /** The sum of `weight` over the values of `m`. */
  ghost function Total<K, V>(m: map<K, V>, weight: V -> int): int
    decreases |m|
  {
    if m == map[] then 0
    else
      var k := PickKey(m);
      weight(m[k]) + Total(m - {k}, weight)
  }

  /** Any key can be peeled off first. */
  lemma {:induction false} TotalRemove<K, V>(m: map<K, V>, weight: V -> int, k: K)
    requires k in m
    ensures Total(m, weight) == weight(m[k]) + Total(m - {k}, weight)
    decreases |m|
  {
    var j := PickKey(m);
    if j != k {
      assert (m - {j}) - {k} == (m - {k}) - {j};
      TotalRemove(m - {j}, weight, k);
      TotalRemove(m - {k}, weight, j);
    }
  }

  /** Storing `v` under `k` replaces that key's weight in the total. */
  lemma TotalUpdate<K, V>(m: map<K, V>, weight: V -> int, k: K, v: V)
    ensures k in m ==> Total(m[k := v], weight) == Total(m, weight) - weight(m[k]) + weight(v)
    ensures k !in m ==> Total(m[k := v], weight) == Total(m, weight) + weight(v)
  {
    TotalRemove(m[k := v], weight, k);
    assert m[k := v] - {k} == m - {k};
    if k in m {
      TotalRemove(m, weight, k);
    } else {
      assert m - {k} == m;
    }
  }

  /** Deleting `k` removes its weight from the total. */
  lemma TotalDelete<K, V>(m: map<K, V>, weight: V -> int, k: K)
    ensures k in m ==> Total(m - {k}, weight) == Total(m, weight) - weight(m[k])
    ensures k !in m ==> Total(m - {k}, weight) == Total(m, weight)
  {
    if k in m {
      TotalRemove(m, weight, k);
    } else {
      assert m - {k} == m;
    }
  }

  /** With positive weights, the total bounds each entry and vanishes only on the empty map. */
  lemma {:induction false} TotalOfPositives<K, V>(m: map<K, V>, weight: V -> int)
    requires forall k | k in m :: weight(m[k]) > 0
    ensures Total(m, weight) >= 0
    ensures forall k | k in m :: Total(m, weight) >= weight(m[k])
    ensures Total(m, weight) == 0 <==> m == map[]
    decreases |m|
  {
    if m != map[] {
      var j := PickKey(m);
      TotalOfPositives(m - {j}, weight);
      forall k | k in m
        ensures Total(m, weight) >= weight(m[k])
      {
        TotalRemove(m, weight, k);
        TotalOfPositives(m - {k}, weight);
      }
    }
  }
}
