/**
 * Sums over the keys of a finite set, used for the totals the engine keeps:
 * nb_items is the sum of the selection's per-type sizes, nb_done the sum of
 * the per-type done lists.
 */
module Sums {

  /** The sum of f over a finite set of keys. */
  ghost function SumOver<K>(keys: set<K>, f: K -> int): int
    decreases keys
  {
    if keys == {} then 0
    else
      var k :| k in keys;
      f(k) + SumOver(keys - {k}, f)
  }

  /** Any element can be taken out of the sum first. */
  lemma {:induction false} SumOverPick<K>(keys: set<K>, f: K -> int, k: K)
    requires k in keys
    ensures SumOver(keys, f) == f(k) + SumOver(keys - {k}, f)
    decreases keys
  {
    var j :| j in keys && SumOver(keys, f) == f(j) + SumOver(keys - {j}, f);
    if j != k {
      SumOverPick(keys - {j}, f, k);
      SumOverPick(keys - {k}, f, j);
      assert keys - {j} - {k} == keys - {k} - {j};
    }
  }

  /** Adding a new key adds its value. */
  lemma SumOverInsert<K>(keys: set<K>, f: K -> int, k: K)
    requires k !in keys
    ensures SumOver(keys + {k}, f) == f(k) + SumOver(keys, f)
  {
    SumOverPick(keys + {k}, f, k);
    assert keys + {k} - {k} == keys;
  }

  /** Functions that agree on the keys have the same sum. */
  lemma {:induction false} SumOverCongruent<K>(keys: set<K>, f: K -> int, g: K -> int)
    requires forall k :: k in keys ==> f(k) == g(k)
    ensures SumOver(keys, f) == SumOver(keys, g)
    decreases keys
  {
    if keys != {} {
      var k :| k in keys;
      SumOverPick(keys, f, k);
      SumOverPick(keys, g, k);
      SumOverCongruent(keys - {k}, f, g);
    }
  }

  /** Changing the value at one key changes the sum by the difference. */
  lemma SumOverUpdate<K>(keys: set<K>, f: K -> int, g: K -> int, t: K)
    requires t in keys
    requires forall k :: k in keys && k != t ==> f(k) == g(k)
    ensures SumOver(keys, g) == SumOver(keys, f) - f(t) + g(t)
  {
    SumOverPick(keys, f, t);
    SumOverPick(keys, g, t);
    SumOverCongruent(keys - {t}, f, g);
  }

  /** The sum of a pointwise sum is the sum of the sums. */
  lemma {:induction false} SumOverAdd<K>(keys: set<K>, f: K -> int, g: K -> int, h: K -> int)
    requires forall k :: k in keys ==> h(k) == f(k) + g(k)
    ensures SumOver(keys, h) == SumOver(keys, f) + SumOver(keys, g)
    decreases keys
  {
    if keys != {} {
      var k :| k in keys;
      SumOverPick(keys, f, k);
      SumOverPick(keys, g, k);
      SumOverPick(keys, h, k);
      SumOverAdd(keys - {k}, f, g, h);
    }
  }

  /** A sum of non-negative values is non-negative. */
  lemma {:induction false} SumOverNonNegative<K>(keys: set<K>, f: K -> int)
    requires forall k :: k in keys ==> f(k) >= 0
    ensures SumOver(keys, f) >= 0
    decreases keys
  {
    if keys != {} {
      var k :| k in keys;
      SumOverPick(keys, f, k);
      SumOverNonNegative(keys - {k}, f);
    }
  }

  /** A sum of non-negative values is positive exactly when one of them is. */
  lemma {:induction false} SumOverPositive<K>(keys: set<K>, f: K -> int)
    requires forall k :: k in keys ==> f(k) >= 0
    ensures SumOver(keys, f) > 0 <==> exists k :: k in keys && f(k) > 0
    decreases keys
  {
    if keys != {} {
      var k :| k in keys;
      SumOverPick(keys, f, k);
      SumOverPositive(keys - {k}, f);
      SumOverNonNegative(keys - {k}, f);
      if exists j :: j in keys && f(j) > 0 {
        var j :| j in keys && f(j) > 0;
        if j != k {
          assert j in keys - {k};
        }
      }
    }
  }

  /** Any element of a non-empty set. */
  method PickOne<K>(s: set<K>) returns (k: K)
    requires s != {}
    ensures k in s
  {
    k :| k in s;
  }
}
