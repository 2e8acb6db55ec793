/** Shared helpers: an Option type, `dict.get(k, 0)` on count tables, and sums over finite sets. */
module Common {
  datatype Option<T> = None | Some(value: T)

  /** dict.get(k, 0) on a table of counts. */
  function Get<K>(m: map<K, int>, k: K): int
  {
    if k in m then m[k] else 0
  }

  /** The sum of w over the finite set ks. */
  ghost function SetSum<K>(ks: set<K>, w: K -> int): int
    decreases ks
  {
    if ks == {} then 0 else var k :| k in ks; w(k) + SetSum(ks - {k}, w)
  }

  /** Any element may be taken out first: the sum does not depend on the order of choice. */
  lemma {:induction false} SetSumRemove<K>(ks: set<K>, w: K -> int, x: K)
    requires x in ks
    ensures SetSum(ks, w) == w(x) + SetSum(ks - {x}, w)
    decreases ks
  {
    var y :| y in ks && SetSum(ks, w) == w(y) + SetSum(ks - {y}, w);
    if y != x {
      SetSumRemove(ks - {y}, w, x);
      SetSumRemove(ks - {x}, w, y);
      assert ks - {y} - {x} == ks - {x} - {y};
    }
  }

  /** Adding a fresh element adds its weight. */
  lemma SetSumInsert<K>(ks: set<K>, w: K -> int, x: K)
    requires x !in ks
    ensures SetSum(ks + {x}, w) == w(x) + SetSum(ks, w)
  {
    SetSumRemove(ks + {x}, w, x);
    assert ks + {x} - {x} == ks;
  }

  /** Two weightings that agree on ks have the same sum over ks. */
  lemma {:induction false} SetSumCongruent<K>(ks: set<K>, w1: K -> int, w2: K -> int)
    requires forall k :: k in ks ==> w1(k) == w2(k)
    ensures SetSum(ks, w1) == SetSum(ks, w2)
    decreases ks
  {
    if ks != {} {
      var x :| x in ks;
      SetSumRemove(ks, w1, x);
      SetSumRemove(ks, w2, x);
      SetSumCongruent(ks - {x}, w1, w2);
    }
  }

  /** Raising the weight of one element of ks by c raises the sum by c. */
  lemma SetSumBump<K>(ks: set<K>, w1: K -> int, w2: K -> int, x: K, c: int)
    requires forall k :: k in ks && k != x ==> w1(k) == w2(k)
    requires x in ks && w2(x) == w1(x) + c
    ensures SetSum(ks, w2) == SetSum(ks, w1) + c
  {
    SetSumRemove(ks, w1, x);
    SetSumRemove(ks, w2, x);
    SetSumCongruent(ks - {x}, w1, w2);
  }

  /** A sum of non-negative weights is non-negative, and zero exactly when every weight is zero. */
  lemma {:induction false} SetSumNonNegative<K>(ks: set<K>, w: K -> int)
    requires forall k :: k in ks ==> w(k) >= 0
    ensures SetSum(ks, w) >= 0
    ensures SetSum(ks, w) == 0 <==> forall k :: k in ks ==> w(k) == 0
    decreases ks
  {
    if ks != {} {
      var x :| x in ks;
      SetSumRemove(ks, w, x);
      SetSumNonNegative(ks - {x}, w);
    }
  }
}
