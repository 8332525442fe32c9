/** Sums of natural numbers held in a map, used to total the escrow that the
    registrar owes its bidders. `MapSum` is order-free; `SumAlong` adds the
    same values in the order a key sequence lists them. */
module Sums {

  /** Sum of all values of `m`. */
  ghost function MapSum<K>(m: map<K, nat>): (total: nat)
    decreases m.Keys
  {
    if m == map[] then 0
    else
      var k :| k in m;
      m[k] + MapSum(m - {k})
  }

  /** Removing any one key takes exactly its value off the sum. */
  lemma {:induction false} MapSumRemove<K>(m: map<K, nat>, k: K)
    requires k in m
    ensures MapSum(m) == m[k] + MapSum(m - {k})
    decreases m.Keys
  {
    var j :| j in m && MapSum(m) == m[j] + MapSum(m - {j});
    if j != k {
      var mj := m - {j};
      var mk := m - {k};
      assert k in mj && j in mk;
      MapSumRemove(mj, k);
      MapSumRemove(mk, j);
      assert mj - {k} == mk - {j};
    } else {
      assert m - {j} == m - {k};
    }
  }

  /** Overwriting one key replaces its contribution by the new value. */
  lemma MapSumUpdate<K>(m: map<K, nat>, k: K, v: nat)
    ensures MapSum(m[k := v]) == MapSum(m - {k}) + v
    ensures k in m ==> MapSum(m[k := v]) + m[k] == MapSum(m) + v
    ensures k !in m ==> MapSum(m[k := v]) == MapSum(m) + v
  {
    MapSumRemove(m[k := v], k);
    assert m[k := v] - {k} == m - {k};
    if k in m {
      MapSumRemove(m, k);
    } else {
      assert m - {k} == m;
    }
  }

  /** A map whose values are all zero sums to zero. */
  lemma {:induction false} MapSumZero<K>(m: map<K, nat>)
    requires forall k :: k in m ==> m[k] == 0
    ensures MapSum(m) == 0
    decreases m.Keys
  {
    if m != map[] {
      var k :| k in m;
      MapSumRemove(m, k);
      MapSumZero(m - {k});
    }
  }

  /** Sum of the values of `m` at the keys `ks`, in that order. */
  function SumAlong<K>(ks: seq<K>, m: map<K, nat>): (total: nat)
    requires forall i :: 0 <= i < |ks| ==> ks[i] in m
  {
    if ks == [] then 0 else m[ks[0]] + SumAlong(ks[1..], m)
  }

  /** Only the values at the listed keys matter to `SumAlong`. */
  lemma {:induction false} SumAlongAgree<K>(ks: seq<K>, m: map<K, nat>, m': map<K, nat>)
    requires forall i :: 0 <= i < |ks| ==> ks[i] in m && ks[i] in m' && m[ks[i]] == m'[ks[i]]
    ensures SumAlong(ks, m) == SumAlong(ks, m')
  {
    if ks != [] {
      SumAlongAgree(ks[1..], m, m');
    }
  }

  /** Visiting every key exactly once, in any order, adds up to `MapSum`. */
  lemma {:induction false} SumAlongIsMapSum<K>(ks: seq<K>, m: map<K, nat>)
    requires forall i, j :: 0 <= i < j < |ks| ==> ks[i] != ks[j]
    requires forall k :: k in ks <==> k in m
    ensures SumAlong(ks, m) == MapSum(m)
  {
    if ks == [] {
      assert m.Keys == {};
    } else {
      var k0 := ks[0];
      var rest := ks[1..];
      var m' := m - {k0};
      assert k0 !in rest by {
        forall i | 0 <= i < |rest| ensures rest[i] != k0 {
          assert rest[i] == ks[i + 1];
        }
      }
      forall k ensures k in rest <==> k in m' {
        if k in m' {
          assert k in ks && k != k0;
          var i :| 0 <= i < |ks| && ks[i] == k;
          assert i > 0;
          assert rest[i - 1] == k;
        }
        if k in rest {
          var i :| 0 <= i < |rest| && rest[i] == k;
          assert ks[i + 1] == k;
        }
      }
      assert forall i :: 0 <= i < |rest| ==> rest[i] in m' && rest[i] in m && m[rest[i]] == m'[rest[i]];
      SumAlongAgree(rest, m, m');
      SumAlongIsMapSum(rest, m');
      MapSumRemove(m, k0);
    }
  }
}
