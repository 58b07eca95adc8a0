/** The sum of the principal over all records of a `stake_info` map: the
    quantity `total_staked` is meant to track. */
module Totals {
  import opened Reward

  ghost function TotalStaked<K>(m: map<K, StakeInfo>): nat
    decreases |m|
  {
    if |m| == 0 then 0
    else
      var k := PickKey(m);
      m[k].amountStaked + TotalStaked(m - {k})
  }

  ghost function PickKey<K>(m: map<K, StakeInfo>): (k: K)
    requires |m| != 0
    ensures k in m
  {
    var k :| k in m.Keys; k
  }

  /** Any record can be taken out of the sum first. */
  lemma {:induction false} TotalRemove<K>(m: map<K, StakeInfo>, k: K)
    requires k in m
    ensures TotalStaked(m) == m[k].amountStaked + TotalStaked(m - {k})
    decreases |m|
  {
    var j := PickKey(m);
    if j != k {
      TotalRemove(m - {j}, k);
      TotalRemove(m - {k}, j);
      assert (m - {j}) - {k} == (m - {k}) - {j};
    }
  }

  /** Overwriting or adding one record changes the sum by the difference of
      the two principals. */
  lemma TotalUpdate<K>(m: map<K, StakeInfo>, k: K, v: StakeInfo)
    ensures TotalStaked(m[k := v]) + (if k in m then m[k].amountStaked else 0)
         == TotalStaked(m) + v.amountStaked
  {
    TotalRemove(m[k := v], k);
    assert m[k := v] - {k} == m - {k};
    if k in m {
      TotalRemove(m, k);
    } else {
      assert m - {k} == m;
    }
  }

  /** The sum over a single record is its principal. */
  lemma TotalSingleton<K>(k: K, v: StakeInfo)
    ensures TotalStaked(map[k := v]) == v.amountStaked
  {
    TotalUpdate(map[], k, v);
  }
}
