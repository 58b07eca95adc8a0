/** The per-account staking record and the reward it has accrued
    (`StakeInfo` and `pending_reward` in src/lib.rs). */
module Reward {
  import opened Numeric

  /** 0.1 token in the 24-decimal fixed-point scale: one step of an APR vote. */
  const POINT_ONE_TOKEN: U128 := 100_000_000_000_000_000_000_000
  /** 1 token in the 24-decimal scale; as an APR it means 1 percent. */
  const ONE_TOKEN: U128 := 1_000_000_000_000_000_000_000_000
  /** The APR every new record starts with: 5 percent. */
  const DEFAULT_APR: U128 := 5_000_000_000_000_000_000_000_000
  const SECONDS_PER_YEAR: nat := 31536000
  /** The divisor of the reward formula: a year in seconds, times the APR
      scale, times 100 because the APR is a percentage. It fits in a u128. */
  const REWARD_DIVISOR: nat := SECONDS_PER_YEAR * ONE_TOKEN * 100

  /** One account's record. `timeStaked` is a Unix timestamp in seconds. */
  datatype StakeInfo = StakeInfo(
    timeStaked: I64,
    amountStaked: U128,
    reward: U128,
    apr: U128,
    votes: U8)

  /** The interest earned by `amount` over `elapsed` seconds at rate `apr`,
      in exact integer arithmetic, rounded down. */
  function Interest(amount: nat, elapsed: nat, apr: nat): nat {
    amount * elapsed * apr / REWARD_DIVISOR
  }

  /** True when the reward computation for `info` at `now` stays inside the
      integer widths the source uses: the i64 elapsed time, both u128
      products and the final u128 sum. */
  predicate FitsWidths(info: StakeInfo, now: int) {
    var elapsed := now - info.timeStaked;
    0 <= elapsed <= I64_MAX
    && info.amountStaked * elapsed <= U128_MAX
    && info.amountStaked * elapsed * info.apr <= U128_MAX
    && Interest(info.amountStaked, elapsed, info.apr) + info.reward <= U128_MAX
  }

  /** `pending_reward` on a record already looked up: the interest since
      `timeStaked` plus the reward stored in the record. Each operation is
      checked in the source's order, so an intermediate overflow aborts even
      where the final value would fit. A clock earlier than `timeStaked`
      gives a negative elapsed time, which the `as u128` cast turns into a
      number near 2^128. */
  function PendingRewardOf(info: StakeInfo, now: I64): (r: Result<U128>)
    ensures now >= info.timeStaked ==> (r.Ok? <==> FitsWidths(info, now))
    ensures now >= info.timeStaked && r.Ok? ==>
      r.value == Interest(info.amountStaked, now - info.timeStaked, info.apr) + info.reward
    ensures r.Err? ==> r.error in {SubOverflow, MulOverflow, AddOverflow}
  {
    var elapsed :- SubI64(now, info.timeStaked);
    var staked :- MulU128(info.amountStaked, I64AsU128(elapsed));
    var weighted :- MulU128(staked, info.apr);
    AddU128(weighted / REWARD_DIVISOR, info.reward)
  }

  lemma MulMonotone(a: nat, x: nat, y: nat)
    requires x <= y
    ensures a * x <= a * y
  {
  }

  lemma DivMonotone(x: nat, y: nat, d: nat)
    requires x <= y && d > 0
    ensures x / d <= y / d
  {
    var qx, qy := x / d, y / d;
    assert x == qx * d + x % d && y == qy * d + y % d;
    if qx > qy {
      var k := qx - qy;
      assert qx * d == qy * d + k * d;
      MulMonotone(d, 1, k);
      assert false;
    }
  }

  /** (x * k) / (y * k) == x / y: a common factor of numerator and divisor
      cancels in floor division. */
  lemma DivCancel(x: nat, y: nat, k: nat)
    requires y > 0 && k > 0
    ensures (x * k) / (y * k) == x / y
  {
    var q, r := x / y, x % y;
    assert x == q * y + r && 0 <= r < y;
    assert x * k == q * (y * k) + r * k;
    assert 0 <= r * k < y * k by { MulMonotone(k, r, y - 1); }
    DivUnique(x * k, y * k, q, r * k);
  }

  lemma DivUnique(n: nat, d: nat, q: nat, r: nat)
    requires d > 0 && n == q * d + r && r < d
    ensures n / d == q
  {
    var q', r' := n / d, n % d;
    assert n == q' * d + r' && 0 <= r' < d;
    if q' < q {
      var k := q - q';
      assert q * d == q' * d + k * d;
      MulMonotone(d, 1, k);
      assert false;
    } else if q' > q {
      var k := q' - q;
      assert q' * d == q * d + k * d;
      MulMonotone(d, 1, k);
      assert false;
    }
  }

  /** Interest grows with the elapsed time. */
  lemma {:induction false} InterestMonotone(amount: nat, e1: nat, e2: nat, apr: nat)
    requires e1 <= e2
    ensures Interest(amount, e1, apr) <= Interest(amount, e2, apr)
  {
    MulMonotone(amount, e1, e2);
    assert amount * e1 * apr <= amount * e2 * apr by {
      assert amount * e1 * apr == apr * (amount * e1);
      assert amount * e2 * apr == apr * (amount * e2);
      MulMonotone(apr, amount * e1, amount * e2);
    }
    DivMonotone(amount * e1 * apr, amount * e2 * apr, REWARD_DIVISOR);
  }

  /** Over exactly one year, an APR of `percent` tokens pays `percent`
      percent of the principal, rounded down. */
  lemma OneYearAtPercent(amount: nat, percent: nat)
    ensures Interest(amount, SECONDS_PER_YEAR, percent * ONE_TOKEN) == amount * percent / 100
  {
    var k := SECONDS_PER_YEAR * ONE_TOKEN;
    calc {
      amount * SECONDS_PER_YEAR * (percent * ONE_TOKEN);
      (amount * percent) * k;
    }
    assert REWARD_DIVISOR == 100 * k;
    DivCancel(amount * percent, 100, k);
  }

  /** No time elapsed: the pending reward is exactly the stored reward. */
  lemma ZeroElapsed(info: StakeInfo)
    ensures PendingRewardOf(info, info.timeStaked) == Ok(info.reward)
  {
    assert Interest(info.amountStaked, 0, info.apr) == 0;
  }

  /** For a fixed record the pending reward never decreases as the clock
      advances; a computation that succeeds at a later time also succeeds
      at every earlier time not before `timeStaked`. */
  lemma {:induction false} PendingMonotone(info: StakeInfo, now1: I64, now2: I64)
    requires info.timeStaked <= now1 <= now2
    requires PendingRewardOf(info, now2).Ok?
    ensures PendingRewardOf(info, now1).Ok?
    ensures PendingRewardOf(info, now1).value <= PendingRewardOf(info, now2).value
  {
    var a, apr := info.amountStaked, info.apr;
    var e1, e2 := now1 - info.timeStaked, now2 - info.timeStaked;
    assert FitsWidths(info, now2);
    MulMonotone(a, e1, e2);
    assert a * e1 * apr <= a * e2 * apr by {
      assert a * e1 * apr == apr * (a * e1);
      assert a * e2 * apr == apr * (a * e2);
      MulMonotone(apr, a * e1, a * e2);
    }
    InterestMonotone(a, e1, e2, apr);
    assert FitsWidths(info, now1);
  }

  /** 1,000,000 units staked at the default 5 percent for one year earn
      50,000 units. */
  lemma OneYearExample(t: I64)
    requires 0 <= t <= I64_MAX - SECONDS_PER_YEAR
    ensures PendingRewardOf(StakeInfo(t, 1_000_000, 0, DEFAULT_APR, 0), t + SECONDS_PER_YEAR) == Ok(50000)
  {
    OneYearAtPercent(1_000_000, 5);
    assert FitsWidths(StakeInfo(t, 1_000_000, 0, DEFAULT_APR, 0), t + SECONDS_PER_YEAR);
  }

  /** A clock behind `timeStaked` aborts the computation for any record that
      holds principal at an APR of at least two units: the cast elapsed time
      is within 2^63 of 2^128, so a product overflows. */
  lemma ClockBehindAborts(info: StakeInfo, now: I64)
    requires now < info.timeStaked
    requires info.amountStaked >= 1 && info.apr >= 2
    ensures PendingRewardOf(info, now).Err?
  {
    var elapsed := now - info.timeStaked;
    if elapsed >= I64_MIN {
      var e := I64AsU128(elapsed);
      assert e > U128_MAX + I64_MIN;
      if info.amountStaked * e <= U128_MAX {
        MulMonotone(e, 1, info.amountStaked);
        assert info.amountStaked * e * info.apr >= e * 2 by {
          MulMonotone(info.amountStaked * e, 2, info.apr);
          MulMonotone(2, e, info.amountStaked * e);
        }
      }
    }
  }
}
