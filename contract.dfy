/** The `Contract` object of src/lib.rs: its fields, updated in place by
    the public calls, each call proved to do exactly what the matching
    function of `Ledger` says. The calls it schedules on the token contract
    are appended to `promises`. */
module StakeContract {
  import opened Numeric
  import opened Reward
  import opened Ledger

  /** How a call ended: committed, or aborted by a `require!` or by an
      arithmetic panic. */
  datatype Status = Committed | Aborted(error: Error)

  class Contract {
    var totalStakers: U128
    var totalStaked: U128
    var stakeInfo: map<AccountId, StakeInfo>
    var tokenAddress: AccountId
    /** The calls on the token contract scheduled by committed calls, oldest first. */
    var promises: seq<Promise>

    /** The persistent state as a value. */
    function Value(): State
      reads this
    {
      State(totalStakers, totalStaked, stakeInfo, tokenAddress)
    }

    /** After a call whose specification is `spec`: an abort leaves state and
        promises as they were; a commit installs the new state and appends
        the scheduled calls. */
    ghost predicate Took(before: State, sent: seq<Promise>, spec: Result<Effect>, r: Status)
      reads this
    {
      match spec
      case Err(e) => r == Aborted(e) && Value() == before && promises == sent
      case Ok(eff) => r == Committed && Value() == eff.after && promises == sent + eff.promises
    }

    /** `new`. */
    constructor (tokenAddress: AccountId)
      ensures Value() == New(tokenAddress) && promises == []
    {
      this.tokenAddress := tokenAddress;
      totalStakers := 0;
      totalStaked := 0;
      stakeInfo := map[];
      promises := [];
    }

    /** `pending_reward`, step by step as the source computes it. */
    method PendingReward(accountId: AccountId, now: I64) returns (r: Result<U128>)
      ensures r == Ledger.PendingReward(Value(), accountId, now)
    {
      if accountId !in stakeInfo {
        return Err(NotStaked);
      }
      var info := stakeInfo[accountId];
      assert Ledger.PendingReward(Value(), accountId, now) == PendingRewardOf(info, now);
      var timeLast := now - info.timeStaked;
      if timeLast < I64_MIN || timeLast > I64_MAX {
        return Err(SubOverflow);
      }
      assert SubI64(now, info.timeStaked) == Ok(timeLast);
      var elapsed := I64AsU128(timeLast);
      if info.amountStaked * elapsed > U128_MAX {
        assert MulU128(info.amountStaked, elapsed).Err?;
        return Err(MulOverflow);
      }
      var staked := info.amountStaked * elapsed;
      assert MulU128(info.amountStaked, elapsed) == Ok(staked);
      if staked * info.apr > U128_MAX {
        assert MulU128(staked, info.apr).Err?;
        return Err(MulOverflow);
      }
      var weighted := staked * info.apr;
      assert MulU128(staked, info.apr) == Ok(weighted);
      var pending := weighted / REWARD_DIVISOR;
      if pending + info.reward > U128_MAX {
        return Err(AddOverflow);
      }
      return Ok(pending + info.reward);
    }

    /** `get_staked_amount`. */
    method GetStakedAmount(advisorId: AccountId) returns (r: Result<U128>)
      ensures r == Ledger.GetStakedAmount(Value(), advisorId)
    {
      if advisorId !in stakeInfo {
        return Err(AdvisorNotStaked);
      }
      return Ok(stakeInfo[advisorId].amountStaked);
    }

    // A panic reverts every write of the call. In the methods below each
    // check that can abort is therefore made before the first field write.

    /** `stake_token`. */
    method StakeToken(env: Env, accountId: AccountId, stakeAmount: U128) returns (r: Status)
      modifies this
      ensures Took(old(Value()), old(promises), Ledger.StakeToken(old(Value()), env, accountId, stakeAmount), r)
    {
      if stakeAmount == 0 {
        return Aborted(InvalidAmount);
      }
      if accountId in stakeInfo {
        var info := stakeInfo[accountId];
        info := info.(timeStaked := env.now);
        if info.amountStaked + stakeAmount > U128_MAX {
          return Aborted(AddOverflow);
        }
        info := info.(amountStaked := info.amountStaked + stakeAmount);
        var pending := PendingReward(accountId, env.now);
        if pending.Err? {
          return Aborted(pending.error);
        }
        if info.reward + pending.value > U128_MAX {
          return Aborted(AddOverflow);
        }
        info := info.(reward := info.reward + pending.value);
        // `info` is never inserted back into `stakeInfo`
        if totalStaked + stakeAmount > U128_MAX {
          return Aborted(AddOverflow);
        }
      } else {
        if totalStakers + 1 > U128_MAX || totalStaked + stakeAmount > U128_MAX {
          return Aborted(AddOverflow);
        }
        stakeInfo := stakeInfo[accountId := StakeInfo(env.now, stakeAmount, 0, DEFAULT_APR, 0)];
        totalStakers := totalStakers + 1;
      }
      totalStaked := totalStaked + stakeAmount;
      promises := promises + [FtTransferCall(tokenAddress, env.current, stakeAmount, STAKE_MSG),
                              FtResolveTransfer(tokenAddress, env.signer, env.current, stakeAmount)];
      return Committed;
    }

    /** `unstake_token`. */
    method UnstakeToken(env: Env, accountId: AccountId, amount: U128) returns (r: Status)
      modifies this
      ensures Took(old(Value()), old(promises), Ledger.UnstakeToken(old(Value()), env, accountId, amount), r)
    {
      if accountId !in stakeInfo {
        return Aborted(NotStaked);
      }
      var info := stakeInfo[accountId];
      if info.amountStaked == 0 {
        return Aborted(StakedLessThanAmount);
      }
      if amount == 0 {
        return Aborted(InvalidAmount);
      }
      if info.amountStaked < amount {
        return Aborted(SubOverflow);
      }
      info := info.(amountStaked := info.amountStaked - amount);
      info := info.(timeStaked := env.now);
      var pending := PendingReward(accountId, env.now);
      if pending.Err? {
        return Aborted(pending.error);
      }
      if info.reward + pending.value > U128_MAX {
        return Aborted(AddOverflow);
      }
      info := info.(reward := info.reward + pending.value);
      // `info` is never inserted back into `stakeInfo`
      if totalStaked < amount {
        return Aborted(SubOverflow);
      }
      promises := promises + [FtTransfer(tokenAddress, env.signer, amount)];
      totalStaked := totalStaked - amount;
      return Committed;
    }

    /** `claim_reward`. */
    method ClaimReward(env: Env, accountId: AccountId) returns (r: Status)
      modifies this
      ensures Took(old(Value()), old(promises), Ledger.ClaimReward(old(Value()), env, accountId), r)
    {
      if accountId !in stakeInfo {
        return Aborted(NotStaked);
      }
      var info := stakeInfo[accountId];
      var reward := PendingReward(accountId, env.now);
      if reward.Err? {
        return Aborted(reward.error);
      }
      if reward.value == 0 {
        return Aborted(NoReward);
      }
      promises := promises + [FtTransfer(tokenAddress, env.signer, reward.value)];
      info := info.(timeStaked := env.now);
      info := info.(reward := 0);
      // `info` is never inserted back into `stakeInfo`
      return Committed;
    }

    /** `update_apr`. */
    method UpdateApr(env: Env, advisorId: AccountId, learnerVote: U8) returns (r: Status)
      modifies this
      ensures Took(old(Value()), old(promises), Ledger.UpdateApr(old(Value()), env, advisorId, learnerVote), r)
    {
      if advisorId !in stakeInfo {
        return Aborted(AdvisorNotStaked);
      }
      var info := stakeInfo[advisorId];
      var pending := PendingReward(advisorId, env.now);
      if pending.Err? {
        return Aborted(pending.error);
      }
      info := info.(reward := pending.value);
      info := info.(timeStaked := env.now);
      if learnerVote == 1 {
        if info.apr < POINT_ONE_TOKEN * 2 {
          return Aborted(SubOverflow);
        }
        info := info.(apr := info.apr - POINT_ONE_TOKEN * 2);
        if info.votes < 2 {
          return Aborted(SubOverflow);
        }
        info := info.(votes := info.votes - 2);
      } else if learnerVote == 2 {
        if info.apr < POINT_ONE_TOKEN {
          return Aborted(SubOverflow);
        }
        info := info.(apr := info.apr - POINT_ONE_TOKEN);
        if info.votes < 1 {
          return Aborted(SubOverflow);
        }
        info := info.(votes := info.votes - 1);
      } else if learnerVote == 3 {
        // do nothing
      } else if learnerVote == 4 {
        if info.apr + POINT_ONE_TOKEN > U128_MAX {
          return Aborted(AddOverflow);
        }
        info := info.(apr := info.apr + POINT_ONE_TOKEN);
        if info.votes + 1 > U8_MAX {
          return Aborted(AddOverflow);
        }
        info := info.(votes := info.votes + 1);
      } else if learnerVote == 5 {
        if info.apr + POINT_ONE_TOKEN * 2 > U128_MAX {
          return Aborted(AddOverflow);
        }
        info := info.(apr := info.apr + POINT_ONE_TOKEN * 2);
        if info.votes + 2 > U8_MAX {
          return Aborted(AddOverflow);
        }
        info := info.(votes := info.votes + 2);
      } else {
        return Aborted(InvalidVote);
      }
      // `info` is never inserted back into `stakeInfo`
      return Committed;
    }
  }
}
