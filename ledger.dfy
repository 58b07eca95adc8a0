/** The staking contract of src/lib.rs as the code is written, one public
    call at a time, on values. Every call either commits (a new state plus
    the outbound calls it schedules on the token contract) or aborts, and an
    aborted call leaves the state exactly as it was.

    Where the source updates an existing record it changes a local copy of
    the `StakeInfo` and never inserts it back into `stake_info`. The copies
    are computed here too, because their checked arithmetic can abort the
    call, and then dropped, as in the source. */
module Ledger {
  import opened Numeric
  import opened Reward
  import opened Governance

  type AccountId = string

  /** What the host supplies to a call: the clock `Utc::now().timestamp()`,
      `env::signer_account_id()` and `env::current_account_id()`. */
  datatype Env = Env(now: I64, signer: AccountId, current: AccountId)

  /** A call scheduled on the token contract `token`. */
  datatype Promise =
    | FtTransfer(token: AccountId, receiverId: AccountId, amount: U128)
    | FtTransferCall(token: AccountId, receiverId: AccountId, amount: U128, msg: string)
    | FtResolveTransfer(token: AccountId, senderId: AccountId, receiverId: AccountId, amount: U128)

  /** The persistent `Contract` struct. */
  datatype State = State(
    totalStakers: U128,
    totalStaked: U128,
    stakeInfo: map<AccountId, StakeInfo>,
    tokenAddress: AccountId)

  /** A committed call: the state after it and the calls it scheduled. */
  datatype Effect = Effect(after: State, promises: seq<Promise>)

  const STAKE_MSG: string := "spk_stake"

  /** `new`: no stakers, nothing staked, no records. */
  function New(tokenAddress: AccountId): (s: State)
    ensures s.totalStakers == 0 && s.totalStaked == 0 && s.stakeInfo == map[]
    ensures s.tokenAddress == tokenAddress
  {
    State(0, 0, map[], tokenAddress)
  }

  /** The record a first stake creates. */
  function FirstRecord(now: I64, amount: U128): StakeInfo {
    StakeInfo(now, amount, 0, DEFAULT_APR, 0)
  }

  /** `pending_reward`: fails for an account without a record, otherwise the
      reward of its record at `now`. */
  function PendingReward(s: State, accountId: AccountId, now: I64): (r: Result<U128>)
    ensures accountId !in s.stakeInfo ==> r == Err(NotStaked)
    ensures accountId in s.stakeInfo && now >= s.stakeInfo[accountId].timeStaked ==>
      var info := s.stakeInfo[accountId];
      (r.Ok? <==> FitsWidths(info, now))
      && (r.Ok? ==> r.value == Interest(info.amountStaked, now - info.timeStaked, info.apr) + info.reward)
  {
    if accountId in s.stakeInfo then PendingRewardOf(s.stakeInfo[accountId], now)
    else Err(NotStaked)
  }

  /** `get_staked_amount`: the principal recorded for the account. */
  function GetStakedAmount(s: State, advisorId: AccountId): (r: Result<U128>)
    ensures r.Ok? <==> advisorId in s.stakeInfo
    ensures r.Ok? ==> r.value == s.stakeInfo[advisorId].amountStaked
    ensures r.Err? ==> r.error == AdvisorNotStaked
  {
    if advisorId in s.stakeInfo then Ok(s.stakeInfo[advisorId].amountStaked)
    else Err(AdvisorNotStaked)
  }

  /** The local copy `unwrap_info` of `stake_token` after lines 77-79: the
      clock, the principal plus the new amount, and the stored reward plus
      the pending reward. */
  function StakeCopy(s: State, env: Env, accountId: AccountId, amount: U128): Result<StakeInfo>
    requires accountId in s.stakeInfo
  {
    var info := s.stakeInfo[accountId];
    var staked :- AddU128(info.amountStaked, amount);
    var pending :- PendingReward(s, accountId, env.now);
    var reward :- AddU128(info.reward, pending);
    Ok(info.(timeStaked := env.now, amountStaked := staked, reward := reward))
  }

  /** The local copy of `unstake_token` after lines 126-128. */
  function UnstakeCopy(s: State, env: Env, accountId: AccountId, amount: U128): Result<StakeInfo>
    requires accountId in s.stakeInfo
  {
    var info := s.stakeInfo[accountId];
    var staked :- SubU128(info.amountStaked, amount);
    var pending :- PendingReward(s, accountId, env.now);
    var reward :- AddU128(info.reward, pending);
    Ok(info.(amountStaked := staked, timeStaked := env.now, reward := reward))
  }

  /** `stake_token`. */
  function StakeToken(s: State, env: Env, accountId: AccountId, amount: U128): (r: Result<Effect>)
    ensures amount == 0 ==> r == Err(InvalidAmount)
    ensures amount > 0 && accountId !in s.stakeInfo ==>
      (r.Ok? <==> s.totalStakers < U128_MAX && s.totalStaked + amount <= U128_MAX)
    ensures amount > 0 && accountId in s.stakeInfo ==>
      (r.Ok? <==> StakeCopy(s, env, accountId, amount).Ok? && s.totalStaked + amount <= U128_MAX)
    ensures r.Ok? ==> r.value.after.totalStaked == s.totalStaked + amount
    ensures r.Ok? && accountId !in s.stakeInfo ==>
      r.value.after.stakeInfo == s.stakeInfo[accountId := FirstRecord(env.now, amount)]
      && r.value.after.totalStakers == s.totalStakers + 1
    ensures r.Ok? && accountId in s.stakeInfo ==>
      r.value.after.stakeInfo == s.stakeInfo && r.value.after.totalStakers == s.totalStakers
    ensures r.Ok? ==> r.value.after.tokenAddress == s.tokenAddress
    ensures r.Ok? ==>
      r.value.promises == [FtTransferCall(s.tokenAddress, env.current, amount, STAKE_MSG),
                           FtResolveTransfer(s.tokenAddress, env.signer, env.current, amount)]
  {
    if amount == 0 then Err(InvalidAmount)
    else
      var promises := [FtTransferCall(s.tokenAddress, env.current, amount, STAKE_MSG),
                       FtResolveTransfer(s.tokenAddress, env.signer, env.current, amount)];
      if accountId in s.stakeInfo then
        // the updated copy is dropped: only the counter changes
        var copy :- StakeCopy(s, env, accountId, amount);
        var staked :- AddU128(s.totalStaked, amount);
        Ok(Effect(s.(totalStaked := staked), promises))
      else
        var stakers :- AddU128(s.totalStakers, 1);
        var staked :- AddU128(s.totalStaked, amount);
        Ok(Effect(State(stakers, staked, s.stakeInfo[accountId := FirstRecord(env.now, amount)],
                        s.tokenAddress), promises))
  }

  /** `unstake_token`. The signer, not `accountId`, receives the tokens. */
  function UnstakeToken(s: State, env: Env, accountId: AccountId, amount: U128): (r: Result<Effect>)
    ensures accountId !in s.stakeInfo ==> r == Err(NotStaked)
    ensures accountId in s.stakeInfo && s.stakeInfo[accountId].amountStaked == 0 ==>
      r == Err(StakedLessThanAmount)
    ensures accountId in s.stakeInfo && s.stakeInfo[accountId].amountStaked > 0 && amount == 0 ==>
      r == Err(InvalidAmount)
    ensures accountId in s.stakeInfo && amount > s.stakeInfo[accountId].amountStaked > 0 ==>
      r == Err(SubOverflow)
    ensures r.Ok? <==>
      accountId in s.stakeInfo && 0 < amount <= s.stakeInfo[accountId].amountStaked
      && UnstakeCopy(s, env, accountId, amount).Ok? && amount <= s.totalStaked
    ensures r.Ok? ==> r.value.after == s.(totalStaked := s.totalStaked - amount)
    ensures r.Ok? ==> r.value.promises == [FtTransfer(s.tokenAddress, env.signer, amount)]
  {
    if accountId !in s.stakeInfo then Err(NotStaked)
    else if s.stakeInfo[accountId].amountStaked == 0 then Err(StakedLessThanAmount)
    else if amount == 0 then Err(InvalidAmount)
    else
      // the updated copy is dropped: only the counter changes
      var copy :- UnstakeCopy(s, env, accountId, amount);
      var staked :- SubU128(s.totalStaked, amount);
      Ok(Effect(s.(totalStaked := staked), [FtTransfer(s.tokenAddress, env.signer, amount)]))
  }

  /** `claim_reward`. The signer receives the whole pending reward. */
  function ClaimReward(s: State, env: Env, accountId: AccountId): (r: Result<Effect>)
    ensures accountId !in s.stakeInfo ==> r == Err(NotStaked)
    ensures PendingReward(s, accountId, env.now) == Ok(0) ==> r == Err(NoReward)
    ensures r.Ok? <==>
      accountId in s.stakeInfo && PendingReward(s, accountId, env.now).Ok?
      && PendingReward(s, accountId, env.now).value > 0
    ensures r.Ok? ==> r.value.after == s
    ensures r.Ok? ==>
      r.value.promises == [FtTransfer(s.tokenAddress, env.signer, PendingReward(s, accountId, env.now).value)]
  {
    if accountId !in s.stakeInfo then Err(NotStaked)
    else
      var reward :- PendingReward(s, accountId, env.now);
      if reward == 0 then Err(NoReward)
      else
        // the local copy would get timeStaked := now and reward := 0; it is dropped
        Ok(Effect(s, [FtTransfer(s.tokenAddress, env.signer, reward)]))
  }

  /** The local copy of `update_apr` after lines 187-211. */
  function VoteCopy(s: State, env: Env, advisorId: AccountId, vote: U8): Result<StakeInfo>
    requires advisorId in s.stakeInfo
  {
    var pending :- PendingReward(s, advisorId, env.now);
    ApplyVote(s.stakeInfo[advisorId].(reward := pending, timeStaked := env.now), vote)
  }

  /** `update_apr`. */
  function UpdateApr(s: State, env: Env, advisorId: AccountId, vote: U8): (r: Result<Effect>)
    ensures advisorId !in s.stakeInfo ==> r == Err(AdvisorNotStaked)
    ensures advisorId in s.stakeInfo && PendingReward(s, advisorId, env.now).Ok? && !(1 <= vote <= 5) ==>
      r == Err(InvalidVote)
    ensures r.Ok? <==> advisorId in s.stakeInfo && VoteCopy(s, env, advisorId, vote).Ok?
    ensures r.Ok? ==> r.value == Effect(s, [])
  {
    if advisorId !in s.stakeInfo then Err(AdvisorNotStaked)
    else
      // the voted copy is dropped
      var copy :- VoteCopy(s, env, advisorId, vote);
      Ok(Effect(s, []))
  }
}
