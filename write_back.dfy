/** The ledger as it is evidently meant to work: the same calls, checks and
    scheduled transfers as `Ledger`, except that every updated record is
    written back into `stake_info`, and settling sets the stored reward to
    the pending reward (which already includes the stored reward) instead of
    adding the two. This is the corrected model; over it `total_staked`
    equals the sum of the principals after every call. */
module WriteBack {
  import opened Numeric
  import opened Reward
  import opened Governance
  import opened Totals
  import opened Ledger

  /** The record settled at `now`: the pending reward is folded into the
      stored reward and the interest clock restarts. */
  function Settled(info: StakeInfo, pending: U128, now: I64): StakeInfo {
    info.(timeStaked := now, reward := pending)
  }

  function StakeToken(s: State, env: Env, accountId: AccountId, amount: U128): (r: Result<Effect>)
    ensures amount == 0 ==> r == Err(InvalidAmount)
    ensures amount > 0 && accountId !in s.stakeInfo ==>
      (r.Ok? <==> s.totalStakers < U128_MAX && s.totalStaked + amount <= U128_MAX)
    ensures amount > 0 && accountId in s.stakeInfo ==>
      (r.Ok? <==> s.stakeInfo[accountId].amountStaked + amount <= U128_MAX
                  && PendingReward(s, accountId, env.now).Ok?
                  && s.totalStaked + amount <= U128_MAX)
    ensures r.Ok? ==> r.value.after.totalStaked == s.totalStaked + amount
    ensures r.Ok? && accountId !in s.stakeInfo ==>
      r.value.after.stakeInfo == s.stakeInfo[accountId := FirstRecord(env.now, amount)]
      && r.value.after.totalStakers == s.totalStakers + 1
    ensures r.Ok? && accountId in s.stakeInfo ==>
      var info := s.stakeInfo[accountId];
      r.value.after.totalStakers == s.totalStakers
      && PendingReward(s, accountId, env.now).Ok?
      && info.amountStaked + amount <= U128_MAX
      && r.value.after.stakeInfo == s.stakeInfo[accountId :=
           Settled(info, PendingReward(s, accountId, env.now).value, env.now)
             .(amountStaked := info.amountStaked + amount)]
    ensures r.Ok? ==> r.value.after.tokenAddress == s.tokenAddress
    ensures r.Ok? ==>
      r.value.promises == [FtTransferCall(s.tokenAddress, env.current, amount, STAKE_MSG),
                           FtResolveTransfer(s.tokenAddress, env.signer, env.current, amount)]
  {
    if amount == 0 then Err(InvalidAmount)
    else
      var promises := [FtTransferCall(s.tokenAddress, env.current, amount, STAKE_MSG),
                       FtResolveTransfer(s.tokenAddress, env.signer, env.current, amount)];
      if accountId in s.stakeInfo then
        var info := s.stakeInfo[accountId];
        var principal :- AddU128(info.amountStaked, amount);
        var pending :- PendingReward(s, accountId, env.now);
        var staked :- AddU128(s.totalStaked, amount);
        var record := Settled(info, pending, env.now).(amountStaked := principal);
        Ok(Effect(s.(totalStaked := staked, stakeInfo := s.stakeInfo[accountId := record]), promises))
      else
        var stakers :- AddU128(s.totalStakers, 1);
        var staked :- AddU128(s.totalStaked, amount);
        Ok(Effect(State(stakers, staked, s.stakeInfo[accountId := FirstRecord(env.now, amount)],
                        s.tokenAddress), promises))
  }

  function UnstakeToken(s: State, env: Env, accountId: AccountId, amount: U128): (r: Result<Effect>)
    ensures accountId !in s.stakeInfo ==> r == Err(NotStaked)
    ensures accountId in s.stakeInfo && s.stakeInfo[accountId].amountStaked == 0 ==>
      r == Err(StakedLessThanAmount)
    ensures accountId in s.stakeInfo && s.stakeInfo[accountId].amountStaked > 0 && amount == 0 ==>
      r == Err(InvalidAmount)
    ensures accountId in s.stakeInfo && amount > s.stakeInfo[accountId].amountStaked > 0 ==>
      r == Err(SubOverflow)
    ensures r.Ok? <==>
      accountId in s.stakeInfo && 0 < amount <= s.stakeInfo[accountId].amountStaked
      && PendingReward(s, accountId, env.now).Ok? && amount <= s.totalStaked
    ensures r.Ok? ==>
      var info := s.stakeInfo[accountId];
      accountId in s.stakeInfo && 0 < amount <= info.amountStaked
      && r.value.after.totalStaked == s.totalStaked - amount
      && r.value.after.totalStakers == s.totalStakers
      && r.value.after.tokenAddress == s.tokenAddress
      && PendingReward(s, accountId, env.now).Ok?
      && r.value.after.stakeInfo == s.stakeInfo[accountId :=
           Settled(info, PendingReward(s, accountId, env.now).value, env.now)
             .(amountStaked := info.amountStaked - amount)]
    ensures r.Ok? ==> r.value.promises == [FtTransfer(s.tokenAddress, env.signer, amount)]
  {
    if accountId !in s.stakeInfo then Err(NotStaked)
    else if s.stakeInfo[accountId].amountStaked == 0 then Err(StakedLessThanAmount)
    else if amount == 0 then Err(InvalidAmount)
    else
      var info := s.stakeInfo[accountId];
      var principal :- SubU128(info.amountStaked, amount);
      var pending :- PendingReward(s, accountId, env.now);
      var staked :- SubU128(s.totalStaked, amount);
      var record := Settled(info, pending, env.now).(amountStaked := principal);
      Ok(Effect(s.(totalStaked := staked, stakeInfo := s.stakeInfo[accountId := record]),
                [FtTransfer(s.tokenAddress, env.signer, amount)]))
  }

  function ClaimReward(s: State, env: Env, accountId: AccountId): (r: Result<Effect>)
    ensures accountId !in s.stakeInfo ==> r == Err(NotStaked)
    ensures PendingReward(s, accountId, env.now) == Ok(0) ==> r == Err(NoReward)
    ensures r.Ok? <==>
      accountId in s.stakeInfo && PendingReward(s, accountId, env.now).Ok?
      && PendingReward(s, accountId, env.now).value > 0
    ensures r.Ok? ==>
      r.value.after == s.(stakeInfo := s.stakeInfo[accountId := Settled(s.stakeInfo[accountId], 0, env.now)])
    ensures r.Ok? ==>
      r.value.promises == [FtTransfer(s.tokenAddress, env.signer, PendingReward(s, accountId, env.now).value)]
  {
    if accountId !in s.stakeInfo then Err(NotStaked)
    else
      var reward :- PendingReward(s, accountId, env.now);
      if reward == 0 then Err(NoReward)
      else
        var record := Settled(s.stakeInfo[accountId], 0, env.now);
        Ok(Effect(s.(stakeInfo := s.stakeInfo[accountId := record]),
                  [FtTransfer(s.tokenAddress, env.signer, reward)]))
  }

  function UpdateApr(s: State, env: Env, advisorId: AccountId, vote: U8): (r: Result<Effect>)
    ensures advisorId !in s.stakeInfo ==> r == Err(AdvisorNotStaked)
    ensures r.Ok? <==> advisorId in s.stakeInfo && VoteCopy(s, env, advisorId, vote).Ok?
    ensures r.Ok? ==>
      r.value == Effect(s.(stakeInfo := s.stakeInfo[advisorId := VoteCopy(s, env, advisorId, vote).value]), [])
  {
    if advisorId !in s.stakeInfo then Err(AdvisorNotStaked)
    else
      var pending :- PendingReward(s, advisorId, env.now);
      var record :- ApplyVote(Settled(s.stakeInfo[advisorId], pending, env.now), vote);
      Ok(Effect(s.(stakeInfo := s.stakeInfo[advisorId := record]), []))
  }

  /** The ledger's intended invariant: `total_staked` is the sum of the
      principals and `total_stakers` the number of records. */
  ghost predicate Invariant(s: State) {
    s.totalStaked == TotalStaked(s.stakeInfo) && s.totalStakers == |s.stakeInfo|
  }

  lemma InitialInvariant(token: AccountId)
    ensures Invariant(New(token))
  {
  }

  lemma StakeInvariant(s: State, env: Env, accountId: AccountId, amount: U128)
    requires Invariant(s) && StakeToken(s, env, accountId, amount).Ok?
    ensures Invariant(StakeToken(s, env, accountId, amount).value.after)
  {
    var after := StakeToken(s, env, accountId, amount).value.after;
    TotalUpdate(s.stakeInfo, accountId, after.stakeInfo[accountId]);
  }

  lemma UnstakeInvariant(s: State, env: Env, accountId: AccountId, amount: U128)
    requires Invariant(s) && UnstakeToken(s, env, accountId, amount).Ok?
    ensures Invariant(UnstakeToken(s, env, accountId, amount).value.after)
  {
    var after := UnstakeToken(s, env, accountId, amount).value.after;
    TotalUpdate(s.stakeInfo, accountId, after.stakeInfo[accountId]);
  }

  lemma ClaimInvariant(s: State, env: Env, accountId: AccountId)
    requires Invariant(s) && ClaimReward(s, env, accountId).Ok?
    ensures Invariant(ClaimReward(s, env, accountId).value.after)
  {
    var after := ClaimReward(s, env, accountId).value.after;
    TotalUpdate(s.stakeInfo, accountId, after.stakeInfo[accountId]);
  }

  lemma VoteInvariant(s: State, env: Env, advisorId: AccountId, vote: U8)
    requires Invariant(s) && UpdateApr(s, env, advisorId, vote).Ok?
    ensures Invariant(UpdateApr(s, env, advisorId, vote).value.after)
  {
    var after := UpdateApr(s, env, advisorId, vote).value.after;
    TotalUpdate(s.stakeInfo, advisorId, after.stakeInfo[advisorId]);
  }

  /** Under the invariant, an unstake of at most the account's principal
      never underflows `total_staked`: it commits whenever the pending
      reward can be computed. */
  lemma UnstakeWithinPrincipalCommits(s: State, env: Env, accountId: AccountId, amount: U128)
    requires Invariant(s) && accountId in s.stakeInfo
    requires 0 < amount <= s.stakeInfo[accountId].amountStaked
    requires PendingReward(s, accountId, env.now).Ok?
    ensures UnstakeToken(s, env, accountId, amount).Ok?
  {
    TotalRemove(s.stakeInfo, accountId);
  }

  /** A claim settles the record, so the same claim at the same moment finds
      no reward. */
  lemma ClaimThenClaimFails(s: State, env: Env, accountId: AccountId)
    requires ClaimReward(s, env, accountId).Ok?
    ensures ClaimReward(ClaimReward(s, env, accountId).value.after, env, accountId) == Err(NoReward)
  {
    var after := ClaimReward(s, env, accountId).value.after;
    ZeroElapsed(after.stakeInfo[accountId]);
  }

  /** Settling at a moment does not change the reward pending at that
      moment: stakes, unstakes and votes never add or lose reward already
      earned, and a vote's new rate applies only to time after it. */
  lemma StakeKeepsPending(s: State, env: Env, accountId: AccountId, amount: U128)
    requires StakeToken(s, env, accountId, amount).Ok? && accountId in s.stakeInfo
    ensures PendingReward(StakeToken(s, env, accountId, amount).value.after, accountId, env.now)
         == PendingReward(s, accountId, env.now)
  {
    ZeroElapsed(StakeToken(s, env, accountId, amount).value.after.stakeInfo[accountId]);
  }

  lemma UnstakeKeepsPending(s: State, env: Env, accountId: AccountId, amount: U128)
    requires UnstakeToken(s, env, accountId, amount).Ok?
    ensures PendingReward(UnstakeToken(s, env, accountId, amount).value.after, accountId, env.now)
         == PendingReward(s, accountId, env.now)
  {
    ZeroElapsed(UnstakeToken(s, env, accountId, amount).value.after.stakeInfo[accountId]);
  }

  lemma VoteKeepsPending(s: State, env: Env, advisorId: AccountId, vote: U8)
    requires UpdateApr(s, env, advisorId, vote).Ok?
    ensures PendingReward(UpdateApr(s, env, advisorId, vote).value.after, advisorId, env.now)
         == PendingReward(s, advisorId, env.now)
  {
    ZeroElapsed(UpdateApr(s, env, advisorId, vote).value.after.stakeInfo[advisorId]);
  }

  /** A deposit followed at once by a withdrawal of the same amount restores
      the principal and leaves the pending reward as it was. */
  lemma StakeThenUnstake(s: State, env: Env, accountId: AccountId, amount: U128)
    requires accountId in s.stakeInfo
    requires StakeToken(s, env, accountId, amount).Ok?
    requires UnstakeToken(StakeToken(s, env, accountId, amount).value.after, env, accountId, amount).Ok?
    ensures var after := UnstakeToken(StakeToken(s, env, accountId, amount).value.after, env, accountId, amount).value.after;
      GetStakedAmount(after, accountId) == GetStakedAmount(s, accountId)
      && PendingReward(after, accountId, env.now) == PendingReward(s, accountId, env.now)
      && after.totalStaked == s.totalStaked
  {
    var mid := StakeToken(s, env, accountId, amount).value.after;
    StakeKeepsPending(s, env, accountId, amount);
    UnstakeKeepsPending(mid, env, accountId, amount);
  }

  /** With the voted record stored, a decreasing vote can undo an
      increasing one: 4 then 2, or 5 then 1, at the same moment restores
      the account's `apr` and `votes`. */
  lemma RaiseThenLower(s: State, env: Env, advisorId: AccountId, up: U8)
    requires up == 4 || up == 5
    requires UpdateApr(s, env, advisorId, up).Ok?
    ensures var mid := UpdateApr(s, env, advisorId, up).value.after;
      UpdateApr(mid, env, advisorId, 6 - up).Ok?
      && UpdateApr(mid, env, advisorId, 6 - up).value.after.stakeInfo[advisorId].apr == s.stakeInfo[advisorId].apr
      && UpdateApr(mid, env, advisorId, 6 - up).value.after.stakeInfo[advisorId].votes == s.stakeInfo[advisorId].votes
  {
    var pending := PendingReward(s, advisorId, env.now).value;
    var settled := Settled(s.stakeInfo[advisorId], pending, env.now);
    var mid := UpdateApr(s, env, advisorId, up).value.after;
    var raised := mid.stakeInfo[advisorId];
    assert raised == ApplyVote(settled, up).value;
    ZeroElapsed(raised);
    assert Settled(raised, raised.reward, env.now) == raised;
    VoteUndone(settled, up);
  }

  /** Unstaking more than is staked aborts, whatever else holds: 100 staked,
      150 requested. */
  lemma OverdrawExample(s: State, env: Env, accountId: AccountId)
    requires accountId in s.stakeInfo && s.stakeInfo[accountId].amountStaked == 100
    ensures UnstakeToken(s, env, accountId, 150) == Err(SubOverflow)
    ensures GetStakedAmount(s, accountId) == Ok(100)
  {
  }
}
