/** What the transitions of `Ledger`, as written, guarantee over any
    sequence of calls, and the places where they fall short of what the
    ledger is meant to do. */
module LedgerFacts {
  import opened Numeric
  import opened Reward
  import opened Governance
  import opened Totals
  import opened Ledger

  /** One public call of the contract. */
  datatype Call =
    | Stake(accountId: AccountId, amount: U128)
    | Unstake(accountId: AccountId, amount: U128)
    | Claim(accountId: AccountId)
    | Vote(advisorId: AccountId, vote: U8)

  function Step(s: State, env: Env, call: Call): Result<Effect> {
    match call
    case Stake(a, amount) => StakeToken(s, env, a, amount)
    case Unstake(a, amount) => UnstakeToken(s, env, a, amount)
    case Claim(a) => ClaimReward(s, env, a)
    case Vote(a, vote) => UpdateApr(s, env, a, vote)
  }

  /** The state after the calls one after another; an aborted call leaves
      the state as it was. */
  function Run(s: State, calls: seq<(Env, Call)>): State
    decreases |calls|
  {
    if calls == [] then s
    else
      var r := Step(s, calls[0].0, calls[0].1);
      Run(if r.Ok? then r.value.after else s, calls[1..])
  }

  /** A stored record as the first stake creates it. */
  predicate AsCreated(info: StakeInfo) {
    info.amountStaked > 0 && info.reward == 0 && info.apr == DEFAULT_APR && info.votes == 0
  }

  /** What every reachable state satisfies under the as-written code: one
      staker per record, and every record exactly as its first stake made
      it, with only `timeStaked` and the principal free. */
  predicate Invariant(s: State) {
    s.totalStakers == |s.stakeInfo|
    && forall a :: a in s.stakeInfo ==> AsCreated(s.stakeInfo[a])
  }

  lemma InitialInvariant(token: AccountId)
    ensures Invariant(New(token))
  {
  }

  /** Every committed call keeps each existing record unchanged; the only
      new record is that of an account staking for the first time. */
  lemma StepKeepsRecords(s: State, env: Env, call: Call)
    requires Step(s, env, call).Ok?
    ensures var after := Step(s, env, call).value.after;
      (forall a :: a in s.stakeInfo ==> a in after.stakeInfo && after.stakeInfo[a] == s.stakeInfo[a])
      && (after.stakeInfo == s.stakeInfo
          || (call.Stake? && call.accountId !in s.stakeInfo
              && after.stakeInfo == s.stakeInfo[call.accountId := FirstRecord(env.now, call.amount)]))
  {
  }

  lemma StepInvariant(s: State, env: Env, call: Call)
    requires Invariant(s) && Step(s, env, call).Ok?
    ensures Invariant(Step(s, env, call).value.after)
  {
    StepKeepsRecords(s, env, call);
  }

  /** The invariant holds after any sequence of calls. */
  lemma {:induction false} RunInvariant(s: State, calls: seq<(Env, Call)>)
    requires Invariant(s)
    ensures Invariant(Run(s, calls))
    decreases |calls|
  {
    if calls != [] {
      var r := Step(s, calls[0].0, calls[0].1);
      if r.Ok? { StepInvariant(s, calls[0].0, calls[0].1); }
      RunInvariant(if r.Ok? then r.value.after else s, calls[1..]);
    }
  }

  /** No sequence of calls changes a record once it exists. */
  lemma {:induction false} RunFreezesRecords(s: State, calls: seq<(Env, Call)>, a: AccountId)
    requires a in s.stakeInfo
    ensures a in Run(s, calls).stakeInfo && Run(s, calls).stakeInfo[a] == s.stakeInfo[a]
    decreases |calls|
  {
    if calls != [] {
      var r := Step(s, calls[0].0, calls[0].1);
      if r.Ok? { StepKeepsRecords(s, calls[0].0, calls[0].1); }
      RunFreezesRecords(if r.Ok? then r.value.after else s, calls[1..], a);
    }
  }

  /** `total_stakers` never decreases. */
  lemma {:induction false} RunStakersGrow(s: State, calls: seq<(Env, Call)>)
    ensures Run(s, calls).totalStakers >= s.totalStakers
    decreases |calls|
  {
    if calls != [] {
      var r := Step(s, calls[0].0, calls[0].1);
      RunStakersGrow(if r.Ok? then r.value.after else s, calls[1..]);
    }
  }

  /** Because `votes` is never written back it stays 0, so a decreasing
      vote always aborts: the u8 `votes -= 1` or `votes -= 2` underflows
      when nothing else has aborted the call first. */
  lemma DecreasingVoteAborts(s: State, env: Env, advisorId: AccountId, vote: U8)
    requires Invariant(s) && (vote == 1 || vote == 2)
    ensures UpdateApr(s, env, advisorId, vote).Err?
  {
    if advisorId in s.stakeInfo && PendingReward(s, advisorId, env.now).Ok? {
      var pending := PendingReward(s, advisorId, env.now).value;
      var settled := s.stakeInfo[advisorId].(reward := pending, timeStaked := env.now);
      assert settled.votes == 0;
      assert ApplyVote(settled, vote).Err?;
    }
  }

  /** A committed claim changes nothing stored, so the same claim at the
      same moment commits again and pays the same reward a second time. */
  lemma ClaimPaysAgain(s: State, env: Env, accountId: AccountId)
    requires ClaimReward(s, env, accountId).Ok?
    ensures var e := ClaimReward(s, env, accountId).value;
      ClaimReward(e.after, env, accountId) == Ok(e)
  {
  }

  /** Two stakers at t = 0; the record of the first, 100 units at the
      default APR, still reports 100 after it unstakes 100 twice at the
      same moment, and both calls pay the signer. */
  lemma UnstakeTwiceExample()
    ensures var s0 := State(2, 200, map["alice" := FirstRecord(0, 100), "bob" := FirstRecord(0, 100)], "token");
      var env := Env(0, "alice", "stake");
      var r1 := UnstakeToken(s0, env, "alice", 100);
      r1.Ok? && UnstakeToken(r1.value.after, env, "alice", 100).Ok?
      && UnstakeToken(r1.value.after, env, "alice", 100).value.after.totalStaked == 0
      && GetStakedAmount(UnstakeToken(r1.value.after, env, "alice", 100).value.after, "bob") == Ok(100)
  {
    var info := FirstRecord(0, 100);
    ZeroElapsed(info);
  }

  /** `unstake_token` and `claim_reward` pay the signer, whoever the
      account argument names: here "mallory" unstakes all of alice's 100
      units and the transfer goes to mallory. */
  lemma AnySignerUnstakesExample()
    ensures var s0 := State(1, 100, map["alice" := FirstRecord(0, 100)], "token");
      var env := Env(0, "mallory", "stake");
      UnstakeToken(s0, env, "alice", 100).Ok?
      && UnstakeToken(s0, env, "alice", 100).value.promises == [FtTransfer("token", "mallory", 100)]
  {
    ZeroElapsed(FirstRecord(0, 100));
  }

  /** A second stake raises `total_staked` but not the record, so after it
      `total_staked` (150) no longer equals the sum of the principals (100). */
  lemma RestakeDivergesExample()
    ensures var env := Env(0, "alice", "stake");
      var r1 := StakeToken(New("token"), env, "alice", 100);
      r1.Ok? && StakeToken(r1.value.after, env, "alice", 50).Ok?
      && StakeToken(r1.value.after, env, "alice", 50).value.after.totalStaked == 150
      && TotalStaked(StakeToken(r1.value.after, env, "alice", 50).value.after.stakeInfo) == 100
  {
    var info := FirstRecord(0, 100);
    ZeroElapsed(info);
    TotalSingleton("alice", info);
  }

  /** The copy `stake_token` builds adds the pending reward to the stored
      reward, but the pending reward already includes the stored reward: at
      zero elapsed time a copy of a record with reward R holds 2R. */
  lemma StakeCopyDoublesReward(s: State, env: Env, accountId: AccountId, amount: U128)
    requires accountId in s.stakeInfo && env.now == s.stakeInfo[accountId].timeStaked
    requires StakeCopy(s, env, accountId, amount).Ok?
    ensures StakeCopy(s, env, accountId, amount).value.reward == 2 * s.stakeInfo[accountId].reward
  {
    ZeroElapsed(s.stakeInfo[accountId]);
  }

  /** The same double counting in the copy `unstake_token` builds: at zero
      elapsed time a copy of a record with reward R holds 2R. */
  lemma UnstakeCopyDoublesReward(s: State, env: Env, accountId: AccountId, amount: U128)
    requires accountId in s.stakeInfo && env.now == s.stakeInfo[accountId].timeStaked
    requires UnstakeCopy(s, env, accountId, amount).Ok?
    ensures UnstakeCopy(s, env, accountId, amount).value.reward == 2 * s.stakeInfo[accountId].reward
  {
    ZeroElapsed(s.stakeInfo[accountId]);
  }
}
