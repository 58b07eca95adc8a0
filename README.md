# Staking ledger (spk-stake) in Dafny

A model of the NEAR staking contract in `src/lib.rs`. The contract keeps,
per account, a `StakeInfo` record (when the interest clock last started,
the principal, the stored reward, the APR and a vote counter), and two
counters, `total_stakers` and `total_staked`. Reward accrues as integer
fixed-point interest:
`amount_staked * elapsed * apr / (31536000 * ONE_TOKEN * 100) + reward`,
where an `apr` of `ONE_TOKEN` (10^24) means 1 percent.

The model follows the code as written. Where the code changes an existing
record, it changes a local copy that is never inserted back into the
`stake_info` map. So in the as-written model:

- the stored records change only when an account stakes for the first time;
- the counters still move;
- claims, unstakes and votes have no lasting effect on the record.

A separate module, `WriteBack`, models the evidently intended ledger. It
writes every record back, and over it `total_staked` equals the sum of the
principals.

Files and modules:

- `numeric.dfy` (`Numeric`): the `u8`, `u128` and `i64` ranges, the checked
  arithmetic of a build with overflow checks (a panic is an error result),
  the `i64 as u128` cast, and the error kinds.
- `reward.dfy` (`Reward`): the constants, `StakeInfo`, the reference
  `Interest`, and `PendingRewardOf` with its lemmas.
- `governance.dfy` (`Governance`): the five-level vote table `ApplyVote`.
- `ledger.dfy` (`Ledger`): the contract state as a value and every public
  call as a function from state to `Result<Effect>`, as written. An
  `Effect` is the new state plus the calls scheduled on the token contract.
- `ledger_facts.dfy` (`LedgerFacts`): sequences of calls over the
  as-written model, the invariant they keep, and the places where it falls
  short.
- `totals.dfy` (`Totals`): the sum of the principals over a map.
- `write_back.dfy` (`WriteBack`): the corrected transitions and their
  invariant.
- `contract.dfy` (`StakeContract`): the `Contract` class. Its fields are updated in
  place, and each method is proved to do exactly what its `Ledger` function
  says.

The host environment is a parameter `Env(now, signer, current)`. It stands
for `Utc::now().timestamp()`, `env::signer_account_id()` and
`env::current_account_id()`. Cross-contract calls become `Promise` values.
`unstake_token` and `claim_reward` schedule `ft_transfer` to the signer.
`stake_token` schedules `ft_transfer_call` to the contract's own account,
followed by `ft_resolve_transfer`. A call that aborts schedules nothing and
changes nothing.

Points where the code behaves differently than a staking ledger might be
expected to; the model follows the code:

- The reward divisor includes the factor 100, because `apr` is a percentage
  in the code.
- `votes` is an unsigned `u8` that starts at 0, not a signed counter.
- Unstaking more than the principal aborts on `u128` underflow. It does not
  raise a dedicated error.
- A vote that would take `apr` or `votes` below zero aborts on underflow.
- `stake_token` itself schedules the deposit transfer. It is not driven by
  a notification from the token contract.
- No record is written back, as described above.

## Model

| member | source | states |
|---|---|---|
| Numeric.I64AsU128 | src/lib.rs:165 | `time_last as u128` is congruent to the elapsed time modulo 2^128: it keeps a non-negative elapsed time and maps a negative one to within 2^63 of 2^128 |
| Reward.PendingRewardOf | src/lib.rs:162-167 | for a clock not before `time_staked`, it succeeds exactly when every intermediate fits its width, and then equals the exact interest plus the stored reward; it fails only with an arithmetic overflow |
| Reward.InterestMonotone | src/lib.rs:165-166 | the interest formula does not decrease as the elapsed time grows |
| Reward.OneYearAtPercent | src/lib.rs:16-18 | over one year, an APR of p tokens pays exactly p percent of the principal, rounded down |
| Reward.ZeroElapsed | src/lib.rs:164-167 | with no elapsed time the pending reward is the stored reward |
| Reward.PendingMonotone | src/lib.rs:164-167 | for a fixed record the pending reward does not decrease as `now` advances; a success at a later time implies success earlier |
| Reward.OneYearExample | src/lib.rs:18 | 1,000,000 units at `DEFAULT_APR` for 31,536,000 s give 50,000 |
| Reward.ClockBehindAborts | src/lib.rs:164-166 | a clock earlier than `time_staked` aborts the reward of any record holding principal at an APR of 2 units or more |
| Governance.ApplyVote | src/lib.rs:189-211 | a vote outside 1..5 is rejected; 3 changes nothing; 4 and 5 add 1 or 2 steps of `POINT_ONE_TOKEN` to `apr` and 1 or 2 to `votes`, 2 and 1 subtract them; a vote commits exactly when both fields stay in range; a decrease fails with an underflow and an increase with an overflow |
| Governance.VoteUndone | src/lib.rs:190-208 | a vote of 4 is undone by 2, and 5 by 1 |
| Ledger.New | src/lib.rs:60-67 | a new contract has zero counters, no records and the given token address |
| Ledger.PendingReward | src/lib.rs:157-168 | fails with "no stake" when there is no record, otherwise gives the record's interest plus its stored reward, failing on overflow |
| Ledger.GetStakedAmount | src/lib.rs:170-176 | succeeds exactly when there is a record, and gives its principal |
| Ledger.StakeToken | src/lib.rs:70-110 | amount 0 is rejected; a committed first stake inserts the fresh record and adds 1 to `total_stakers`; a committed later stake leaves the map and `total_stakers` as they were; every commit raises `total_staked` by exactly the amount and schedules the deposit transfer; it commits exactly when the counters and the record copy do not overflow |
| Ledger.UnstakeToken | src/lib.rs:113-135 | rejects a missing record, a zero principal, a zero amount and an amount above the principal; on commit only `total_staked` changes, lowered by exactly the amount, and a transfer of the amount to the signer is scheduled |
| Ledger.ClaimReward | src/lib.rs:138-155 | rejects a missing record and a zero pending reward; commits exactly when the pending reward is positive, changes no state, and schedules a transfer of exactly that reward to the signer |
| Ledger.UpdateApr | src/lib.rs:180-213 | rejects a missing record and an invalid vote; commits exactly when the voted copy can be computed, and then changes nothing |
| LedgerFacts.InitialInvariant | src/lib.rs:60-67 | a new contract satisfies the as-written invariant |
| LedgerFacts.StepKeepsRecords | src/lib.rs:74-93 | a committed call keeps every existing record unchanged; the only new record is that of a first stake |
| LedgerFacts.StepInvariant | src/lib.rs:70-213 | each committed call keeps `total_stakers` equal to the number of records, and every record as its first stake created it |
| LedgerFacts.RunInvariant | src/lib.rs:70-213 | the same invariant holds after any sequence of calls |
| LedgerFacts.RunFreezesRecords | src/lib.rs:76-80 | no sequence of calls changes a record once it exists |
| LedgerFacts.RunStakersGrow | src/lib.rs:90 | `total_stakers` never decreases |
| LedgerFacts.DecreasingVoteAborts | src/lib.rs:190-196 | in any reachable state, votes 1 and 2 always abort, because `votes` stays 0 |
| LedgerFacts.ClaimPaysAgain | src/lib.rs:144-154 | a committed claim can be repeated at once and pays the same reward again |
| LedgerFacts.UnstakeTwiceExample | src/lib.rs:119-134 | one account can unstake its 100 units twice, draining `total_staked` while another account's record still reports 100 |
| LedgerFacts.RestakeDivergesExample | src/lib.rs:76-93 | after staking 100 and then 50, `total_staked` is 150 while the records sum to 100 |
| LedgerFacts.AnySignerUnstakesExample | src/lib.rs:113-132 | any signer can unstake another account's principal, and the transfer goes to the signer |
| LedgerFacts.StakeCopyDoublesReward | src/lib.rs:79 | the record copy made by a restake at zero elapsed time holds twice the stored reward |
| LedgerFacts.UnstakeCopyDoublesReward | src/lib.rs:128 | the record copy made by an unstake at zero elapsed time holds twice the stored reward |
| WriteBack.StakeToken | src/lib.rs:70-93 | commits exactly when the counters, the principal and the pending reward do not overflow; as `stake_token`, but a restake stores the settled record with the principal raised by the amount |
| WriteBack.UnstakeToken | src/lib.rs:113-135 | commits exactly when the record exists, the amount is positive and at most the principal and `total_staked`, and the pending reward can be computed; as `unstake_token`, but on commit it stores the settled record with the principal lowered by the amount |
| WriteBack.ClaimReward | src/lib.rs:138-155 | as `claim_reward`, but on commit it stores the record with reward 0 and the clock restarted |
| WriteBack.UpdateApr | src/lib.rs:180-213 | as `update_apr`, but on commit it stores the voted, settled record |
| WriteBack.InitialInvariant | src/lib.rs:60-67 | a new contract satisfies the sum invariant |
| WriteBack.StakeInvariant | src/lib.rs:70-93 | a committed stake keeps `total_staked` equal to the sum of the principals and `total_stakers` equal to the number of records |
| WriteBack.UnstakeInvariant | src/lib.rs:113-135 | a committed unstake keeps the same invariant |
| WriteBack.ClaimInvariant | src/lib.rs:138-155 | a committed claim keeps the same invariant |
| WriteBack.VoteInvariant | src/lib.rs:180-213 | a committed vote keeps the same invariant |
| WriteBack.UnstakeWithinPrincipalCommits | src/lib.rs:126-134 | under the invariant, an unstake of at most the principal never underflows `total_staked` |
| WriteBack.ClaimThenClaimFails | src/lib.rs:146-154 | after a committed claim, the same claim at the same moment fails with "no reward" |
| WriteBack.StakeKeepsPending | src/lib.rs:76-79 | a restake does not change the reward pending at that moment |
| WriteBack.UnstakeKeepsPending | src/lib.rs:126-128 | an unstake does not change the reward pending at that moment |
| WriteBack.VoteKeepsPending | src/lib.rs:186-188 | a vote does not change the reward pending at that moment, so a new rate applies only afterwards |
| WriteBack.StakeThenUnstake | src/lib.rs:70-135 | a stake followed at once by an unstake of the same amount restores the principal, `total_staked` and the pending reward |
| WriteBack.RaiseThenLower | src/lib.rs:189-208 | with records written back, a vote of 4 or 5 followed at once by 2 or 1 restores `apr` and `votes` |
| WriteBack.OverdrawExample | src/lib.rs:126 | with 100 staked, unstaking 150 aborts on underflow, and the principal stays 100 |
| StakeContract.Contract.constructor | src/lib.rs:60-67 | the fields hold the initial state and no call is scheduled |
| StakeContract.Contract.PendingReward | src/lib.rs:157-168 | the step-by-step computation gives exactly `Ledger.PendingReward` |
| StakeContract.Contract.GetStakedAmount | src/lib.rs:170-176 | gives exactly `Ledger.GetStakedAmount` |
| StakeContract.Contract.StakeToken | src/lib.rs:70-110 | the in-place update gives the state and the scheduled calls of `Ledger.StakeToken`, or aborts with its error and changes nothing |
| StakeContract.Contract.UnstakeToken | src/lib.rs:113-135 | the same for `Ledger.UnstakeToken` |
| StakeContract.Contract.ClaimReward | src/lib.rs:138-155 | the same for `Ledger.ClaimReward` |
| StakeContract.Contract.UpdateApr | src/lib.rs:180-213 | the same for `Ledger.UpdateApr` |

## Findings

| source | as written | input that shows it | evidently intended | confidence | as-written member | corrected member |
|---|---|---|---|---|---|---|
| src/lib.rs:76-80 | a restake updates a local copy of the record and never inserts it | stake 100, then 50, at t = 0: `total_staked` is 150, the record says 100 | insert the updated record, so that `total_staked` matches the records | high, not executed | LedgerFacts.RestakeDivergesExample | WriteBack.StakeInvariant |
| src/lib.rs:119-128 | an unstake lowers only the counter, not the stored principal | alice and bob each stake 100; alice unstakes 100 twice; both commit, `total_staked` is 0, bob's record says 100 | store the lowered principal, so an account can withdraw only what it staked | high, not executed | LedgerFacts.UnstakeTwiceExample | WriteBack.UnstakeWithinPrincipalCommits |
| src/lib.rs:144-154 | a claim never resets the stored reward or clock | a claim that commits can be repeated at once and pays again | store `reward = 0` and `time_staked = now` | high, not executed | LedgerFacts.ClaimPaysAgain | WriteBack.ClaimThenClaimFails |
| src/lib.rs:79 | `reward += pending_reward`, but `pending_reward` already includes the stored reward | a record with reward R restaked at zero elapsed time gets 2R in its copy | `reward = pending_reward`, as `update_apr` does at line 187 | medium, not executed | LedgerFacts.StakeCopyDoublesReward | WriteBack.StakeKeepsPending |
| src/lib.rs:128 | `reward += pending_reward` in `unstake_token`, the same double counting | a record with reward R unstaked from at zero elapsed time gets 2R in its copy | `reward = pending_reward` | medium, not executed | LedgerFacts.UnstakeCopyDoublesReward | WriteBack.UnstakeKeepsPending |
| src/lib.rs:186-212 | the voted record is never inserted, so `votes` stays 0 | any reachable state: the votes 1 and 2 always abort, and 4 and 5 change nothing | store the voted record, so that a decrease can follow an increase | high, not executed | LedgerFacts.DecreasingVoteAborts | WriteBack.RaiseThenLower |

## Left out

- `assert_one_yocto` (the attached deposit of 1 yoctoNEAR) and `#[private]` on `update_apr`: host-runtime checks of the caller. Every call is modelled as one that has passed them.
- The promise machinery: gas constants, `.then(...)` chaining and the outcome of the scheduled calls. `Promise` values record each call's intent only. The source has no callback that reconciles or rolls back a failed transfer.
- `src/external.rs`: an `ext_contract` trait declaration with no logic, not part of this model.
- Borsh serialization and the `LookupMap` storage key. `stake_info` is a Dafny `map`.
- Reading the clock. `now` is an `i64` parameter, one per call, although the source reads `Utc::now()` more than once within a call (src/lib.rs:77 and 164, 127 and 164, 164 and 188); whether successive calls see a non-decreasing clock is not modelled. A clock behind `time_staked` is modelled through the `as u128` cast, as described above.
- Order of a panic relative to writes: a panic reverts every write of the call, so `StakeContract.Contract` makes each check before its first field write. The observable result is the same.
- The overflow behaviour assumes a build with overflow checks on, as NEAR contracts are normally built. The crate's build profile is not part of this model.
