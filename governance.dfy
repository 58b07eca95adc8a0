/** The five-level APR vote of `update_apr` (src/lib.rs:189-211), as the
    change it makes to a record. */
module Governance {
  import opened Numeric
  import opened Reward

  /** The signed weight of a vote level: 1 is -2 steps, 2 is -1, 3 is 0,
      4 is +1 and 5 is +2; one step is 0.1 percentage points of APR and one
      unit of `votes`. */
  function VoteWeight(vote: int): int
    requires 1 <= vote <= 5
  {
    vote - 3
  }

  /** The record after a vote: `apr` moves by the weight in steps of
      POINT_ONE_TOKEN and `votes` by the weight. Both fields are unsigned,
      so the vote aborts when either would leave its range; any level
      outside 1..5 is rejected. */
  function ApplyVote(info: StakeInfo, vote: U8): (r: Result<StakeInfo>)
    ensures !(1 <= vote <= 5) ==> r == Err(InvalidVote)
    ensures 1 <= vote <= 5 ==>
      (r.Ok? <==> 0 <= info.apr + VoteWeight(vote) * POINT_ONE_TOKEN <= U128_MAX
                  && 0 <= info.votes + VoteWeight(vote) <= U8_MAX)
    ensures r.Ok? ==>
      r.value == info.(apr := info.apr + VoteWeight(vote) * POINT_ONE_TOKEN,
                       votes := info.votes + VoteWeight(vote))
    ensures (vote == 1 || vote == 2) && r.Err? ==> r.error == SubOverflow
    ensures (vote == 4 || vote == 5) && r.Err? ==> r.error == AddOverflow
  {
    match vote
    case 1 =>
      var apr :- SubU128(info.apr, POINT_ONE_TOKEN * 2);
      var votes :- SubU8(info.votes, 2);
      Ok(info.(apr := apr, votes := votes))
    case 2 =>
      var apr :- SubU128(info.apr, POINT_ONE_TOKEN);
      var votes :- SubU8(info.votes, 1);
      Ok(info.(apr := apr, votes := votes))
    case 3 =>
      Ok(info)
    case 4 =>
      var apr :- AddU128(info.apr, POINT_ONE_TOKEN);
      var votes :- AddU8(info.votes, 1);
      Ok(info.(apr := apr, votes := votes))
    case 5 =>
      var apr :- AddU128(info.apr, POINT_ONE_TOKEN * 2);
      var votes :- AddU8(info.votes, 2);
      Ok(info.(apr := apr, votes := votes))
    case _ =>
      Err(InvalidVote)
  }

  /** An increasing vote is undone by the decreasing vote of the same
      weight: 4 by 2 and 5 by 1. */
  lemma VoteUndone(info: StakeInfo, up: U8)
    requires up == 4 || up == 5
    requires ApplyVote(info, up).Ok?
    ensures ApplyVote(ApplyVote(info, up).value, 6 - up) == Ok(info)
  {
    var raised := ApplyVote(info, up).value;
    assert VoteWeight(6 - up) == -VoteWeight(up);
    assert raised.(apr := raised.apr + VoteWeight(6 - up) * POINT_ONE_TOKEN,
                   votes := raised.votes + VoteWeight(6 - up)) == info;
  }
}
