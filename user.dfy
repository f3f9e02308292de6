/** The voting rules of a user: how much a vote weighs, whether the user
    may vote on a votable, and the initial reputation. */
module Users {

  import opened Optional
  import opened Refs

  /** A vote the user has cast: the votable it was cast on and whether it
      was cast today. */
  datatype Vote = Vote(votable: Ref, isToday: bool)

  /** The weight of the user's votes: nothing for a reputation that is not
      positive, otherwise `log10Power` of the reputation (a conversion this
      model leaves abstract). */
  function VotingPower(reputation: int, log10Power: int -> int): (p: int)
    ensures reputation <= 0 ==> p == 0
    ensures reputation > 0 ==> p == log10Power(reputation)
  {
    if reputation <= 0 then 0 else log10Power(reputation)
  }

  /** How many of `votes` were cast today. */
  function TodayCount(votes: seq<Vote>): (n: nat)
    ensures n <= |votes|
    ensures n == 0 <==> forall k :: 0 <= k < |votes| ==> !votes[k].isToday
    decreases |votes|
  {
    if votes == [] then 0
    else
      var last := |votes| - 1;
      TodayCount(votes[..last]) + (if votes[last].isToday then 1 else 0)
  }

  /** Whether one of `votes` was cast on `votable`. */
  predicate HasVoteOn(votes: seq<Vote>, votable: Ref)
  {
    exists k :: 0 <= k < |votes| && votes[k].votable == votable
  }

  /** A user may vote while under the daily limit and only once per
      votable. */
  function CanVote(votes: seq<Vote>, votable: Ref, dailyLimit: int): (ok: bool)
    ensures ok ==> TodayCount(votes) < dailyLimit
    ensures ok ==> forall k :: 0 <= k < |votes| ==> votes[k].votable != votable
    ensures TodayCount(votes) < dailyLimit && (forall k :: 0 <= k < |votes| ==> votes[k].votable != votable) ==> ok
  {
    TodayCount(votes) < dailyLimit && !HasVoteOn(votes, votable)
  }

  /** Once a vote is cast on a votable, the user may not vote on it again,
      whatever the limit. */
  lemma VotedVotableRefused(votes: seq<Vote>, votable: Ref, isToday: bool, dailyLimit: int)
    ensures !CanVote(votes + [Vote(votable, isToday)], votable, dailyLimit)
  {
    var after := votes + [Vote(votable, isToday)];
    assert after[|votes|].votable == votable;
  }

  /** Casting today's vote with one vote left of the daily limit exhausts
      it: no further vote is allowed today, on any votable. */
  lemma {:induction false} LastVoteOfDay(votes: seq<Vote>, votable: Ref, other: Ref, dailyLimit: int)
    requires CanVote(votes, votable, dailyLimit) && TodayCount(votes) == dailyLimit - 1
    ensures !CanVote(votes + [Vote(votable, true)], other, dailyLimit)
  {
    var after := votes + [Vote(votable, true)];
    assert after[..|votes|] == votes;
    assert TodayCount(after) == dailyLimit;
  }

  /** Every vote in `votes` was cast while `can_vote?` held for the votes
      before it. */
  ghost predicate CastWhileAllowed(votes: seq<Vote>, dailyLimit: int)
  {
    forall n :: 0 <= n < |votes| ==> CanVote(votes[..n], votes[n].votable, dailyLimit)
  }

  /** Votes cast only while allowed are on pairwise distinct votables. */
  lemma {:induction false} AllowedVotesAreDistinct(votes: seq<Vote>, dailyLimit: int)
    requires CastWhileAllowed(votes, dailyLimit)
    ensures forall i, j :: 0 <= i < j < |votes| ==> votes[i].votable != votes[j].votable
  {
    forall i, j | 0 <= i < j < |votes|
      ensures votes[i].votable != votes[j].votable
    {
      assert CanVote(votes[..j], votes[j].votable, dailyLimit);
      assert votes[..j][i] == votes[i];
    }
  }

  /** Votes cast only while allowed never exceed the daily limit today. */
  lemma {:induction false} AllowedVotesWithinLimit(votes: seq<Vote>, dailyLimit: int)
    requires CastWhileAllowed(votes, dailyLimit)
    ensures TodayCount(votes) <= if dailyLimit < 0 then 0 else dailyLimit
  {
    if votes != [] {
      var last := |votes| - 1;
      assert CanVote(votes[..last], votes[last].votable, dailyLimit);
    }
  }

  class User {
    /** Ruby's nil is None. */
    var reputation: Option<int>

    constructor (reputation: Option<int>)
      ensures this.reputation == reputation
    {
      this.reputation := reputation;
    }

    /** The before-create callback: a missing reputation becomes the
        initial one; an existing reputation is kept. */
    method AddReputation(initialReputation: int)
      modifies this`reputation
      ensures old(reputation).None? ==> reputation == Some(initialReputation)
      ensures old(reputation).Some? ==> reputation == old(reputation)
    {
      if reputation.None? {
        reputation := Some(initialReputation);
      }
    }
  }
}
