/**
 * The stored documents the core writes to, held in memory: a battle with
 * its `votes` sub-collection, and a Seven-to-Smoke activity. Each method
 * is the record change one write function of src/app/lib/utils.tsx makes.
 */
module Documents {
  import opened Wrappers
  import opened Entities
  import opened SevenToSmoke

  /** The votes sub-collection after the ballot `v` is written under the key `v.memberID`. */
  function WithVote(votes: map<string, Vote>, v: Vote): (r: map<string, Vote>)
    ensures r.Keys == votes.Keys + {v.memberID}
    ensures r[v.memberID] == v
    ensures forall id :: id in votes && id != v.memberID ==> r[id] == votes[id]
  {
    votes[v.memberID := v]
  }

  /** Every ballot is stored under its own voter's id. */
  predicate KeyedByVoter(votes: map<string, Vote>)
  {
    forall id :: id in votes ==> votes[id].memberID == id
  }

  /** In a sub-collection keyed by voter, the stored ballots hold at most one ballot per member. */
  lemma OneBallotPerVoter(votes: map<string, Vote>, a: string, b: string)
    requires KeyedByVoter(votes)
    requires a in votes && b in votes && a != b
    ensures votes[a].memberID != votes[b].memberID
  {
  }

  /** Writing a ballot keeps the sub-collection keyed by voter. */
  lemma WithVoteKeyedByVoter(votes: map<string, Vote>, v: Vote)
    requires KeyedByVoter(votes)
    ensures KeyedByVoter(WithVote(votes, v))
  {
  }

  /**
   * A resubmission overwrites: a member never holds two ballots, so the
   * number of stored ballots grows only on a member's first vote.
   */
  lemma WithVoteSize(votes: map<string, Vote>, v: Vote)
    ensures |WithVote(votes, v)| == if v.memberID in votes then |votes| else |votes| + 1
  {
    if v.memberID !in votes {
      assert WithVote(votes, v).Keys == votes.Keys + {v.memberID};
    } else {
      assert WithVote(votes, v).Keys == votes.Keys;
    }
  }

  /** Of two ballots by the same member, only the later one remains. */
  lemma LatestVoteWins(votes: map<string, Vote>, v1: Vote, v2: Vote)
    requires v1.memberID == v2.memberID
    ensures WithVote(WithVote(votes, v1), v2) == WithVote(votes, v2)
  {
  }

  /** Ballots of different members do not interfere: their order of arrival does not matter. */
  lemma VotesOfDifferentMembersCommute(votes: map<string, Vote>, v1: Vote, v2: Vote)
    requires v1.memberID != v2.memberID
    ensures WithVote(WithVote(votes, v1), v2) == WithVote(WithVote(votes, v2), v1)
  {
  }

  /** A battle document and the ballots of its `votes` sub-collection, keyed by voter id. */
  class BattleDocument {
    var battle: Battle
    var votes: map<string, Vote>

    ghost predicate Valid()
      reads this
    {
      KeyedByVoter(votes)
    }

    /**
     * createBattle: a stored battle starts with no ballots. The write itself
     * does not clear a sub-collection; it is empty because every caller
     * generates a fresh battle id.
     */
    constructor (b: Battle)
      ensures Valid()
      ensures battle == b && votes == map[]
    {
      battle := b;
      votes := map[];
    }

    /** updateBattleStatus: overwrites `status` only; any status may follow any other. */
    method UpdateBattleStatus(status: Status)
      requires Valid()
      modifies this
      ensures Valid()
      ensures battle == old(battle).(status := status)
      ensures votes == old(votes)
    {
      battle := battle.(status := status);
    }

    /**
     * resetBattle: clears the winner, puts the battle back to PENDING and
     * deletes every ballot of the sub-collection, one at a time. Name,
     * description, competitors, timestamps and the document's own `votes`
     * field are left as they were.
     */
    method ResetBattle()
      requires Valid()
      modifies this
      ensures Valid()
      ensures battle == old(battle).(winnerID := None, status := Pending)
      ensures votes == map[]
    {
      battle := battle.(winnerID := None, status := Pending);
      var pending := votes.Keys;
      while pending != {}
        invariant votes.Keys == pending
        invariant forall id :: id in votes ==> votes[id] == old(votes)[id]
        invariant battle == old(battle).(winnerID := None, status := Pending)
        decreases pending
      {
        var id :| id in pending;
        votes := votes - {id};
        pending := pending - {id};
      }
    }

    /**
     * createVote: writes the ballot under its voter's id. Afterwards the
     * voter holds exactly this ballot, everybody else's ballots are as
     * they were, and a resubmission replaces rather than adds.
     */
    method CreateVote(v: Vote)
      requires Valid()
      modifies this
      ensures Valid()
      ensures votes == WithVote(old(votes), v)
      ensures v.memberID in votes && votes[v.memberID] == v
      ensures forall id :: id != v.memberID ==> (id in votes <==> id in old(votes))
      ensures |votes| == if v.memberID in old(votes) then |old(votes)| else |old(votes)| + 1
      ensures battle == old(battle)
    {
      WithVoteKeyedByVoter(votes, v);
      WithVoteSize(votes, v);
      votes := WithVote(votes, v);
    }
  }

  /** The Seven-to-Smoke part of an activity document. */
  class ActivityDocument {
    var sevenToSmokeConfig: Config
    var sevenToSmokeState: State

    /** A new Seven-to-Smoke activity: target score 7 and the empty state. */
    constructor ()
      ensures sevenToSmokeConfig == Config(DefaultTargetScore)
      ensures sevenToSmokeState == EmptyState
    {
      sevenToSmokeConfig := Config(DefaultTargetScore);
      sevenToSmokeState := EmptyState;
    }

    /**
     * initializeSevenToSmokeState: replaces the whole state with the fresh
     * one built from `ids`; the configuration is untouched.
     */
    method InitializeSevenToSmokeState(ids: seq<string>)
      requires |ids| >= 2
      modifies this
      ensures sevenToSmokeState == InitialState(ids)
      ensures NoDuplicates(ids) ==> WellFormed(sevenToSmokeState)
      ensures sevenToSmokeConfig == old(sevenToSmokeConfig)
    {
      sevenToSmokeState := InitialState(ids);
      InitialStateWellFormed(ids);
    }

    /** resetSevenToSmokeState: whatever the state was, it becomes the empty sentinel. */
    method ResetSevenToSmokeState()
      modifies this
      ensures sevenToSmokeState == EmptyState
      ensures sevenToSmokeConfig == old(sevenToSmokeConfig)
    {
      sevenToSmokeState := EmptyState;
    }
  }
}
