/**
 * The records of src/app/lib/utils.tsx: votes, members, battles and the
 * status enumeration, as plain values.
 */
module Entities {
  import opened Wrappers

  /** The value of a vote: side 0, side 1 of the battle, or "TIE". */
  datatype Choice = Side0 | Side1 | Tie

  /** One ballot. `timestamp` is a millisecond time supplied by the caller. */
  datatype Vote = Vote(memberID: string, vote: Choice, timestamp: int)

  /** A participant of an activity. `spectator` is an optional field. */
  datatype Member = Member(
    id: string,
    name: string,
    activityID: string,
    joinTime: int,
    spectator: Option<bool>)

  /** The five battle statuses. Nothing in the core orders them. */
  datatype Status = Pending | Ongoing | Voting | Voted | Completed

  /**
   * A battle document. `memberIDs` holds the two competitors; `votes` is
   * the document's own array field, distinct from the `votes`
   * sub-collection that ballots are written to (see Documents).
   */
  datatype Battle = Battle(
    id: string,
    name: string,
    description: string,
    memberIDs: seq<string>,
    winnerID: Option<string>,
    votes: seq<Vote>,
    status: Status,
    startTime: Option<int>,
    endTime: Option<int>)

  /** The counts object `{ 0: n, 1: n, "TIE": n }`. */
  datatype VoteCounts = VoteCounts(side0: nat, side1: nat, tie: nat)
}
