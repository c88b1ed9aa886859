# Battle voting: tally, winner and Seven-to-Smoke state

A Dafny model of the logic in `src/app/lib/utils.tsx` of a live battle-voting
app. Attendees vote on two-competitor battles. An organiser moves each battle
through PENDING, ONGOING, VOTING, VOTED and COMPLETED. A "Seven to Smoke"
activity runs a king-of-the-hill tournament out of a queue of participants.

The model has six modules:

- `Wrappers` holds `Option`. It stands for `T | null` and for optional fields.
- `Entities` holds the records as datatypes: `Vote` with a `Choice` of 0, 1 or
  "TIE", `Member`, `Battle`, `Status` and the `VoteCounts` object.
- `VoteTally` is `getVoteCounts`. It is a loop over the ballots, proved to
  compute the specification function `Tally`. The lemmas prove that the three
  buckets add up to the number of ballots, that ballot order does not matter,
  and that flipping every ballot swaps the two side counts.
- `Winner` holds `getMemberName` (first match by id, else the id itself) and
  `getWinner` (plurality of the two side counts, "TIE" on equal counts, the
  tie bucket never compared). The lemmas cover the plurality rule, symmetry,
  the ignored tie bucket, and order independence.
- `SevenToSmoke` holds the tournament state, its initialisation, the reset
  sentinel and the invariant `WellFormed`. The invariant says nobody is in the
  lineup (on stage, then queue) twice and everybody in it has a score.
- `Documents` holds the stored records as classes. `BattleDocument` is a
  battle together with its `votes` sub-collection, keyed by voter id.
  `ActivityDocument` is the Seven-to-Smoke part of an activity. Their methods
  are the in-place record changes made by `updateBattleStatus`, `resetBattle`,
  `createVote`, `initializeSevenToSmokeState` and `resetSevenToSmokeState`.

Behaviour of the code that is easy to misread:

- `getWinner` returns a display name (through `getMemberName`) or the
  string "TIE". It does not return a member id.
- `updateBattleStatus` writes any status. No transition order is enforced and
  there is no invalid-transition error.
- `resetBattle` resets `winnerID` and `status` and deletes the ballots. It
  leaves `startTime`, `endTime` and the battle document's own `votes` array
  field as they were.
- `initializeSevenToSmokeState` has no check for fewer than two participants.
  Its only caller rejects that case first, so the model makes it a
  precondition.
- The state written by `initializeSevenToSmokeState` has no `winnerID`. The
  reset writes `winnerID: null`. Both are `None` in the model.

## Model

| member | source | states |
|---|---|---|
| `VoteTally.GetVoteCounts` | src/app/lib/utils.tsx:311-317 | the loop computes the tally (each bucket is the number of ballots with that choice), and the three buckets add up to the number of ballots |
| `VoteTally.TallyTotal` | src/app/lib/utils.tsx:311-317 | for every ballot list, side 0 + side 1 + "TIE" counts equal its length |
| `VoteTally.CountPermutation` | src/app/lib/utils.tsx:311-317 | a bucket's count is the same for any two ballot lists holding the same ballots |
| `VoteTally.TallyOrderIndependent` | src/app/lib/utils.tsx:311-317 | the whole counts object is independent of ballot order |
| `VoteTally.TallyFlipAll` | src/app/lib/utils.tsx:311-317 | casting every ballot for the other side swaps the two side counts and keeps the "TIE" count |
| `Winner.GetMemberName` | src/app/lib/utils.tsx:300-303 | the name of the first member with the given id; the id itself when no member has it |
| `Winner.GetWinner` | src/app/lib/utils.tsx:319-327 | the result is "TIE" or the display name of one of the two competitors |
| `Winner.PluralityRule` | src/app/lib/utils.tsx:319-327 | side 0's name on a strict side-0 lead, side 1's name on a strict side-1 lead, "TIE" on equal side counts including 0-0 |
| `Winner.TieExactlyOnEqualCounts` | src/app/lib/utils.tsx:319-327 | when neither competitor is displayed as "TIE", the result is "TIE" if and only if the side counts are equal |
| `Winner.TieBucketIgnored` | src/app/lib/utils.tsx:319-327 | any "TIE" count gives the same result |
| `Winner.WinnerSymmetric` | src/app/lib/utils.tsx:319-327 | swapping the side counts together with the competitor order reports the same member, and a tie stays a tie |
| `Winner.WinnerOfFlippedBallots` | src/app/lib/utils.tsx:311-327 | flipping every ballot and swapping the competitors reports the same winner from the tally |
| `Winner.WinnerOrderIndependent` | src/app/lib/utils.tsx:311-327 | the winner computed from the tally does not depend on ballot order |
| `SevenToSmoke.ZeroScores` | src/app/lib/utils.tsx:351 | the fold gives a score entry for exactly the ids of the input, each 0 |
| `SevenToSmoke.InitialState` | src/app/lib/utils.tsx:345-354 | the on-stage pair followed by the queue is exactly the input in order; the score keys are exactly the input ids, all 0; no champion |
| `SevenToSmoke.InitialStateWellFormed` | src/app/lib/utils.tsx:345-354 | the fresh state meets the no-duplication invariant if and only if the ids are distinct |
| `SevenToSmoke.InitialStateKeepsEveryone` | src/app/lib/utils.tsx:345-354 | initialisation neither loses nor duplicates anybody: stage and queue are a permutation of the input |
| `SevenToSmoke.StageAndQueueDisjoint` | src/app/lib/utils.tsx:61-66 | under the invariant the two on stage differ, neither is queued, and nobody is queued twice |
| `SevenToSmoke.EmptyStateIsNotATournament` | src/app/lib/utils.tsx:384-394 | the reset sentinel has an empty queue, no scores and two equal empty ids on stage, so it is no tournament in progress |
| `Documents.WithVote` | src/app/lib/utils.tsx:251-256 | writing a ballot adds its voter's key, stores the ballot there and keeps every other voter's ballot |
| `Documents.WithVoteKeyedByVoter` | src/app/lib/utils.tsx:251-256 | writing a ballot keeps every ballot stored under its own voter's id |
| `Documents.WithVoteSize` | src/app/lib/utils.tsx:251-256 | the number of stored ballots grows by one on a member's first ballot and stays the same on a resubmission |
| `Documents.LatestVoteWins` | src/app/lib/utils.tsx:251-256 | of two ballots by one member only the later remains |
| `Documents.VotesOfDifferentMembersCommute` | src/app/lib/utils.tsx:251-256 | ballots of different members give the same sub-collection in either order |
| `Documents.BattleDocument.constructor` | src/app/lib/utils.tsx:191-194 | a stored battle is the given record with no ballots (every caller uses a fresh battle id) |
| `Documents.OneBallotPerVoter` | src/app/lib/utils.tsx:251-256 | in a sub-collection keyed by voter, two different stored ballots belong to two different members |
| `Documents.BattleDocument.UpdateBattleStatus` | src/app/lib/utils.tsx:227-231 | only `status` changes, to any value; the ballots are untouched |
| `Documents.BattleDocument.ResetBattle` | src/app/lib/utils.tsx:239-247 | winner cleared, status PENDING, no ballots left, every other battle field unchanged |
| `Documents.BattleDocument.CreateVote` | src/app/lib/utils.tsx:251-256 | the voter holds exactly the new ballot, other voters are unchanged, a resubmission does not add a ballot, the battle record is untouched |
| `Documents.ActivityDocument.constructor` | src/app/dashboard/CreateActivity.tsx:40-47 | a new Seven-to-Smoke activity has target score 7 and the empty state |
| `Documents.ActivityDocument.InitializeSevenToSmokeState` | src/app/lib/utils.tsx:345-354 | the state becomes the fresh state for the ids, well formed when they are distinct; the configuration is untouched |
| `Documents.ActivityDocument.ResetSevenToSmokeState` | src/app/lib/utils.tsx:384-394 | whatever the prior state, it becomes queue [], on stage ('', ''), no scores, no champion; the configuration is untouched |

## Left out

- Store plumbing (`getDocs`, `getDoc`, `setDoc`, `updateDoc`, `deleteDoc`) is not modelled. The documents are in-memory objects and each write is a direct field update.
- The `onSnapshot` subscriptions and their `orderBy` clauses are not modelled. They deliver data to the UI. `subscribeToActivityMembers` also filters the members on `activityID`, and `subscribeToActivity` delivers null for a missing activity.
- The store reads are not modelled: `getActivities`, `getActivity`, `getActivityByInviteCode`, `getMembers`, `getMember`, `getBattles`, `getBattle` and `getVotes`. They are store queries, some of them filtering on one field (`adminID`, `activityID` or `inviteCode`).
- The other store writes are not modelled: the activity and member creates, updates and deletes, `deleteBattle`, `deleteVote`, `updateBattleWinner`, `updateSevenToSmokeState`, `updateSevenToSmokeConfig`, the per-field Seven-to-Smoke writers and `setSevenToSmokeWinner`. Each is a single store write with no logic.
- Documents.BattleDocument.ResetBattle: the deletions that `Promise.all` issues concurrently are modelled as a sequential clear. A partial failure of those deletions is not modelled. Ballots written while the reset runs are not modelled either: in the source, a ballot written after the `getDocs` snapshot survives the reset, and `votes == map[]` holds in the model only because nothing else writes concurrently.
- Documents.BattleDocument.constructor: starts with an empty ballot map. `setDoc` at `src/app/lib/utils.tsx:193` does not clear an existing `votes` sub-collection; the map is empty only because every caller generates a fresh battle id.
- SevenToSmoke.InitialState: requires at least two ids. With fewer, the source would put `undefined` on stage, but its only caller rejects that case first.
- `generateInviteCode` is left out because it uses `Math.random`.
- `copyInviteLink` is left out because it uses the browser window, the clipboard and `alert`.
- Queue rotation and champion detection after a battle are not modelled. They live in a UI event handler, not in `src/app/lib/utils.tsx`.
- Authentication and all UI pages and components are not part of this model.
- A competitor whose display name is the string "TIE" cannot be told apart from a tie in `getWinner`'s result. `Winner.TieExactlyOnEqualCounts` states its if-and-only-if only for competitors not displayed as "TIE".
