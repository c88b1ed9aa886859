/**
 * The Seven-to-Smoke tournament state of an activity: who waits in the
 * queue, who is on stage, each participant's score and the champion.
 */
module SevenToSmoke {
  import opened Wrappers

  /** `sevenToSmokeState`. `winnerID` is absent or null (both None) until a champion is recorded. */
  datatype State = State(
    queue: seq<string>,
    onStage: (string, string),
    scores: map<string, int>,
    winnerID: Option<string>)

  /** `sevenToSmokeConfig`: the score that wins the tournament. */
  datatype Config = Config(targetScore: int)

  /** The target score a new Seven-to-Smoke activity starts with. */
  const DefaultTargetScore: int := 7

  /** The empty sentinel state: nobody queued, two empty ids on stage, no scores, no champion. */
  const EmptyState: State := State([], ("", ""), map[], None)

  /** The participants in order: the two on stage, then the queue front to back. */
  function Lineup(st: State): (l: seq<string>)
  {
    [st.onStage.0, st.onStage.1] + st.queue
  }

  predicate NoDuplicates(s: seq<string>)
  {
    forall i, j :: 0 <= i < j < |s| ==> s[i] != s[j]
  }

  /**
   * The tournament invariant: nobody appears twice in the lineup (so the
   * two on stage differ and neither is queued) and everybody in it has a
   * non-negative score.
   */
  predicate WellFormed(st: State)
  {
    && NoDuplicates(Lineup(st))
    && forall id :: id in Lineup(st) ==> id in st.scores && st.scores[id] >= 0
  }

  /**
   * The `reduce` in initializeSevenToSmokeState: folding the ids from the
   * left, each one adds an entry with score 0.
   */
  function ZeroScores(ids: seq<string>): (scores: map<string, int>)
    ensures scores.Keys == set id | id in ids
    ensures forall id :: id in scores ==> scores[id] == 0
  {
    if ids == [] then map[]
    else ZeroScores(ids[..|ids| - 1])[ids[|ids| - 1] := 0]
  }

  /**
   * initializeSevenToSmokeState: the first two ids go on stage, the rest
   * queue up in order, every id scores 0, and no champion is recorded.
   */
  function InitialState(ids: seq<string>): (st: State)
    requires |ids| >= 2
    ensures Lineup(st) == ids
    ensures st.scores.Keys == set id | id in ids
    ensures forall id :: id in st.scores ==> st.scores[id] == 0
    ensures st.winnerID == None
  {
    State(ids[2..], (ids[0], ids[1]), ZeroScores(ids), None)
  }

  /** The fresh state satisfies the tournament invariant exactly when the ids are distinct. */
  lemma InitialStateWellFormed(ids: seq<string>)
    requires |ids| >= 2
    ensures WellFormed(InitialState(ids)) <==> NoDuplicates(ids)
  {
  }

  /** Initialisation loses and duplicates nobody: the lineup is the input, as a multiset too. */
  lemma InitialStateKeepsEveryone(ids: seq<string>)
    requires |ids| >= 2
    ensures multiset(Lineup(InitialState(ids))) == multiset(ids)
    ensures forall id :: id in ids <==> id in Lineup(InitialState(ids))
  {
  }

  /**
   * The partition the invariant promises: the two on stage differ, neither
   * of them is queued, and nobody is queued twice.
   */
  lemma {:induction false} StageAndQueueDisjoint(st: State)
    requires WellFormed(st)
    ensures st.onStage.0 != st.onStage.1
    ensures st.onStage.0 !in st.queue && st.onStage.1 !in st.queue
    ensures NoDuplicates(st.queue)
  {
    var l := Lineup(st);
    assert l[0] == st.onStage.0 && l[1] == st.onStage.1;
    forall k | 0 <= k < |st.queue|
      ensures st.queue[k] != st.onStage.0 && st.queue[k] != st.onStage.1
    {
      assert l[k + 2] == st.queue[k];
    }
    forall i, j | 0 <= i < j < |st.queue|
      ensures st.queue[i] != st.queue[j]
    {
      assert l[i + 2] == st.queue[i] && l[j + 2] == st.queue[j];
    }
  }

  /** The reset sentinel holds no tournament: it fails the invariant and has no scores. */
  lemma EmptyStateIsNotATournament()
    ensures !WellFormed(EmptyState)
    ensures EmptyState.scores == map[] && EmptyState.queue == []
  {
    assert Lineup(EmptyState)[0] == Lineup(EmptyState)[1];
  }
}
