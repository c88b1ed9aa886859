/** Display names and the plurality rule of getMemberName and getWinner. */
module Winner {
  import opened Entities
  import opened VoteTally

  /** The label getWinner reports when neither side leads. */
  const TieLabel: string := "TIE"

  /**
   * getMemberName: the name of the first member whose id is `memberId`,
   * or `memberId` itself when no member has that id.
   */
  function GetMemberName(members: seq<Member>, memberId: string): (name: string)
    ensures (forall j :: 0 <= j < |members| ==> members[j].id != memberId) ==> name == memberId
    ensures forall i :: 0 <= i < |members| && members[i].id == memberId &&
                        (forall j :: 0 <= j < i ==> members[j].id != memberId) ==>
                        name == members[i].name
  {
    if members == [] then memberId
    else if members[0].id == memberId then members[0].name
    else
      var name := GetMemberName(members[1..], memberId);
      assert forall i :: 1 <= i < |members| ==> members[i] == members[1..][i - 1];
      name
  }

  /**
   * getWinner: the display name of the side with strictly more votes,
   * or "TIE" when the two side counts are equal. The tie bucket is never
   * compared.
   */
  function GetWinner(members: seq<Member>, battle: Battle, counts: VoteCounts): (winner: string)
    requires |battle.memberIDs| == 2
    ensures winner == TieLabel ||
            winner == GetMemberName(members, battle.memberIDs[0]) ||
            winner == GetMemberName(members, battle.memberIDs[1])
  {
    if counts.side0 > counts.side1 then GetMemberName(members, battle.memberIDs[0])
    else if counts.side1 > counts.side0 then GetMemberName(members, battle.memberIDs[1])
    else TieLabel
  }

  /** The plurality rule: side 0 on a strict lead, side 1 on a strict lead, "TIE" otherwise (0-0 included). */
  lemma PluralityRule(members: seq<Member>, battle: Battle, counts: VoteCounts)
    requires |battle.memberIDs| == 2
    ensures counts.side0 > counts.side1 ==> GetWinner(members, battle, counts) == GetMemberName(members, battle.memberIDs[0])
    ensures counts.side1 > counts.side0 ==> GetWinner(members, battle, counts) == GetMemberName(members, battle.memberIDs[1])
    ensures counts.side0 == counts.side1 ==> GetWinner(members, battle, counts) == TieLabel
  {
  }

  /**
   * When neither competitor's display name is the word "TIE", the result
   * is "TIE" exactly when the side counts are equal.
   */
  lemma TieExactlyOnEqualCounts(members: seq<Member>, battle: Battle, counts: VoteCounts)
    requires |battle.memberIDs| == 2
    requires GetMemberName(members, battle.memberIDs[0]) != TieLabel
    requires GetMemberName(members, battle.memberIDs[1]) != TieLabel
    ensures GetWinner(members, battle, counts) == TieLabel <==> counts.side0 == counts.side1
  {
  }

  /** The tie bucket plays no part: any number of "TIE" ballots leaves the result alone. */
  lemma TieBucketIgnored(members: seq<Member>, battle: Battle, counts: VoteCounts, tie: nat)
    requires |battle.memberIDs| == 2
    ensures GetWinner(members, battle, counts.(tie := tie)) == GetWinner(members, battle, counts)
  {
  }

  /** The battle with its two competitors in the other order. */
  function Swapped(battle: Battle): (b: Battle)
    requires |battle.memberIDs| == 2
    ensures b.memberIDs == [battle.memberIDs[1], battle.memberIDs[0]]
  {
    battle.(memberIDs := [battle.memberIDs[1], battle.memberIDs[0]])
  }

  /**
   * Symmetry: exchanging the side counts together with the order of the
   * competitors reports the same member, and a tie stays a tie.
   */
  lemma WinnerSymmetric(members: seq<Member>, battle: Battle, counts: VoteCounts)
    requires |battle.memberIDs| == 2
    ensures GetWinner(members, Swapped(battle), VoteCounts(counts.side1, counts.side0, counts.tie))
         == GetWinner(members, battle, counts)
  {
  }

  /**
   * Symmetry at the level of ballots: if every ballot is cast for the
   * other side and the competitors are listed the other way round, the
   * tallied winner is the same member.
   */
  lemma WinnerOfFlippedBallots(members: seq<Member>, battle: Battle, votes: seq<Vote>)
    requires |battle.memberIDs| == 2
    ensures GetWinner(members, Swapped(battle), Tally(FlipAll(votes))) == GetWinner(members, battle, Tally(votes))
  {
    TallyFlipAll(votes);
    WinnerSymmetric(members, battle, Tally(votes));
  }

  /** The reported winner of a battle depends only on which ballots were cast, not on their order. */
  lemma WinnerOrderIndependent(members: seq<Member>, battle: Battle, a: seq<Vote>, b: seq<Vote>)
    requires |battle.memberIDs| == 2
    requires multiset(a) == multiset(b)
    ensures GetWinner(members, battle, Tally(a)) == GetWinner(members, battle, Tally(b))
  {
    TallyOrderIndependent(a, b);
  }
}
