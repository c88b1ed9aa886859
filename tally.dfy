/** The vote tally of getVoteCounts: how many ballots chose each side. */
module VoteTally {
  import opened Entities

  /** The number of ballots in `votes` whose choice is `c`. */
  function Count(votes: seq<Vote>, c: Choice): (n: nat)
    ensures n <= |votes|
  {
    if votes == [] then 0
    else Count(votes[..|votes| - 1], c) + (if votes[|votes| - 1].vote == c then 1 else 0)
  }

  /** The counts object that getVoteCounts builds for `votes`. */
  function Tally(votes: seq<Vote>): (counts: VoteCounts)
  {
    VoteCounts(Count(votes, Side0), Count(votes, Side1), Count(votes, Tie))
  }

  /**
   * getVoteCounts: one pass over the ballots, bumping the bucket each
   * ballot names. The result is the tally, and every ballot lands in
   * exactly one bucket.
   */
  method GetVoteCounts(votes: seq<Vote>) returns (counts: VoteCounts)
    ensures counts == Tally(votes)
    ensures counts.side0 + counts.side1 + counts.tie == |votes|
  {
    counts := VoteCounts(0, 0, 0);
    for i := 0 to |votes|
      invariant counts == Tally(votes[..i])
    {
      assert votes[..i + 1][..i] == votes[..i];
      match votes[i].vote
      case Side0 => counts := counts.(side0 := counts.side0 + 1);
      case Side1 => counts := counts.(side1 := counts.side1 + 1);
      case Tie => counts := counts.(tie := counts.tie + 1);
    }
    assert votes[..|votes|] == votes;
    TallyTotal(votes);
  }

  /** The three buckets together hold every ballot. */
  lemma {:induction false} TallyTotal(votes: seq<Vote>)
    ensures Tally(votes).side0 + Tally(votes).side1 + Tally(votes).tie == |votes|
  {
    if votes != [] {
      TallyTotal(votes[..|votes| - 1]);
    }
  }

  /** Counting distributes over concatenation. */
  lemma {:induction false} CountConcat(a: seq<Vote>, b: seq<Vote>, c: Choice)
    ensures Count(a + b, c) == Count(a, c) + Count(b, c)
  {
    if b == [] {
      assert a + b == a;
    } else {
      assert (a + b)[..|a + b| - 1] == a + b[..|b| - 1];
      CountConcat(a, b[..|b| - 1], c);
    }
  }

  /** Taking out the ballot at index `j` removes one copy of it and its contribution to the count. */
  lemma RemoveAt(b: seq<Vote>, j: nat, c: Choice)
    requires j < |b|
    ensures multiset(b[..j] + b[j + 1..]) == multiset(b) - multiset{b[j]}
    ensures Count(b, c) == Count(b[..j] + b[j + 1..], c) + (if b[j].vote == c then 1 else 0)
  {
    assert b == b[..j] + [b[j]] + b[j + 1..];
    CountConcat(b[..j] + [b[j]], b[j + 1..], c);
    CountConcat(b[..j], [b[j]], c);
    CountConcat(b[..j], b[j + 1..], c);
    assert Count([b[j]], c) == Count([], c) + (if b[j].vote == c then 1 else 0);
  }

  /** A bucket's count depends only on the multiset of ballots, not their order. */
  lemma {:induction false} CountPermutation(a: seq<Vote>, b: seq<Vote>, c: Choice)
    requires multiset(a) == multiset(b)
    ensures Count(a, c) == Count(b, c)
  {
    if a == [] {
      assert |multiset(b)| == 0;
    } else {
      var n := |a| - 1;
      var x := a[n];
      assert a == a[..n] + [x];
      assert multiset(a[..n]) == multiset(a) - multiset{x};
      assert x in multiset(b);
      var j :| 0 <= j < |b| && b[j] == x;
      RemoveAt(b, j, c);
      CountPermutation(a[..n], b[..j] + b[j + 1..], c);
    }
  }

  /** The tally is order-independent: any reordering of the ballots gives the same counts. */
  lemma TallyOrderIndependent(a: seq<Vote>, b: seq<Vote>)
    requires multiset(a) == multiset(b)
    ensures Tally(a) == Tally(b)
  {
    CountPermutation(a, b, Side0);
    CountPermutation(a, b, Side1);
    CountPermutation(a, b, Tie);
  }

  /** A ballot with its two sides exchanged; a "TIE" ballot stays "TIE". */
  function Flipped(v: Vote): (w: Vote)
    ensures w.memberID == v.memberID && w.timestamp == v.timestamp
  {
    match v.vote
    case Side0 => v.(vote := Side1)
    case Side1 => v.(vote := Side0)
    case Tie => v
  }

  /** Every ballot of `votes` with its sides exchanged. */
  function FlipAll(votes: seq<Vote>): (r: seq<Vote>)
    ensures |r| == |votes|
  {
    seq(|votes|, i requires 0 <= i < |votes| => Flipped(votes[i]))
  }

  /** Exchanging the sides of every ballot exchanges the two side counts and keeps the tie count. */
  lemma {:induction false} TallyFlipAll(votes: seq<Vote>)
    ensures Tally(FlipAll(votes)) == VoteCounts(Tally(votes).side1, Tally(votes).side0, Tally(votes).tie)
  {
    if votes != [] {
      var n := |votes| - 1;
      assert FlipAll(votes)[..n] == FlipAll(votes[..n]);
      TallyFlipAll(votes[..n]);
    }
  }
}
