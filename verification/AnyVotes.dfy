/** What votes make of a consensus state, whatever votes they are: of repeated senders, of other views,
    in any order. Only the first vote of each sender counts; and a VOTE of another view counts but cannot
    decide, so that it suppresses the decision when it is the one that makes 2f + 1. */
module AnyVotes {
  import opened Messages
  import opened Quorum
  import opened VoteSpec
  import opened VoteRuns

  /** No vote before the k-th has the same sender. */
  predicate IsFirst(votes: seq<VoteMsg>, k: nat)
    requires k < |votes|
  {
    forall j :: 0 <= j < k ==> votes[j].nodeID != votes[k].nodeID
  }

  /** The first vote of each sender, in order. */
  function Firsts(votes: seq<VoteMsg>): seq<VoteMsg> {
    if votes == [] then []
    else
      var k := |votes| - 1;
      Firsts(votes[..k]) + if IsFirst(votes, k) then [votes[k]] else []
  }

  /** One more vote. */
  lemma OneMore(front: seq<VoteMsg>, v: VoteMsg)
    ensures IsFirst(front + [v], |front|) <==> forall w :: w in front ==> w.nodeID != v.nodeID
    ensures Firsts(front + [v]) ==
              if forall w :: w in front ==> w.nodeID != v.nodeID then Firsts(front) + [v] else Firsts(front)
  {
    var votes := front + [v];
    assert votes[..|front|] == front;
    if IsFirst(votes, |front|) {
      forall w | w in front ensures w.nodeID != v.nodeID {
        var j :| 0 <= j < |front| && front[j] == w;
        assert votes[j] == w;
      }
    }
  }

  lemma Parts(votes: seq<VoteMsg>) returns (front: seq<VoteMsg>, v: VoteMsg)
    requires votes != []
    ensures votes == front + [v] && |front| == |votes| - 1
  {
    front, v := votes[..|votes| - 1], votes[|votes| - 1];
  }

  lemma {:induction false} FirstsAmong(votes: seq<VoteMsg>)
    ensures forall v :: v in Firsts(votes) ==> v in votes
    decreases |votes|
  {
    if votes != [] {
      var front, v := Parts(votes);
      FirstsAmong(front);
      OneMore(front, v);
    }
  }

  lemma {:induction false} FirstsDistinct(votes: seq<VoteMsg>)
    ensures DistinctVoters(Firsts(votes))
    decreases |votes|
  {
    if votes != [] {
      var front, v := Parts(votes);
      FirstsDistinct(front);
      FirstsAmong(front);
      OneMore(front, v);
    }
  }

  /** The sender of this vote has one among these. */
  predicate HasVoted(votes: seq<VoteMsg>, id: NodeID) {
    exists w :: w in votes && w.nodeID == id
  }

  lemma {:induction false} FirstsHaveAll(votes: seq<VoteMsg>, id: NodeID)
    ensures HasVoted(Firsts(votes), id) <==> HasVoted(votes, id)
    decreases |votes|
  {
    if votes != [] {
      var front, v := Parts(votes);
      FirstsHaveAll(front, id);
      OneMore(front, v);
      MoreHaveVoted(front, v, id);
      MoreHaveVoted(Firsts(front), v, id);
    }
  }

  lemma MoreHaveVoted(votes: seq<VoteMsg>, v: VoteMsg, id: NodeID)
    ensures HasVoted(votes + [v], id) <==> HasVoted(votes, id) || v.nodeID == id
  {
    if HasVoted(votes, id) {
      var w :| w in votes && w.nodeID == id;
      assert w in votes + [v];
    }
    assert v in votes + [v];
  }

  lemma {:induction false} FirstsOfDistinct(votes: seq<VoteMsg>)
    requires DistinctVoters(votes)
    ensures Firsts(votes) == votes
  {
    if votes != [] {
      var k := |votes| - 1;
      FirstsOfDistinct(votes[..k]);
      assert IsFirst(votes, k);
      assert votes[..k] + [votes[k]] == votes;
    }
  }

  /** One more vote is cast. */
  lemma CastOne(s: Snapshot, front: seq<VoteMsg>, v: VoteMsg, n: nat)
    ensures var t, votes := Run(s, Casts(front), n), front + [v];
            && Run(s, Casts(votes), n) == VoteNext(t, Some(v), n).0
            && Commits(s, Casts(votes), n) ==
                 Commits(s, Casts(front), n) + if VoteNext(t, Some(v), n).1.collate.msgType == COMMITTED then 1 else 0
  {
    var votes := front + [v];
    assert Casts(votes)[..|front|] == Casts(front);
  }

  lemma RepeatedVote(t: Snapshot, v: VoteMsg, n: nat)
    requires v.nodeID in t.votes
    ensures VoteNext(t, Some(v), n) == (t, Outcome(NO_COLLATE, None))
  {}

  /** The voters of the state that votes lead to. */
  lemma VotersAfter(s: Snapshot, votes: seq<VoteMsg>, n: nat, id: NodeID)
    requires IsFresh(s, n) && DistinctVoters(votes)
    ensures id in Run(s, Casts(votes), n).votes <==> HasVoted(votes, id)
  {
    FeedState(s, votes, n);
  }

  /** Votes of senders that have voted before change nothing. */
  lemma {:induction false} OnlyFirstsCount(s: Snapshot, votes: seq<VoteMsg>, n: nat)
    requires IsFresh(s, n)
    ensures Run(s, Casts(votes), n) == Run(s, Casts(Firsts(votes)), n)
    ensures Commits(s, Casts(votes), n) == Commits(s, Casts(Firsts(votes)), n)
    decreases |votes|
  {
    if votes != [] {
      var front, v := Parts(votes);
      OnlyFirstsCount(s, front, n);
      CastOne(s, front, v, n);
      OneMore(front, v);
      if HasVoted(front, v.nodeID) {
        FirstsDistinct(front);
        FirstsHaveAll(front, v.nodeID);
        VotersAfter(s, Firsts(front), n, v.nodeID);
        RepeatedVote(Run(s, Casts(front), n), v, n);
      } else {
        CastOne(s, Firsts(front), v, n);
      }
    }
  }

  lemma AnswerIs(s: Snapshot, front: seq<VoteMsg>, v: VoteMsg, votes: seq<VoteMsg>, n: nat)
    requires front + [v] <= votes
    ensures Answer(s, Casts(votes), |front|, n) ==
              VoteNext(Run(s, Casts(front), n), Some(v), n).1.collate.msgType
  {
    assert Casts(votes)[..|front|] == Casts(front);
  }

  /** What `Vote` answers to the vote that comes after `front`, whatever votes these are. */
  lemma AnswerToAny(s: Snapshot, front: seq<VoteMsg>, v: VoteMsg, votes: seq<VoteMsg>, n: nat)
    requires IsFresh(s, n) && front + [v] <= votes
    ensures var answer, heard := Answer(s, Casts(votes), |front|, n), Firsts(front + [v]);
            && (answer == COMMITTED <==>
                !HasVoted(front, v.nodeID) && Accepts(s, v) && v.msgType == VOTE &&
                CountOK(heard) == 2 * FaultBound(n) + 1)
            && (answer == UNCOMMITTED <==>
                !HasVoted(front, v.nodeID) && Accepts(s, v) && |heard| == n &&
                (v.msgType != VOTE || CountOK(heard) <= 2 * FaultBound(n)))
  {
    AnswerIs(s, front, v, votes, n);
    OnlyFirstsCount(s, front, n);
    OneMore(front, v);
    FirstsDistinct(front);
    FirstsHaveAll(front, v.nodeID);
    VotersAfter(s, Firsts(front), n, v.nodeID);
    if HasVoted(front, v.nodeID) {
      RepeatedVote(Run(s, Casts(front), n), v, n);
    } else {
      NewVoteAnswered(s, Firsts(front), v, n);
    }
  }

  lemma NewVoteAnswered(s: Snapshot, front: seq<VoteMsg>, v: VoteMsg, n: nat)
    requires IsFresh(s, n) && DistinctVoters(front) && !HasVoted(front, v.nodeID)
    ensures var answer, heard := VoteNext(Run(s, Casts(front), n), Some(v), n).1.collate.msgType, front + [v];
            && (answer == COMMITTED <==> Accepts(s, v) && v.msgType == VOTE && CountOK(heard) == 2 * FaultBound(n) + 1)
            && (answer == UNCOMMITTED <==>
                Accepts(s, v) && |heard| == n && (v.msgType != VOTE || CountOK(heard) <= 2 * FaultBound(n)))
  {
    FeedState(s, front, n);
    VotersAfter(s, front, n, v.nodeID);
    assert (front + [v])[..|front|] == front;
    AnswerToNew(Run(s, Casts(front), n), v, n);
  }

  /** The k-th of these votes, all of distinct voters, is the VOTE that makes 2f + 1. */
  predicate Makes(votes: seq<VoteMsg>, k: nat, f: nat)
    requires k < |votes|
  {
    votes[k].msgType == VOTE && CountOK(votes[..k + 1]) == 2 * f + 1
  }

  lemma {:induction false} CountGrows(votes: seq<VoteMsg>, k: nat)
    requires k <= |votes|
    ensures CountOK(votes[..k]) <= CountOK(votes)
  {
    if k < |votes| {
      var front := votes[..|votes| - 1];
      assert front[..k] == votes[..k];
      CountGrows(front, k);
    } else {
      assert votes[..k] == votes;
    }
  }

  /** Over votes of distinct voters: COMMITTED is answered, once, if and only if the VOTE that makes
      2f + 1 is one that the state accepts. */
  lemma {:induction false} CommitsIffAccepted(s: Snapshot, votes: seq<VoteMsg>, n: nat)
    requires IsFresh(s, n) && DistinctVoters(votes)
    ensures Commits(s, Casts(votes), n) <= 1
    ensures Commits(s, Casts(votes), n) == 1
            <==> exists k :: 0 <= k < |votes| && Makes(votes, k, FaultBound(n)) && Accepts(s, votes[k])
  {
    CommitsAtMostOnce(s, Casts(votes), n);
    if votes != [] {
      var last, f := |votes| - 1, FaultBound(n);
      var front := votes[..last];
      CommitsIffAccepted(s, front, n);
      assert Casts(votes)[..last] == Casts(front);
      AnswerAt(s, votes, last, n);
      assert votes[..last + 1] == votes;
      forall k | 0 <= k < last ensures Makes(votes, k, f) <==> Makes(front, k, f) {
        assert front[..k + 1] == votes[..k + 1];
      }
      if k :| 0 <= k < |votes| && Makes(votes, k, f) && Accepts(s, votes[k]) {
        if k < last {
          assert Makes(front, k, f) && front[k] == votes[k];
        }
      }
    }
  }

  /** The same over any votes. */
  lemma CommitsIffFirstsAccepted(s: Snapshot, votes: seq<VoteMsg>, n: nat)
    requires IsFresh(s, n)
    ensures var heard := Firsts(votes);
            Commits(s, Casts(votes), n) ==
              if exists k :: 0 <= k < |heard| && Makes(heard, k, FaultBound(n)) && Accepts(s, heard[k]) then 1 else 0
  {
    OnlyFirstsCount(s, votes, n);
    FirstsDistinct(votes);
    CommitsIffAccepted(s, Firsts(votes), n);
  }

  // The order of votes

  lemma {:induction false} ReachesCount(votes: seq<VoteMsg>, c: nat) returns (p: nat)
    requires c <= CountOK(votes)
    ensures p <= |votes| && CountOK(votes[..p]) == c
  {
    if CountOK(votes) == c {
      p := |votes|;
      assert votes[..p] == votes;
    } else {
      var front := votes[..|votes| - 1];
      p := ReachesCount(front, c);
      assert front[..p] == votes[..p];
    }
  }

  lemma {:induction false} CountSplits(a: seq<VoteMsg>, b: seq<VoteMsg>)
    ensures CountOK(a + b) == CountOK(a) + CountOK(b)
  {
    if b == [] {
      assert a + b == a;
    } else {
      assert (a + b)[..|a + b| - 1] == a + b[..|b| - 1];
      CountSplits(a, b[..|b| - 1]);
    }
  }

  lemma SplitAt(votes: seq<VoteMsg>, j: nat)
    requires j < |votes|
    ensures votes == votes[..j] + [votes[j]] + votes[j + 1..]
  {}

  /** The same votes, with the j-th moved to where it makes 2f + 1. */
  lemma MovedToDecide(votes: seq<VoteMsg>, j: nat, f: nat) returns (other: seq<VoteMsg>, p: nat)
    requires j < |votes| && votes[j].msgType == VOTE && CountOK(votes) >= 2 * f + 1
    ensures multiset(other) == multiset(votes) && p < |other| && other[p] == votes[j] && Makes(other, p, f)
  {
    var v, a, b := votes[j], votes[..j], votes[j + 1..];
    SplitAt(votes, j);
    CountOne(a, v, b);
    p := ReachesCount(a + b, 2 * f);
    var c, d := (a + b)[..p], (a + b)[p..];
    assert a + b == c + d;
    other := c + [v] + d;
    SameBag(a, b, c, d, v);
    assert other[..p + 1] == c + [v];
    CountOne(c, v, []);
    assert c + [v] + [] == c + [v] && c + [] == c;
  }

  lemma CountOne(a: seq<VoteMsg>, v: VoteMsg, b: seq<VoteMsg>)
    ensures CountOK(a + [v] + b) == CountOK(a + b) + if v.msgType == VOTE then 1 else 0
  {
    CountSplits(a + [v], b);
    CountSplits(a, [v]);
    CountSplits(a, b);
    assert [v][..0] == [];
    assert CountOK([v]) == CountOK([]) + if v.msgType == VOTE then 1 else 0;
  }

  lemma SameBag(a: seq<VoteMsg>, b: seq<VoteMsg>, c: seq<VoteMsg>, d: seq<VoteMsg>, v: VoteMsg)
    requires a + b == c + d
    ensures multiset(a + [v] + b) == multiset(c + [v] + d)
  {
    assert multiset(a + [v] + b) == multiset(a + b) + multiset{v};
    assert multiset(c + [v] + d) == multiset(c + d) + multiset{v};
  }

  lemma SameVoters(votes: seq<VoteMsg>, other: seq<VoteMsg>)
    requires DistinctVoters(votes) && multiset(other) == multiset(votes)
    ensures DistinctVoters(other)
  {
    SameElements(votes, other);
    forall i, j | 0 <= i < j < |other| ensures other[i].nodeID != other[j].nodeID {
      assert other[i] in votes && other[j] in votes;
      if other[i].nodeID == other[j].nodeID {
        var v := other[i];
        assert other[j] == v;
        assert multiset(other)[v] >= 2 by {
          assert other == other[..i] + [v] + other[i + 1..j] + [v] + other[j + 1..];
        }
        OnceIn(votes, v);
        assert false;
      }
    }
  }

  lemma {:induction false} OnceIn(votes: seq<VoteMsg>, v: VoteMsg)
    requires DistinctVoters(votes)
    ensures multiset(votes)[v] <= 1
  {
    if votes != [] {
      var front := votes[..|votes| - 1];
      OnceIn(front, v);
      assert votes == front + [votes[|votes| - 1]];
      if votes[|votes| - 1] == v {
        assert v !in front;
        assert v !in multiset(front);
      }
    }
  }

  /** Whatever the order. */
  ghost predicate EveryOrderCommits(s: Snapshot, votes: seq<VoteMsg>, n: nat) {
    forall other {:trigger multiset(other)} :: multiset(other) == multiset(votes) ==> Commits(s, Casts(other), n) == 1
  }

  lemma SameCount(s: Snapshot, votes: seq<VoteMsg>, other: seq<VoteMsg>, n: nat)
    requires IsFresh(s, n) && DistinctVoters(votes) && DistinctVoters(other) && multiset(votes) == multiset(other)
    ensures CountOK(votes) == CountOK(other)
  {
    FeedState(s, votes, n);
    FeedState(s, other, n);
    SameElements(votes, other);
    StoredAlike(Run(s, Casts(votes), n).votes, Run(s, Casts(other), n).votes, votes, other);
    CastsAreExact(s, votes, n);
    CastsAreExact(s, other, n);
  }

  /** When the decision does not depend on the order of the votes: votes of distinct voters make the state
      answer COMMITTED in every order if and only if 2f + 1 of them are VOTE, and all that are VOTE are of
      the state's view and number. */
  lemma EveryOrderCommitsIff(s: Snapshot, votes: seq<VoteMsg>, n: nat)
    requires IsFresh(s, n) && DistinctVoters(votes)
    ensures EveryOrderCommits(s, votes, n)
            <==> CountOK(votes) >= 2 * FaultBound(n) + 1 &&
                 forall v :: v in votes && v.msgType == VOTE ==> Accepts(s, v)
  {
    var f := FaultBound(n);
    if CountOK(votes) < 2 * f + 1 {
      NoneMakes(s, votes, n);
      assert multiset(votes) == multiset(votes);
    } else if j :| 0 <= j < |votes| && votes[j].msgType == VOTE && !Accepts(s, votes[j]) {
      var other, p := MovedToDecide(votes, j, f);
      SameVoters(votes, other);
      NotAccepted(s, other, p, n);
    } else {
      forall other {:trigger multiset(other)} | multiset(other) == multiset(votes)
        ensures Commits(s, Casts(other), n) == 1
      {
        SameVoters(votes, other);
        SameElements(votes, other);
        SameCount(s, votes, other, n);
        AllAccepted(s, other, n);
      }
    }
  }

  lemma NoneMakes(s: Snapshot, votes: seq<VoteMsg>, n: nat)
    requires IsFresh(s, n) && DistinctVoters(votes) && CountOK(votes) < 2 * FaultBound(n) + 1
    ensures Commits(s, Casts(votes), n) == 0
  {
    CommitsIffAccepted(s, votes, n);
    forall k | 0 <= k < |votes| ensures !Makes(votes, k, FaultBound(n)) {
      CountGrows(votes, k + 1);
    }
  }

  lemma MakesOnce(votes: seq<VoteMsg>, k: nat, p: nat, f: nat)
    requires k < |votes| && p < |votes| && Makes(votes, k, f) && Makes(votes, p, f)
    ensures k == p
  {
    if k < p {
      MakesEarlier(votes, k, p, f);
    } else if p < k {
      MakesEarlier(votes, p, k, f);
    }
  }

  lemma MakesEarlier(votes: seq<VoteMsg>, k: nat, p: nat, f: nat)
    requires k < p < |votes| && Makes(votes, k, f)
    ensures !Makes(votes, p, f)
  {
    assert votes[..p][..k + 1] == votes[..k + 1] && votes[..p + 1][..p] == votes[..p];
    CountGrows(votes[..p], k + 1);
  }

  lemma NotAccepted(s: Snapshot, votes: seq<VoteMsg>, p: nat, n: nat)
    requires IsFresh(s, n) && DistinctVoters(votes) && p < |votes|
    requires Makes(votes, p, FaultBound(n)) && !Accepts(s, votes[p])
    ensures Commits(s, Casts(votes), n) == 0
  {
    CommitsIffAccepted(s, votes, n);
    forall k | 0 <= k < |votes| && Makes(votes, k, FaultBound(n)) ensures k == p {
      MakesOnce(votes, k, p, FaultBound(n));
    }
  }

  lemma AllAccepted(s: Snapshot, votes: seq<VoteMsg>, n: nat)
    requires IsFresh(s, n) && DistinctVoters(votes) && CountOK(votes) >= 2 * FaultBound(n) + 1
    requires forall v :: v in votes && v.msgType == VOTE ==> Accepts(s, v)
    ensures Commits(s, Casts(votes), n) == 1
  {
    var f := FaultBound(n);
    CommitsIffAccepted(s, votes, n);
    var k := SomeMakes(votes, 2 * f + 1);
    assert Makes(votes, k, f) && votes[k] in votes;
  }

  lemma {:induction false} SomeMakes(votes: seq<VoteMsg>, c: nat) returns (k: nat)
    requires 1 <= c <= CountOK(votes)
    ensures k < |votes| && votes[k].msgType == VOTE && CountOK(votes[..k + 1]) == c
  {
    var last := |votes| - 1;
    var front := votes[..last];
    if CountOK(front) >= c {
      k := SomeMakes(front, c);
      assert front[..k + 1] == votes[..k + 1];
    } else {
      k := last;
      assert votes[..k + 1] == votes;
    }
  }
}
