/** A run that leads to a decision on no VOTE at all. Replica 0 gets the first proposal twice, at first
    without its request: it casts a vote that is no VOTE, stores it, and then casts a VOTE, which it never
    stores, since it has heard its own voice already. */
module Recast {
  import opened Messages
  import opened Quorum
  import opened VoteSpec
  import opened NodeSpec
  import opened System
  import opened Rounds
  import opened Echoes

  /** The vote of replica 0 for the first proposal without a request. */
  function NullVote(g: Group): VoteMsg
    requires Proper(g)
  {
    VoteMsg(0, View(g, 1), 1, Some(Proposal(g, 1)), "NULL", g.table[0].nodeID, NULLMSG)
  }

  function NullVotes(g: Group): map<NodeID, VoteMsg>
    requires Proper(g)
  {
    map[g.table[0].nodeID := NullVote(g)]
  }

  lemma NullVotesFacts(g: Group)
    requires Proper(g)
    ensures |NullVotes(g)| == 1 && OKVoters(NullVotes(g)) == {} && Base(g, NullVotes(g))
  {}

  /** Replica 0 has cast its first vote, and holds these. */
  ghost predicate HasRefused(g: Group, v: Replica, votes: map<NodeID, VoteMsg>)
    requires Proper(g)
  {
    && v.me == g.table[0] && v.table == g.table && v.epochID == 0 && Logged(g, v, 1)
    && v.prepared[1] == 1 && v.committed[1] == 0 && 1 in v.states
    && var t := v.states[1];
       && t.viewID == View(g, 1) && t.sequenceID == 1 && t.f == FaultBound(|g.table|)
       && t.prepare == Some(Proposal(g, 1)) && t.votes == votes && t.collates == map[]
       && t.totalVote == |votes| && t.totalOK == 0
  }

  /** All that these messages propose is number 2, and there are no collates among them. */
  predicate ProposesTwo(g: Group, out: seq<Out>)
    requires Proper(g)
  {
    forall o :: o in out ==> !o.OutCollate? && (o.OutPrepare? ==> o.prepare == Proposal(g, 2))
  }

  /** Going on to number 2. */
  lemma GoesOn(g: Group, v: Replica, vote: VoteMsg)
    requires Proper(g) && v.table == g.table && v.epochID == 0 && v.committed[1] == 0
    requires v.prepared[1] in {0, 1} && 1 in v.states
    ensures var (u, out) := Announced(v, Proposal(g, 1), vote, "");
            && u.me == v.me && u.table == v.table && u.epochID == 0 && SameOrder(v, u)
            && 1 in u.states && u.states[1] == v.states[1] && u.prepared[1] == 1
            && OutVote(vote.(nodeID := v.me.nodeID)) in out && ProposesTwo(g, out)
  {
    AnnouncedFrame(v, Proposal(g, 1), vote, "");
    AnnouncedRest(v, Proposal(g, 1), vote);
    ProposesNext(g, v, 1);
    var out := Announced(v, Proposal(g, 1), vote, "").1;
    assert v.exec + [] == v.exec;
    assert out[|out| - 1] == OutVote(vote.(nodeID := v.me.nodeID));
  }

  lemma Refuses(g: Group, v: Replica)
    requires Proper(g) && Expects(g, v, 0, 1) && Executed(g, v, 1)
    ensures var (u, out) := PrepareHandled(v, Proposal(g, 1), None, None, "");
            HasRefused(g, u, map[]) && OutVote(NullVote(g)) in out && ProposesTwo(g, out)
  {
    var v0 := Started(v, 1);
    assert v0.states[1] == Fresh(View(g, 1), v.me.nodeID, |g.table|, 1);
    var (s, vote) := PrepareNext(v0.states[1], Proposal(g, 1), None, None);
    GoesOn(g, v0.(states := v0.states[1 := s]), vote);
  }

  lemma HearsItself(g: Group, v: Replica)
    requires Proper(g) && HasRefused(g, v, map[])
    ensures !Dropped(v, 1) && Started(v, 1) == v && Picks(VoteAnswer(v, NullVote(g)).0.votes, g.table[0].nodeID)
    ensures var (u, out) := VoteHandled(v, NullVote(g), g.table[0].nodeID); HasRefused(g, u, NullVotes(g)) && out == []
  {
    assert map[][g.table[0].nodeID := NullVote(g)] == NullVotes(g);
    assert |NullVotes(g)| == 1;
  }

  /** It handles the proposal again, with its request. */
  lemma CastsAgain(g: Group, v: Replica)
    requires Proper(g) && HasRefused(g, v, NullVotes(g))
    ensures var (u, out) := PrepareHandled(v, Proposal(g, 1), Some(REQUEST), Some(""), "");
            Counts(g, u, NullVotes(g), 1, 1) && OutVote(TheVote(g)) in out && ProposesTwo(g, out)
  {
    NullVotesFacts(g);
    var (s, vote) := PrepareNext(v.states[1], Proposal(g, 1), Some(REQUEST), Some(""));
    GoesOn(g, v.(states := v.states[1 := s]), vote);
  }

  // The run

  lemma SentOn(g: Group, net: Net, out: seq<Out>, vote: VoteMsg)
    requires Proper(g) && OutVote(vote) in out && ProposesTwo(g, out)
    ensures var sent := Sent(net, out);
            && net.prepares <= sent.prepares && sent.prepares <= net.prepares + {Proposal(g, 2)}
            && sent.collates == net.collates && net.votes <= sent.votes && vote in sent.votes
  {}

  /** Number 1 is proposed, replica 0 is about to act, and all others are new. */
  ghost predicate Opened(g: Group, s: System, c: System) {
    && Reachable(s, c, CollatesToLeader) && Proper(g) && Orderly(g, c) && Proposal(g, 1) in c.net.prepares
    && forall i :: 1 <= i < Follower(g) + 1 ==> Expects(g, c.nodes[i], i, 1)
  }

  lemma Open(g: Group, s: System) returns (c: System)
    requires Proper(g) && Initial(s, g.table, g.viewID)
    ensures Opened(g, s, c) && Expects(g, c.nodes[0], 0, 1) && Executed(g, c.nodes[0], 1)
  {
    FirstRound(g, s, CollatesToLeader);
    c := ProposeFirst(g, s, s);
  }

  lemma ProposeFirst(g: Group, s: System, c: System) returns (d: System)
    requires Reachable(s, c, CollatesToLeader) && Round(g, c, 1)
    ensures Opened(g, s, d) && d.nodes == c.nodes
    ensures Expects(g, d.nodes[0], 0, 1) && Executed(g, d.nodes[0], 1)
  {
    Then(s, c, Propose(Proposal(g, 1)), CollatesToLeader);
    d := Step(c, Propose(Proposal(g, 1)));
    AllExpectFirst(g, c);
  }

  lemma AllExpectFirst(g: Group, c: System)
    requires Round(g, c, 1)
    ensures Expects(g, c.nodes[0], 0, 1) && Executed(g, c.nodes[0], 1)
    ensures forall i :: 1 <= i < Follower(g) + 1 ==> Expects(g, c.nodes[i], i, 1)
  {}

  lemma Refuse(g: Group, s: System, c: System) returns (d: System)
    requires Opened(g, s, c) && Expects(g, c.nodes[0], 0, 1) && Executed(g, c.nodes[0], 1)
    ensures Opened(g, s, d) && HasRefused(g, d.nodes[0], map[]) && NullVote(g) in d.net.votes
  {
    var e := DeliverPrepare(0, Proposal(g, 1), None, None, "");
    assert InRange(Proposal(g, 1).sequenceID);
    Refuses(g, c.nodes[0]);
    d := Take(s, c, e, CollatesToLeader);
    SentOn(g, c.net, Reaction(c, e).1, NullVote(g));
  }

  lemma HearItself(g: Group, s: System, c: System) returns (d: System)
    requires Opened(g, s, c) && HasRefused(g, c.nodes[0], map[]) && NullVote(g) in c.net.votes
    ensures Opened(g, s, d) && HasRefused(g, d.nodes[0], NullVotes(g))
  {
    HearsItself(g, c.nodes[0]);
    assert NullVote(g).(addr := 0) == NullVote(g);
    d := Take(s, c, DeliverVote(0, NullVote(g), 0, g.table[0].nodeID), CollatesToLeader);
    SentNothing(c.net);
  }

  lemma CastAgain(g: Group, s: System, c: System) returns (d: System)
    requires Opened(g, s, c) && HasRefused(g, c.nodes[0], NullVotes(g))
    ensures Opened(g, s, d) && Counts(g, d.nodes[0], NullVotes(g), 1, 1) && TheVote(g) in d.net.votes
  {
    var e := DeliverPrepare(0, Proposal(g, 1), Some(REQUEST), Some(""), "");
    assert InRange(Proposal(g, 1).sequenceID);
    CastsAgain(g, c.nodes[0]);
    d := Take(s, c, e, CollatesToLeader);
    SentOn(g, c.net, Reaction(c, e).1, TheVote(g));
  }

  /** Replica 0 holds one vote, no VOTE, and counts none. */
  lemma NoVoters(g: Group, s: System) returns (c: System)
    requires Proper(g) && Initial(s, g.table, g.viewID)
    ensures Echoed(g, s, c, NullVotes(g), 1, 1)
  {
    var began := Open(g, s);
    var refused := Refuse(g, s, began);
    var heard := HearItself(g, s, refused);
    c := CastAgain(g, s, heard);
  }
}
