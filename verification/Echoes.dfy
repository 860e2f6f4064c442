/** Runs without faults, losses or timeouts of a proposal, in which replica 0 decides number 1 on the
    few votes that it has, such as its own alone. The others answer its vote with an UNCOMMITTED
    COLLATE message, the echo, that carries this vote. Filling holes credits it once more for each
    echo, since every message is stored at an address of its own. */
module Echoes {
  import opened Messages
  import opened Quorum
  import opened VoteSpec
  import opened NodeSpec
  import opened System
  import opened Agreement
  import opened Rounds

  /** The vote of replica 0 for number 1. */
  function TheVote(g: Group): VoteMsg
    requires Proper(g)
  {
    VoteOf(g, 0, 1)
  }

  function OnlyVote(g: Group): map<NodeID, VoteMsg>
    requires Proper(g)
  {
    map[g.table[0].nodeID := TheVote(g)]
  }

  /** The same vote, decoded once more. */
  function CopiedVote(g: Group): map<NodeID, VoteMsg>
    requires Proper(g)
  {
    map[g.table[0].nodeID := TheVote(g).(addr := 1)]
  }

  /** What replica i sends when its Vote timer fires, and how replica 0 receives it. */
  function Echo(g: Group, i: nat): CollateMsg
    requires Proper(g) && i < |g.table|
  {
    MakeCollate(VotingState(g, i, 1, OnlyVote(g)), UNCOMMITTED).(nodeID := g.table[i].nodeID)
  }

  function Received(g: Group, i: nat): CollateMsg
    requires Proper(g) && i < |g.table|
  {
    Echo(g, i).(receivedVoteMsg := CopiedVote(g))
  }

  lemma SameEcho(g: Group, i: nat)
    requires Proper(g) && i < |g.table|
    ensures SameCollate(Echo(g, i), Received(g, i))
  {
    assert OnlyVote(g).Keys == CopiedVote(g).Keys;
  }

  // Replica 0

  /** Votes among which another vote is stored for replica 0 than the copied one. */
  predicate Base(g: Group, votes: map<NodeID, VoteMsg>)
    requires Proper(g)
  {
    g.table[0].nodeID in votes && votes[g.table[0].nodeID] != CopiedVote(g)[g.table[0].nodeID]
  }

  /** The votes of the first a replicas, all of them VOTE. */
  function Voters(g: Group, a: nat): map<NodeID, VoteMsg>
    requires Proper(g) && 1 <= a <= |g.table|
  {
    FirstVotes(g, 1, a)
  }

  lemma {:induction false} VotersFacts(g: Group, a: nat)
    requires Proper(g) && 1 <= a <= |g.table|
    ensures g.table[0].nodeID in Voters(g, a) && Voters(g, a)[g.table[0].nodeID] == TheVote(g)
    ensures OKVoters(Voters(g, a)) == Voters(g, a).Keys && |OKVoters(Voters(g, a))| == a
  {
    FirstVotesFacts(g, 1, a);
    if a == 1 {
      assert FirstVotes(g, 1, 0) == map[];
    } else {
      VotersFacts(g, a - 1);
    }
    assert forall id :: id in Voters(g, a) ==> id in OKVoters(Voters(g, a));
    assert |Voters(g, a).Keys| == |Voters(g, a)|;
  }

  /** Replica 0 holds these votes and counts m - lag of VOTE, and its collates are all from replicas
      before the m-th. */
  ghost predicate Counts(g: Group, v: Replica, votes: map<NodeID, VoteMsg>, lag: nat, m: nat)
    requires Proper(g)
  {
    && Base(g, votes) && Logged(g, v, 1) && 1 in v.states && v.prepared[1] == 1 && v.committed[1] == 0
    && var t := v.states[1];
       && t.votes == votes && t.totalOK == m - lag && t.prepare == Some(Proposal(g, 1))
       && t.sequenceID == 1 && t.viewID == View(g, 1) && t.f == FaultBound(|g.table|)
       && forall i :: m <= i < |g.table| ==> g.table[i].nodeID !in t.collates
  }

  lemma CreditsOne(g: Group, votes: map<NodeID, VoteMsg>)
    requires Proper(g) && Base(g, votes)
    ensures |Credited(votes, CopiedVote(g))| == 1
  {
    assert Credited(votes, CopiedVote(g)) == {g.table[0].nodeID};
  }

  /** The echo of replica m reaches replica 0. */
  lemma HearEcho(g: Group, v: Replica, votes: map<NodeID, VoteMsg>, lag: nat, m: nat)
    requires Proper(g) && m < |g.table| && Counts(g, v, votes, lag, m)
    ensures !Dropped(v, 1) && Started(v, 1) == v
    ensures var (t, o) := CollateAnswer(v, Received(g, m));
            && t == v.states[1].(totalOK := m - lag + 1, totalCollate := t.totalCollate,
                                 collates := v.states[1].collates[g.table[m].nodeID := Received(g, m)])
            && o.collate.sequenceID == 1 && o.collate.receivedVoteMsg == votes
            && (o.collate.msgType == COMMITTED <==> m - lag + 1 >= Follower(g))
  {
    CreditsOne(g, votes);
  }

  lemma EchoFits(g: Group, v: Replica, votes: map<NodeID, VoteMsg>, lag: nat, m: nat)
    requires Proper(g) && m < |g.table| && Counts(g, v, votes, lag, m)
    ensures !Dropped(v, 1) && Slot(CollateAnswer(Started(v, 1), Received(g, m)).1.collate.sequenceID)
    ensures Picks(CollateAnswer(Started(v, 1), Received(g, m)).1.collate.receivedVoteMsg, g.table[0].nodeID)
  {
    HearEcho(g, v, votes, lag, m);
  }

  lemma EchoCounted(g: Group, v: Replica, votes: map<NodeID, VoteMsg>, lag: nat, m: nat, next: nat)
    requires Proper(g) && m < |g.table| && next == m + 1 < Follower(g) + lag && Counts(g, v, votes, lag, m)
    ensures !Dropped(v, 1) && Slot(CollateAnswer(Started(v, 1), Received(g, m)).1.collate.sequenceID)
    ensures Picks(CollateAnswer(Started(v, 1), Received(g, m)).1.collate.receivedVoteMsg, g.table[0].nodeID)
    ensures Counts(g, CollateHandled(v, Received(g, m), g.table[0].nodeID), votes, lag, next)
  {
    HearEcho(g, v, votes, lag, m);
  }

  /** Replica 0 has decided, and has yet to execute. */
  ghost predicate HasDecided(g: Group, v: Replica, votes: map<NodeID, VoteMsg>)
    requires Proper(g)
  {
    && v.log == Entries(g, 0) && v.pairs == map[] && v.exec == [Some(Proposal(g, 1))]
    && 1 in v.states && v.states[1].votes == votes && v.states[1].f == FaultBound(|g.table|)
    && v.states[1].totalOK == Follower(g)
  }

  lemma LastEchoCounted(g: Group, v: Replica, votes: map<NodeID, VoteMsg>, lag: nat, m: nat)
    requires Proper(g) && m < |g.table| && m + 1 == Follower(g) + lag && Counts(g, v, votes, lag, m)
    ensures !Dropped(v, 1) && Slot(CollateAnswer(Started(v, 1), Received(g, m)).1.collate.sequenceID)
    ensures Picks(CollateAnswer(Started(v, 1), Received(g, m)).1.collate.receivedVoteMsg, g.table[0].nodeID)
    ensures CollateAnswer(Started(v, 1), Received(g, m)).1.collate.msgType == COMMITTED
    ensures HasDecided(g, CollateHandled(v, Received(g, m), g.table[0].nodeID), votes)
  {
    HearEcho(g, v, votes, lag, m);
  }

  // The echoing replicas

  /** A replica whose only vote is that of replica 0 does not commit on a Vote timeout. */
  lemma EchoOnTimeout(g: Group, v: Replica, i: nat)
    requires Proper(g) && i < |g.table| && v.me == g.table[i] && v.table == g.table
    requires 1 in v.states && v.states[1] == VotingState(g, i, 1, OnlyVote(g))
    ensures VoteExpired(v, 1, g.table[0].nodeID) == (v, [OutCollate(Echo(g, i))])
  {}

  /** A replica that has prepared gets the vote of replica 0. */
  lemma HearVote(g: Group, v: Replica, i: nat)
    requires Proper(g) && i < |g.table| && v.me == g.table[i] && v.table == g.table
    requires 1 in v.states && v.states[1] == VotingState(g, i, 1, map[]) && v.committed[1] == 0
    ensures !Dropped(v, 1) && Picks(VoteAnswer(Started(v, 1), TheVote(g)).0.votes, g.table[0].nodeID)
    ensures var (u, out) := VoteHandled(v, TheVote(g), g.table[0].nodeID);
            && out == [] && u.me == v.me && u.table == v.table
            && 1 in u.states && u.states[1] == VotingState(g, i, 1, OnlyVote(g))
  {
    assert Started(v, 1) == v;
    assert map[][g.table[0].nodeID := TheVote(g)] == OnlyVote(g);
    assert |OnlyVote(g)| == 1;
  }

  // The runs

  /** Replica 0 has these votes and the echoes of replicas before the m-th; the replicas from there on
      to the last one needed have not taken a step. */
  ghost predicate Echoed(g: Group, s: System, c: System, votes: map<NodeID, VoteMsg>, lag: nat, m: nat) {
    && Reachable(s, c, CollatesToLeader) && Proper(g) && lag <= 1 <= m < Follower(g) + lag && Orderly(g, c)
    && Proposal(g, 1) in c.net.prepares && TheVote(g) in c.net.votes
    && Counts(g, c.nodes[0], votes, lag, m)
    && forall i :: m <= i < Follower(g) + lag ==> Expects(g, c.nodes[i], i, 1)
  }

  lemma FirstVoters(g: Group, s: System, a: nat) returns (c: System)
    requires Proper(g) && Initial(s, g.table, g.viewID) && 1 <= a < Follower(g)
    ensures Echoed(g, s, c, Voters(g, a), 0, a)
  {
    FirstRound(g, s, CollatesToLeader);
    var one := Propose1(g, s, s, 1, CollatesToLeader);
    c := TallyTo(g, s, one, 1, 1, a, CollatesToLeader);
    FirstVotesFacts(g, 1, a);
    VotersCount(g, c.nodes[0], a);
  }

  lemma VotersCount(g: Group, v: Replica, a: nat)
    requires Proper(g) && 1 <= a < Follower(g) && Counting(g, v, 1, a) && |FirstVotes(g, 1, a)| == a
    ensures Counts(g, v, Voters(g, a), 0, a)
  {
    VotersFacts(g, a);
  }

  /** Replica m prepares, gets the vote, and its Vote timer fires. */
  lemma MakeEcho(g: Group, s: System, c: System, votes: map<NodeID, VoteMsg>, lag: nat, m: nat) returns (d: System)
    requires Echoed(g, s, c, votes, lag, m)
    ensures Reachable(s, d, CollatesToLeader) && Orderly(g, d) && d.nodes == c.nodes[m := d.nodes[m]]
    ensures c.net.prepares <= d.net.prepares && TheVote(g) in d.net.votes && Echo(g, m) in d.net.collates
  {
    var prepared := Prepare(g, s, c, m, 1, CollatesToLeader);
    var told := GiveVote(g, s, prepared, m);
    d := SendEcho(g, s, told, m);
  }

  lemma GiveVote(g: Group, s: System, c: System, i: nat) returns (d: System)
    requires Reachable(s, c, CollatesToLeader) && Proper(g) && i < |g.table| == |c.nodes| && TheVote(g) in c.net.votes
    requires var v := c.nodes[i];
             && v.me == g.table[i] && v.table == g.table
             && 1 in v.states && v.states[1] == VotingState(g, i, 1, map[]) && v.committed[1] == 0
    ensures Reachable(s, d, CollatesToLeader) && |d.nodes| == |c.nodes| && d.nodes == c.nodes[i := d.nodes[i]]
    ensures d.net == c.net && d.expired == c.expired
    ensures var u := d.nodes[i];
            && u.me == g.table[i] && u.table == g.table
            && 1 in u.states && u.states[1] == VotingState(g, i, 1, OnlyVote(g))
  {
    HearVote(g, c.nodes[i], i);
    assert TheVote(g).(addr := 0) == TheVote(g);
    d := Take(s, c, DeliverVote(i, TheVote(g), 0, g.table[0].nodeID), CollatesToLeader);
    SentNothing(c.net);
  }

  lemma SendEcho(g: Group, s: System, c: System, i: nat) returns (d: System)
    requires Reachable(s, c, CollatesToLeader) && Proper(g) && i < |g.table| == |c.nodes|
    requires var v := c.nodes[i];
             && v.me == g.table[i] && v.table == g.table
             && 1 in v.states && v.states[1] == VotingState(g, i, 1, OnlyVote(g))
    ensures Reachable(s, d, CollatesToLeader) && d.nodes == c.nodes && d.expired == c.expired
    ensures d.net == c.net.(collates := c.net.collates + {Echo(g, i)})
  {
    EchoReaction(g, c, i);
    d := Take(s, c, VoteTimer(i, 1, g.table[0].nodeID), CollatesToLeader);
    SentOneCollate(c.net, Echo(g, i));
  }

  lemma EchoReaction(g: Group, c: System, i: nat)
    requires Proper(g) && i < |g.table| == |c.nodes| && c.nodes[i].me == g.table[i] && c.nodes[i].table == g.table
    requires 1 in c.nodes[i].states && c.nodes[i].states[1] == VotingState(g, i, 1, OnlyVote(g))
    ensures var e := VoteTimer(i, 1, g.table[0].nodeID);
            Enabled(c, e) && Reaction(c, e) == (c.nodes[i], [OutCollate(Echo(g, i))])
  {
    EchoOnTimeout(g, c.nodes[i], i);
  }

  /** The delivery of the m-th replica's echo to replica 0. */
  function Hear(g: Group, m: nat): Event
    requires Proper(g) && m < |g.table|
  {
    DeliverCollate(0, Echo(g, m), Received(g, m), g.table[0].nodeID)
  }

  lemma HearEnabled(g: Group, c: System, votes: map<NodeID, VoteMsg>, lag: nat, m: nat)
    requires Proper(g) && m < |g.table| == |c.nodes|
    requires Counts(g, c.nodes[0], votes, lag, m) && Echo(g, m) in c.net.collates
    ensures Enabled(c, Hear(g, m))
    ensures Reaction(c, Hear(g, m)) == (CollateHandled(c.nodes[0], Received(g, m), g.table[0].nodeID), [])
  {
    SameEcho(g, m);
    EchoFits(g, c.nodes[0], votes, lag, m);
  }

  lemma TakeEcho(g: Group, s: System, c: System, votes: map<NodeID, VoteMsg>, lag: nat, m: nat) returns (d: System)
    requires Reachable(s, c, CollatesToLeader) && Proper(g) && m < |g.table| == |c.nodes|
    requires Counts(g, c.nodes[0], votes, lag, m) && Echo(g, m) in c.net.collates
    ensures Enabled(c, Hear(g, m)) && Reachable(s, d, CollatesToLeader) && d == Step(c, Hear(g, m))
    ensures |d.nodes| == |c.nodes| && d.nodes == c.nodes[0 := d.nodes[0]] && d.net == c.net && d.expired == c.expired
    ensures d.nodes[0] == CollateHandled(c.nodes[0], Received(g, m), g.table[0].nodeID)
  {
    HearEnabled(g, c, votes, lag, m);
    d := Take(s, c, Hear(g, m), CollatesToLeader);
    SentNothing(c.net);
  }

  lemma NextEcho(g: Group, s: System, c: System, votes: map<NodeID, VoteMsg>, lag: nat, m: nat, next: nat)
      returns (d: System)
    requires Echoed(g, s, c, votes, lag, m) && next == m + 1 < Follower(g) + lag
    ensures Echoed(g, s, d, votes, lag, next)
  {
    var b := MakeEcho(g, s, c, votes, lag, m);
    d := TakeEcho(g, s, b, votes, lag, m);
    EchoCounted(g, b.nodes[0], votes, lag, m, next);
    StillEchoed(g, s, c, b, d, votes, lag, m, next);
  }

  lemma StillEchoed(g: Group, s: System, c: System, b: System, d: System, votes: map<NodeID, VoteMsg>, lag: nat,
                    m: nat, next: nat)
    requires Echoed(g, s, c, votes, lag, m) && next == m + 1 < Follower(g) + lag
    requires Orderly(g, b) && b.nodes == c.nodes[m := b.nodes[m]]
    requires c.net.prepares <= b.net.prepares && TheVote(g) in b.net.votes
    requires Reachable(s, d, CollatesToLeader) && d.net == b.net && d.expired == b.expired
    requires |d.nodes| == |b.nodes| && d.nodes == b.nodes[0 := d.nodes[0]]
    requires Counts(g, d.nodes[0], votes, lag, next)
    ensures Echoed(g, s, d, votes, lag, next)
  {}

  lemma {:induction false} AllEchoes(g: Group, s: System, c: System, votes: map<NodeID, VoteMsg>, lag: nat, m: nat,
                                     last: nat) returns (d: System)
    requires Echoed(g, s, c, votes, lag, m) && m <= last && last + 1 == Follower(g) + lag
    ensures Echoed(g, s, d, votes, lag, last)
    decreases last - m
  {
    if m == last {
      d := c;
    } else {
      var next: nat :| next == m + 1;
      var b := NextEcho(g, s, c, votes, lag, m, next);
      d := AllEchoes(g, s, b, votes, lag, next, last);
    }
  }

  /** The echo of replica `last` is on the way, and makes replica 0 decide. */
  ghost predicate OnTheBrink(g: Group, s: System, c: System, votes: map<NodeID, VoteMsg>, lag: nat, last: nat) {
    && Reachable(s, c, CollatesToLeader) && Proper(g) && last < |g.table| && last + 1 == Follower(g) + lag
    && Orderly(g, c) && Counts(g, c.nodes[0], votes, lag, last) && Echo(g, last) in c.net.collates
  }

  lemma Brink(g: Group, s: System, c: System, votes: map<NodeID, VoteMsg>, lag: nat, m: nat, last: nat)
      returns (d: System)
    requires Echoed(g, s, c, votes, lag, m) && m <= last && last + 1 == Follower(g) + lag
    ensures OnTheBrink(g, s, d, votes, lag, last)
  {
    var all := AllEchoes(g, s, c, votes, lag, m, last);
    d := GoToBrink(g, s, all, votes, lag, last);
  }

  lemma GoToBrink(g: Group, s: System, c: System, votes: map<NodeID, VoteMsg>, lag: nat, last: nat)
      returns (d: System)
    requires Echoed(g, s, c, votes, lag, last) && last + 1 == Follower(g) + lag
    ensures OnTheBrink(g, s, d, votes, lag, last)
  {
    d := MakeEcho(g, s, c, votes, lag, last);
  }

  /** The last echo is counted. */
  lemma LastEcho(g: Group, s: System, c: System, votes: map<NodeID, VoteMsg>, lag: nat, last: nat)
      returns (d: System)
    requires OnTheBrink(g, s, c, votes, lag, last)
    ensures Enabled(c, Hear(g, last)) && d == Step(c, Hear(g, last))
    ensures Reachable(s, d, CollatesToLeader) && Orderly(g, d) && HasDecided(g, d.nodes[0], votes)
  {
    d := TakeEcho(g, s, c, votes, lag, last);
    LastEchoCounted(g, c.nodes[0], votes, lag, last);
  }

  /** In every group there is a run without a view change, with one proposal per number and no Prepare
      timeout, in which replica 0 executes number 1 although one replica's vote is all it ever gets. */
  lemma OneVoteExecutes(g: Group, s: System) returns (es: seq<Event>)
    requires Proper(g) && Initial(s, g.table, g.viewID)
    ensures ValidRun(s, es) && Steady(es) && OneProposal(Run(s, es).net.prepares) && Run(s, es).expired == {}
    ensures |Run(s, es).nodes| == |g.table|
    ensures var v := Run(s, es).nodes[0];
            v.log == map[1 := Proposal(g, 1)] && 1 in v.states && v.states[1].votes.Keys == {g.table[0].nodeID}
  {
    assert Follower(g) >= 2;
    var last: nat :| last + 1 == Follower(g);
    var first := FirstVoters(g, s, 1);
    var brink := Brink(g, s, first, Voters(g, 1), 0, 1, last);
    var decided := LastEcho(g, s, brink, Voters(g, 1), 0, last);
    OneVoter(g);
    es := ExecuteDecision(g, s, decided);
  }

  lemma ExecuteDecision(g: Group, s: System, c: System) returns (es: seq<Event>)
    requires Reachable(s, c, CollatesToLeader) && Proper(g) && Orderly(g, c) && HasDecided(g, c.nodes[0], Voters(g, 1))
    requires Voters(g, 1).Keys == {g.table[0].nodeID} && Entries(g, 0) == map[]
    ensures ValidRun(s, es) && Steady(es) && OneProposal(Run(s, es).net.prepares) && Run(s, es).expired == {}
    ensures |Run(s, es).nodes| == |g.table|
    ensures var v := Run(s, es).nodes[0];
            v.log == map[1 := Proposal(g, 1)] && 1 in v.states && v.states[1].votes.Keys == {g.table[0].nodeID}
  {
    var d := ExecuteOnly(g, s, c, 0, 1, Proposal(g, 1), CollatesToLeader);
    es :| Leads(s, es, d, CollatesToLeader);
  }

  lemma OneVoter(g: Group)
    requires Proper(g)
    ensures Voters(g, 1).Keys == {g.table[0].nodeID} && Entries(g, 0) == map[]
  {
    assert FirstVotes(g, 1, 0) == map[];
  }
}
