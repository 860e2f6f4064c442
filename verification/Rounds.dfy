/** A family of runs without faults, losses or timeouts: number after number is proposed, voted on by
    2f + 1 replicas, decided by replica 0 and executed there and at one more replica, the follower. */
module Rounds {
  import opened Messages
  import opened Quorum
  import opened VoteSpec
  import opened ExecutorSpec
  import opened NodeSpec
  import opened System
  import opened Agreement

  // Reaching a system step by step

  /** What the events of a run are limited to. */
  datatype Rule = AnyEvents | NoViewChange | CollatesToLeader | OnlyLeaderHears

  /** No view change; collates, or votes and collates, are delivered for number 1 to replica 0 only. */
  predicate Obeys(rule: Rule, e: Event) {
    && (rule != AnyEvents ==> !e.IsViewChange())
    && (rule in {CollatesToLeader, OnlyLeaderHears} && e.DeliverCollate? ==> e.i == 0 && e.collate.sequenceID == 1)
    && (rule == OnlyLeaderHears && e.DeliverVote? ==> e.i == 0 && e.vote.sequenceID == 1)
  }

  predicate Obeyed(rule: Rule, es: seq<Event>) {
    forall j :: 0 <= j < |es| ==> Obeys(rule, es[j])
  }

  /** The run `es` leads to the system c and obeys the rule. */
  ghost predicate Leads(s: System, es: seq<Event>, c: System, rule: Rule) {
    ValidRun(s, es) && Run(s, es) == c && Obeyed(rule, es)
  }

  /** Some run leads to the system c. */
  ghost predicate Reachable(s: System, c: System, rule: Rule) {
    exists es :: Leads(s, es, c, rule)
  }

  lemma Start(s: System, rule: Rule)
    ensures Reachable(s, s, rule)
  {
    assert Leads(s, [], s, rule);
  }

  lemma Then(s: System, c: System, e: Event, rule: Rule)
    requires Reachable(s, c, rule) && Enabled(c, e) && Obeys(rule, e)
    ensures Reachable(s, Step(c, e), rule)
  {
    var es :| Leads(s, es, c, rule);
    OneMoreEvent(s, es, e);
    assert Leads(s, es + [e], Step(c, e), rule);
  }

  /** A replica takes a step. */
  lemma Take(s: System, c: System, e: Event, rule: Rule) returns (d: System)
    requires Reachable(s, c, rule) && Enabled(c, e) && !e.Propose? && Obeys(rule, e)
    ensures Reachable(s, d, rule) && d == Step(c, e)
    ensures e.i < |c.nodes| && d.nodes == c.nodes[e.i := Reaction(c, e).0] && d.net == Sent(c.net, Reaction(c, e).1)
    ensures d.expired == c.expired + if e.PrepareTimer? then {e.k} else {}
  {
    Then(s, c, e, rule);
    StepParts(c, e);
    d := Step(c, e);
  }

  // The messages

  /** The node table and the view that replicas start in. */
  datatype Group = Group(table: seq<NodeInfo>, viewID: nat)

  /** The table is large enough, and its identifiers are distinct. */
  predicate Proper(g: Group) {
    && |g.table| >= VIEWS
    && forall i, j :: 0 <= i < j < |g.table| ==> g.table[i].nodeID != g.table[j].nodeID
  }

  const REQUEST: RequestMsg := RequestMsg(0, "client", "operation", "data", 1)

  /** The view that number j belongs to. */
  function View(g: Group, j: nat): nat {
    if j <= 1 then g.viewID % VIEWS else (j - 1) % VIEWS
  }

  /** What the primary of its view proposes for number j. */
  function Proposal(g: Group, j: nat): PrepareMsg
    requires Proper(g) && j >= 1
  {
    PrepareMsg(View(g, j), j, "", (j - 1) / VIEWS, g.table[View(g, j)].nodeID, -1)
  }

  /** The replicas that vote are those before this one, which is the follower. */
  function Follower(g: Group): nat
    requires Proper(g)
  {
    2 * FaultBound(|g.table|) + 1
  }

  function VoteOf(g: Group, i: nat, j: nat): VoteMsg
    requires Proper(g) && i < |g.table| && j >= 1
  {
    VoteMsg(0, View(g, j), j, Some(Proposal(g, j)), "", g.table[i].nodeID, VOTE)
  }

  /** The first m votes for number j, by sender. */
  function FirstVotes(g: Group, j: nat, m: nat): map<NodeID, VoteMsg>
    requires Proper(g) && m <= |g.table| && j >= 1
  {
    if m == 0 then map[] else FirstVotes(g, j, m - 1)[g.table[m - 1].nodeID := VoteOf(g, m - 1, j)]
  }

  lemma {:induction false} FirstVotesFacts(g: Group, j: nat, m: nat)
    requires Proper(g) && m <= |g.table| && j >= 1
    ensures |FirstVotes(g, j, m)| == m
    ensures forall i :: m <= i < |g.table| ==> g.table[i].nodeID !in FirstVotes(g, j, m)
    ensures m >= 1 ==> g.table[0].nodeID in FirstVotes(g, j, m)
  {
    if m > 0 {
      FirstVotesFacts(g, j, m - 1);
      NewKey(FirstVotes(g, j, m - 1), g.table[m - 1].nodeID, VoteOf(g, m - 1, j));
    }
  }

  /** The state of number j at replica i after the proposal, with these votes, all of them VOTE. */
  function VotingState(g: Group, i: nat, j: nat, votes: map<NodeID, VoteMsg>): Snapshot
    requires Proper(g) && i < |g.table| && j >= 1
  {
    var sent := VoteMsg(0, View(g, j), j, Some(Proposal(g, j)), "", "", VOTE);
    Snapshot(View(g, j), g.table[i].nodeID, j, FaultBound(|g.table|), "", Some(REQUEST), Some(Proposal(g, j)),
             Some(sent), votes, map[], |votes|, |votes|, 0)
  }

  /** The COLLATE message that replica 0 sends when it decides number j. */
  function Decision(g: Group, j: nat): CollateMsg
    requires Proper(g) && j >= 1
  {
    MakeCollate(VotingState(g, 0, j, FirstVotes(g, j, Follower(g))), COMMITTED).(nodeID := g.table[0].nodeID)
  }

  // Replicas

  /** The log after numbers 1..n. */
  function Entries(g: Group, n: nat): Log
    requires Proper(g)
  {
    map x | 1 <= x <= n :: Proposal(g, x)
  }

  /** Replica i is about to get the proposal for number j: what it knows of j and above is fresh. */
  ghost predicate Expects(g: Group, v: Replica, i: nat, j: nat)
    requires Proper(g) && i < |g.table|
  {
    && v.me == g.table[i] && v.table == g.table && v.viewID == View(g, j) && v.epochID == (j - 1) / VIEWS
    && (j >= 2 ==> j in v.states)
    && (forall x :: x >= j && x in v.states ==> v.states[x] == Fresh(View(g, x), v.me.nodeID, |g.table|, x))
    && forall x :: j <= x < SLOTS ==> v.committed[x] == 0 && v.prepared[x] == 0
  }

  /** The log holds exactly the numbers below j, and nothing waits for execution. */
  ghost predicate Logged(g: Group, v: Replica, j: nat)
    requires Proper(g) && j >= 1
  {
    v.log == Entries(g, j - 1) && v.pairs == map[] && v.exec == []
  }

  /** Moreover the last of them was executed last. */
  ghost predicate Executed(g: Group, v: Replica, j: nat)
    requires Proper(g) && j >= 1
  {
    Logged(g, v, j) && v.stable == j - 1
  }

  predicate Idle(v: Replica) {
    v.log == map[] && v.pairs == map[] && v.exec == [] && v.stable == 0
  }

  predicate SameOrder(v: Replica, u: Replica) {
    u.log == v.log && u.pairs == v.pairs && u.exec == v.exec && u.stable == v.stable && u.committed == v.committed
  }

  lemma EpochOf(j: nat)
    requires j >= 1 && j % VIEWS != 0
    ensures (j - 1) / VIEWS == j / VIEWS
  {}

  lemma ProposesNext(g: Group, v: Replica, j: nat)
    requires Proper(g) && j >= 1 && v.table == g.table && v.epochID == (j - 1) / VIEWS
    ensures var (u, out) := NextProposed(v, j + 1, "");
            && u.viewID == View(g, j + 1) && u.epochID == j / VIEWS
            && forall o :: o in out ==> o == OutPrepare(Proposal(g, j + 1))
  {
    if j % VIEWS != 0 { EpochOf(j); }
  }

  /** What announcing does to view, epoch and flags, and what it sends. */
  lemma AnnouncedRest(v: Replica, p: PrepareMsg, vote: VoteMsg)
    requires Slot(p.sequenceID)
    ensures var (u, out) := Announced(v, p, vote, "");
            var (w, proposes) := NextProposed(v, p.sequenceID + 1, "");
            && u.viewID == w.viewID && u.epochID == w.epochID && u.me == v.me && u.stable == v.stable
            && u.prepared == MarkPrepared(w, p.sequenceID).prepared && w.prepared == v.prepared
            && out == proposes + [OutVote(vote.(nodeID := v.me.nodeID))]
  {}

  /** The replica u is what v is after it has gone on from number j to the next, and `out` what it has
      sent on the way. */
  ghost predicate GoneOn(g: Group, v: Replica, i: nat, j: nat, u: Replica, out: seq<Out>)
    requires Proper(g) && i < |g.table| && InRange(j)
  {
    && Expects(g, u, i, j + 1) && SameOrder(v, u) && u.prepared[j] == 1
    && j in u.states && u.states[j] == VotingState(g, i, j, map[])
    && (forall x :: x in u.states <==> x in v.states || j <= x <= j + 1)
    && (forall x :: x in v.states && x != j ==> u.states[x] == v.states[x])
    && (forall x :: 0 <= x < SLOTS && x != j ==> u.prepared[x] == v.prepared[x])
    && u.total == v.total + (if j in v.states then 0 else 1) + (if j + 1 in v.states then 0 else 1)
    && OutVote(VoteOf(g, i, j)) in out
    && forall o :: o in out ==> !o.OutCollate? && (o.OutPrepare? ==> o.prepare == Proposal(g, j + 1))
  }

  /** The state of number j has made its vote. */
  ghost predicate HasVoted(g: Group, v: Replica, i: nat, j: nat)
    requires Proper(g) && i < |g.table| && InRange(j)
  {
    && v.me == g.table[i] && v.table == g.table && v.epochID == (j - 1) / VIEWS
    && j in v.states && v.states[j] == VotingState(g, i, j, map[])
    && (forall x :: x > j && x in v.states ==> v.states[x] == Fresh(View(g, x), v.me.nodeID, |g.table|, x))
    && forall x :: j <= x < SLOTS ==> v.committed[x] == 0 && v.prepared[x] == 0
  }

  /** A replica that has made its vote goes on to the next number. */
  lemma Announce(g: Group, v: Replica, i: nat, j: nat, vote: VoteMsg)
    requires Proper(g) && i < |g.table| && InRange(j) && vote.(nodeID := g.table[i].nodeID) == VoteOf(g, i, j)
    requires HasVoted(g, v, i, j)
    ensures var r := Announced(v, Proposal(g, j), vote, ""); GoneOn(g, v, i, j, r.0, r.1)
  {
    var p := Proposal(g, j);
    AnnouncedFrame(v, p, vote, "");
    AnnouncedRest(v, p, vote);
    ProposesNext(g, v, j);
    var (u, out) := Announced(v, p, vote, "");
    assert v.exec + [] == v.exec;
    assert out[|out| - 1] == OutVote(VoteOf(g, i, j));
    assert (forall x :: x in u.states <==> x in v.states || j <= x <= j + 1);
  }

  /** The state of number j makes its vote. */
  lemma MakeVote(g: Group, v: Replica, i: nat, j: nat)
    requires Proper(g) && i < |g.table| && InRange(j) && Expects(g, v, i, j)
    ensures var v0 := Started(v, j);
            var r := PrepareNext(v0.states[j], Proposal(g, j), Some(REQUEST), Some(""));
            var w := v0.(states := v0.states[j := r.0]);
            && HasVoted(g, w, i, j) && r.1.(nodeID := g.table[i].nodeID) == VoteOf(g, i, j)
            && SameOrder(v, w) && (forall x :: x in w.states <==> x in v.states || x == j)
            && (forall x :: x in v.states && x != j ==> w.states[x] == v.states[x]) && w.prepared == v.prepared
            && w.total == v.total + if j in v.states then 0 else 1
  {
    var v0 := Started(v, j);
    assert v0.states[j] == Fresh(View(g, j), v.me.nodeID, |g.table|, j);
    assert forall x :: x in v0.states <==> x in v.states || x == j;
    MakeVoteFrom(g, v0, i, j);
  }

  lemma MakeVoteFrom(g: Group, v: Replica, i: nat, j: nat)
    requires Proper(g) && i < |g.table| && InRange(j)
    requires v.me == g.table[i] && v.table == g.table && v.epochID == (j - 1) / VIEWS && j in v.states
    requires forall x :: x >= j && x in v.states ==> v.states[x] == Fresh(View(g, x), v.me.nodeID, |g.table|, x)
    requires forall x :: j <= x < SLOTS ==> v.committed[x] == 0 && v.prepared[x] == 0
    ensures var r := PrepareNext(v.states[j], Proposal(g, j), Some(REQUEST), Some(""));
            HasVoted(g, v.(states := v.states[j := r.0]), i, j) && r.1.(nodeID := g.table[i].nodeID) == VoteOf(g, i, j)
  {}

  /** The proposal for number j is handled in time: the replica votes for it and expects j + 1. */
  lemma HandleProposal(g: Group, v: Replica, i: nat, j: nat)
    requires Proper(g) && i < |g.table| && InRange(j) && Expects(g, v, i, j)
    ensures var r := PrepareHandled(v, Proposal(g, j), Some(REQUEST), Some(""), ""); GoneOn(g, v, i, j, r.0, r.1)
  {
    var v0 := Started(v, j);
    var r := PrepareNext(v0.states[j], Proposal(g, j), Some(REQUEST), Some(""));
    var w := v0.(states := v0.states[j := r.0]);
    MakeVote(g, v, i, j);
    Announce(g, w, i, j, r.1);
    var a := Announced(w, Proposal(g, j), r.1, "");
    VotedAndGoneOn(g, v, w, i, j, a.0, a.1);
  }

  lemma VotedAndGoneOn(g: Group, v: Replica, w: Replica, i: nat, j: nat, u: Replica, out: seq<Out>)
    requires Proper(g) && i < |g.table| && InRange(j) && GoneOn(g, w, i, j, u, out)
    requires SameOrder(v, w) && (forall x :: x in w.states <==> x in v.states || x == j)
    requires (forall x :: x in v.states && x != j ==> w.states[x] == v.states[x]) && w.prepared == v.prepared
    requires w.total == v.total + if j in v.states then 0 else 1
    ensures GoneOn(g, v, i, j, u, out)
  {}

  lemma OneReady(log: Log, j: nat, p: PrepareMsg)
    requires Dense(log) && j >= 1 && |log| == j - 1
    ensures Ready(map[j := p], j - 1) == j
    ensures Drained(log, map[j := p]) == log[j := p] && Leftover(log, map[j := p]) == map[]
  {
    var pairs: Log := map[j := p];
    OneIsReady(j, p);
    var after := log[j := p];
    assert forall i: int :: i in after <==> 1 <= i <= j;
    DrainedIs(log, pairs, after);
    NoneLeft(log, pairs, j);
  }

  lemma OneIsReady(j: nat, p: PrepareMsg)
    requires j >= 1
    ensures var pairs: Log := map[j := p]; pairs.Keys == {j} && Ready(pairs, j - 1) == j
  {
    var pairs: Log := map[j := p];
    RunEndUnique(pairs.Keys, j - 1, j);
  }

  lemma NoneLeft(log: Log, pairs: Log, j: nat)
    requires pairs.Keys == {j} && |log| == j - 1 && Ready(pairs, j - 1) == j
    ensures Leftover(log, pairs) == map[]
  {
    assert Leftover(log, pairs).Keys == {};
  }

  /** Executing the only notice, for the next number. */
  lemma ExecuteNext(g: Group, v: Replica, j: nat, p: PrepareMsg)
    requires Proper(g) && j >= 1 && p.sequenceID == j
    requires v.log == Entries(g, j - 1) && v.pairs == map[] && v.exec == [Some(p)]
    ensures var u := ArrivalHandled(v.(exec := v.exec[1..]), p);
            && u.log == Entries(g, j - 1)[j := p] && u.pairs == map[] && u.exec == [] && u.stable == j
            && u.viewID == j % VIEWS && u.epochID == j / VIEWS && u.me == v.me && u.table == v.table
            && u.states == v.states && u.prepared == v.prepared && u.total == v.total
            && forall x :: 0 <= x < SLOTS && x != j ==> u.committed[x] == v.committed[x]
  {
    var w := v.(exec := v.exec[1..], pairs := map[j := p]);
    assert v.pairs[j := p] == map[j := p];
    assert ArrivalHandled(v.(exec := v.exec[1..]), p) == Drain(w);
    DenseWhenKeys(v.log, j - 1);
    OneReady(v.log, j, p);
    DrainOne(w, j, p);
  }

  lemma DrainOne(v: Replica, j: nat, p: PrepareMsg)
    requires j >= 1 && |v.log| == j - 1 && v.pairs == map[j := p] && Ready(v.pairs, j - 1) == j
    ensures var u := Drain(v);
            && u.log == Drained(v.log, v.pairs) && u.pairs == Leftover(v.log, v.pairs)
            && u.exec == v.exec && u.stable == j
            && u.viewID == j % VIEWS && u.epochID == j / VIEWS && u.me == v.me && u.table == v.table
            && u.states == v.states && u.prepared == v.prepared && u.total == v.total
            && forall x :: 0 <= x < SLOTS && x != j ==> u.committed[x] == v.committed[x]
  {}

  /** A replica that holds a PREPARE for number j, no votes and no collates. */
  predicate Holds(g: Group, v: Replica, j: nat, p: PrepareMsg) {
    && j in v.states && v.states[j].prepare == Some(p) && v.states[j].votes == map[] && v.states[j].collates == map[]
    && v.states[j].sequenceID == j && v.states[j].viewID == View(g, j)
  }

  /** It follows the decision with what it holds. */
  lemma FollowDecision(g: Group, v: Replica, j: nat, p: PrepareMsg)
    requires Proper(g) && InRange(j) && Holds(g, v, j, p) && v.prepared[j] == 1 && v.committed[j] == 0
    ensures var c := Decision(g, j);
            && !Dropped(v, j) && Started(v, j) == v
            && CollateAnswer(v, c).1.collate.sequenceID == j && CollateAnswer(v, c).1.collate.receivedVoteMsg == map[]
            && var u := CollateHandled(v, c, "");
               u == v.(states := v.states[j := u.states[j]], exec := v.exec + [Some(p)]) && j in u.states
  {
    var c := Decision(g, j);
    var (s, o) := CollateAnswer(v, c);
    assert Credited(map[], c.receivedVoteMsg) == {};
    assert o.collate.sequenceID == j && s.prepare == Some(p);
    assert CollateCounted(v, c, "") == v.(states := v.states[j := s], exec := v.exec + [Some(p)]);
  }

  // The system between the steps

  /** All proposals are those of the numbers' primaries, and no Prepare timer has fired. */
  ghost predicate Orderly(g: Group, c: System)
    requires Proper(g)
  {
    && |c.nodes| == |g.table| && c.expired == {}
    && forall p :: p in c.net.prepares ==> p.sequenceID >= 1 && p == Proposal(g, p.sequenceID)
  }

  /** The numbers below j are proposed and decided. */
  ghost predicate Published(g: Group, c: System, j: nat)
    requires Proper(g)
  {
    forall x :: 1 <= x < j ==> Proposal(g, x) in c.net.prepares && Decision(g, x) in c.net.collates
  }

  /** Of replicas 0 to the follower's, the first m have gone on to number j + 1. The follower has not,
      and all others have not taken a step. */
  ghost predicate Others(g: Group, c: System, j: nat, m: nat)
    requires Proper(g) && |c.nodes| == |g.table| && j >= 1
  {
    && (forall i :: 1 <= i < Follower(g) ==> Expects(g, c.nodes[i], i, if i < m then j + 1 else j) && Idle(c.nodes[i]))
    && Expects(g, c.nodes[Follower(g)], Follower(g), j) && Executed(g, c.nodes[Follower(g)], j)
    && forall i :: Follower(g) < i < |g.table| ==> c.nodes[i] == NewNode(g.table[i], g.table, g.viewID)
  }

  /** Numbers below j are done, and nothing of j has happened. */
  ghost predicate Round(g: Group, c: System, j: nat) {
    && Proper(g) && j >= 1 && Orderly(g, c) && Published(g, c, j)
    && Expects(g, c.nodes[0], 0, j) && Executed(g, c.nodes[0], j)
    && Others(g, c, j, 0)
  }

  /** Replica 0 has the first m votes for number j. */
  ghost predicate Counting(g: Group, v: Replica, j: nat, m: nat)
    requires Proper(g) && InRange(j) && m <= |g.table|
  {
    && Expects(g, v, 0, j + 1) && Executed(g, v, j)
    && j in v.states && v.states[j] == VotingState(g, 0, j, FirstVotes(g, j, m))
    && v.prepared[j] == 1 && v.committed[j] == 0
  }

  /** Number j is proposed, m replicas have voted, and replica 0 has their votes. */
  ghost predicate Tally(g: Group, c: System, j: nat, m: nat) {
    && Proper(g) && InRange(j) && 1 <= m < Follower(g) && Orderly(g, c) && Published(g, c, j)
    && Proposal(g, j) in c.net.prepares
    && Counting(g, c.nodes[0], j, m)
    && Others(g, c, j, m)
  }

  /** Replica 0 has decided and executed number j; the follower does not know of it yet. */
  ghost predicate Led(g: Group, c: System, j: nat) {
    && Proper(g) && InRange(j) && Orderly(g, c) && Published(g, c, j + 1)
    && Expects(g, c.nodes[0], 0, j + 1) && Executed(g, c.nodes[0], j + 1)
    && Others(g, c, j, Follower(g))
  }

  /** One vote reaches replica 0. */
  lemma CountVote(g: Group, v: Replica, j: nat, m: nat)
    requires Proper(g) && InRange(j) && m < |g.table| && Counting(g, v, j, m)
    ensures var vote := VoteOf(g, m, j);
            && !Dropped(v, j) && Started(v, j) == v && vote.(addr := 0) == vote
            && VoteAnswer(v, vote).0 == VotingState(g, 0, j, FirstVotes(g, j, m + 1))
            && g.table[0].nodeID in VoteAnswer(v, vote).0.votes
            && (m + 1 < Follower(g) ==> VoteAnswer(v, vote).1.collate == NO_COLLATE)
            && (m + 1 == Follower(g) ==> VoteAnswer(v, vote).1.collate.(nodeID := g.table[0].nodeID) == Decision(g, j))
  {
    FirstVotesFacts(g, j, m);
    FirstVotesFacts(g, j, m + 1);
    assert Started(v, j) == v;
    CountVoteState(g, j, m);
  }

  lemma CountVoteState(g: Group, j: nat, m: nat)
    requires Proper(g) && j >= 1 && m < |g.table| && |FirstVotes(g, j, m)| == m && |FirstVotes(g, j, m + 1)| == m + 1
    requires g.table[m].nodeID !in FirstVotes(g, j, m)
    ensures var r := VoteNext(VotingState(g, 0, j, FirstVotes(g, j, m)), Some(VoteOf(g, m, j)), |g.table|);
            && r.0 == VotingState(g, 0, j, FirstVotes(g, j, m + 1))
            && (m + 1 < Follower(g) ==> r.1.collate == NO_COLLATE)
            && (m + 1 == Follower(g) ==> r.1.collate.(nodeID := g.table[0].nodeID) == Decision(g, j))
  {}

  lemma VoteCountedOn(g: Group, v: Replica, j: nat, m: nat, next: nat)
    requires Proper(g) && InRange(j) && next == m + 1 < Follower(g) && Counting(g, v, j, m)
    ensures Picks(VoteAnswer(Started(v, j), VoteOf(g, m, j)).0.votes, g.table[0].nodeID)
    ensures var (u, out) := VoteHandled(v, VoteOf(g, m, j), g.table[0].nodeID);
            Counting(g, u, j, next) && out == []
  {
    CountVote(g, v, j, m);
  }

  lemma VoteDecidesIt(g: Group, v: Replica, j: nat, last: nat)
    requires Proper(g) && InRange(j) && last + 1 == Follower(g) && Counting(g, v, j, last)
    ensures Picks(VoteAnswer(Started(v, j), VoteOf(g, last, j)).0.votes, g.table[0].nodeID)
    ensures var (u, out) := VoteHandled(v, VoteOf(g, last, j), g.table[0].nodeID);
            && Expects(g, u, 0, j + 1) && u.log == v.log && u.pairs == v.pairs && u.committed == v.committed
            && u.exec == [Some(Proposal(g, j))] && out == [OutCollate(Decision(g, j))]
  {
    CountVote(g, v, j, last);
  }

  // The steps of a round

  /** A replica handles the proposal; the rest of the system stays as it is. */
  lemma Prepare(g: Group, s: System, c: System, z: nat, j: nat, rule: Rule) returns (d: System)
    requires Reachable(s, c, rule) && Proper(g) && Orderly(g, c) && z < |g.table| && InRange(j)
    requires Expects(g, c.nodes[z], z, j) && Proposal(g, j) in c.net.prepares
    ensures Reachable(s, d, rule) && Orderly(g, d)
    ensures d.nodes == c.nodes[z := d.nodes[z]] && Expects(g, d.nodes[z], z, j + 1) && SameOrder(c.nodes[z], d.nodes[z])
    ensures c.net.prepares <= d.net.prepares && c.net.collates == d.net.collates
    ensures c.net.votes <= d.net.votes && VoteOf(g, z, j) in d.net.votes
    ensures var v, u := c.nodes[z], d.nodes[z];
            && j in u.states && u.states[j] == VotingState(g, z, j, map[]) && u.prepared[j] == 1
            && (forall x :: x in u.states <==> x in v.states || j <= x <= j + 1)
            && u.total == v.total + (if j in v.states then 0 else 1) + (if j + 1 in v.states then 0 else 1)
            && (forall x :: x in v.states && x != j ==> u.states[x] == v.states[x])
            && (forall x :: 0 <= x < SLOTS && x != j ==> u.prepared[x] == v.prepared[x])
  {
    assert InRange(Proposal(g, j).sequenceID);
    var e := DeliverPrepare(z, Proposal(g, j), Some(REQUEST), Some(""), "");
    HandleProposal(g, c.nodes[z], z, j);
    d := Take(s, c, e, rule);
    SentInRound(g, c.net, Reaction(c, e).1, z, j);
  }

  lemma SentInRound(g: Group, net: Net, out: seq<Out>, z: nat, j: nat)
    requires Proper(g) && z < |g.table| && j >= 1 && OutVote(VoteOf(g, z, j)) in out
    requires forall o :: o in out ==> !o.OutCollate? && (o.OutPrepare? ==> o.prepare == Proposal(g, j + 1))
    ensures var sent := Sent(net, out);
            && net.prepares <= sent.prepares && sent.prepares <= net.prepares + {Proposal(g, j + 1)}
            && sent.collates == net.collates && net.votes <= sent.votes && VoteOf(g, z, j) in sent.votes
  {}

  /** A replica gets the decision and follows it with what it holds. */
  lemma Learn(g: Group, s: System, c: System, z: nat, j: nat, p: PrepareMsg, rule: Rule) returns (d: System)
    requires Reachable(s, c, rule) && rule in {AnyEvents, NoViewChange} && Proper(g) && z < |c.nodes| && InRange(j)
    requires Decision(g, j) in c.net.collates
    requires Holds(g, c.nodes[z], j, p) && c.nodes[z].prepared[j] == 1 && c.nodes[z].committed[j] == 0
    ensures Reachable(s, d, rule) && d.net == c.net && d.expired == c.expired
    ensures |d.nodes| == |c.nodes| && d.nodes == c.nodes[z := d.nodes[z]]
    ensures var v, u := c.nodes[z], d.nodes[z];
            j in u.states && u == v.(states := v.states[j := u.states[j]], exec := v.exec + [Some(p)])
  {
    var e := DeliverCollate(z, Decision(g, j), Decision(g, j), "");
    FollowDecision(g, c.nodes[z], j, p);
    d := Take(s, c, e, rule);
    SentNothing(c.net);
  }

  /** A replica executes the only notice. */
  lemma ExecuteOnly(g: Group, s: System, c: System, z: nat, j: nat, p: PrepareMsg, rule: Rule) returns (d: System)
    requires Reachable(s, c, rule) && Proper(g) && z < |c.nodes| && j >= 1 && p.sequenceID == j
    requires var v := c.nodes[z]; v.log == Entries(g, j - 1) && v.pairs == map[] && v.exec == [Some(p)]
    ensures Reachable(s, d, rule) && d.net == c.net && d.expired == c.expired
    ensures |d.nodes| == |c.nodes| && d.nodes == c.nodes[z := d.nodes[z]]
    ensures var v, u := c.nodes[z], d.nodes[z];
            && u.log == Entries(g, j - 1)[j := p] && u.pairs == map[] && u.exec == [] && u.stable == j
            && u.viewID == j % VIEWS && u.epochID == j / VIEWS && u.me == v.me && u.table == v.table
            && u.states == v.states && u.prepared == v.prepared && u.total == v.total
            && forall x :: 0 <= x < SLOTS && x != j ==> u.committed[x] == v.committed[x]
  {
    var e := Execute(z);
    ExecuteNext(g, c.nodes[z], j, p);
    d := Take(s, c, e, rule);
    SentNothing(c.net);
  }

  lemma SentNothing(net: Net)
    ensures Sent(net, []) == net
  {
    var sent := Sent(net, []);
    assert sent.prepares == net.prepares && sent.votes == net.votes && sent.collates == net.collates;
  }

  /** A replica follows the decision with what it holds, and executes it. */
  lemma Follow(g: Group, s: System, c: System, z: nat, j: nat, p: PrepareMsg, rule: Rule) returns (d: System)
    requires Reachable(s, c, rule) && rule in {AnyEvents, NoViewChange} && Proper(g) && z < |c.nodes| && InRange(j)
    requires Decision(g, j) in c.net.collates && p.sequenceID == j
    requires Holds(g, c.nodes[z], j, p) && c.nodes[z].prepared[j] == 1 && c.nodes[z].committed[j] == 0
    requires Logged(g, c.nodes[z], j)
    ensures Reachable(s, d, rule) && d.net == c.net && d.expired == c.expired
    ensures |d.nodes| == |c.nodes| && d.nodes == c.nodes[z := d.nodes[z]]
    ensures var v, u := c.nodes[z], d.nodes[z];
            && u.log == Entries(g, j - 1)[j := p] && u.pairs == map[] && u.exec == [] && u.stable == j
            && u.viewID == j % VIEWS && u.epochID == j / VIEWS && u.me == v.me && u.table == v.table
            && j in u.states && u.states == v.states[j := u.states[j]] && u.prepared == v.prepared && u.total == v.total
            && forall x :: 0 <= x < SLOTS && x != j ==> u.committed[x] == v.committed[x]
  {
    var b := Learn(g, s, c, z, j, p, rule);
    d := ExecuteOnly(g, s, b, z, j, p, rule);
    assert d.nodes[z].states == b.nodes[z].states;
  }

  /** A replica that is told of a decided number does like the follower. */
  lemma FollowRound(g: Group, s: System, c: System, z: nat, j: nat, rule: Rule) returns (d: System)
    requires Reachable(s, c, rule) && rule in {AnyEvents, NoViewChange}
    requires Proper(g) && Orderly(g, c) && z < |g.table| && InRange(j)
    requires Expects(g, c.nodes[z], z, j) && Logged(g, c.nodes[z], j)
    requires Proposal(g, j) in c.net.prepares && Decision(g, j) in c.net.collates
    ensures Reachable(s, d, rule) && Orderly(g, d)
    ensures d.nodes == c.nodes[z := d.nodes[z]]
    ensures c.net.prepares <= d.net.prepares && c.net.collates == d.net.collates
    ensures Expects(g, d.nodes[z], z, j + 1) && Executed(g, d.nodes[z], j + 1)
    ensures var v, u := c.nodes[z], d.nodes[z];
            && (forall x :: x in u.states <==> x in v.states || j <= x <= j + 1)
            && u.total == v.total + (if j in v.states then 0 else 1) + (if j + 1 in v.states then 0 else 1)
  {
    var b := Prepare(g, s, c, z, j, rule);
    d := Follow(g, s, b, z, j, Proposal(g, j), rule);
    EntriesGrow(g, j);
  }

  lemma EntriesDense(g: Group, n: nat)
    requires Proper(g)
    ensures Dense(Entries(g, n)) && |Entries(g, n)| == n
  {
    DenseWhenKeys(Entries(g, n), n);
  }

  lemma EntriesGrow(g: Group, j: nat)
    requires Proper(g) && j >= 1
    ensures Entries(g, j - 1)[j := Proposal(g, j)] == Entries(g, j)
  {
    assert Entries(g, j - 1)[j := Proposal(g, j)].Keys == Entries(g, j).Keys;
  }

  /** Number j is proposed, and replica 0 votes. */
  lemma Propose1(g: Group, s: System, c: System, j: nat, rule: Rule) returns (d: System)
    requires rule == OnlyLeaderHears ==> j == 1
    requires Reachable(s, c, rule) && Round(g, c, j) && InRange(j)
    ensures Reachable(s, d, rule) && Tally(g, d, j, 1) && VoteOf(g, 0, j) in d.net.votes
  {
    Then(s, c, Propose(Proposal(g, j)), rule);
    var a := Step(c, Propose(Proposal(g, j)));
    var b := Prepare(g, s, a, 0, j, rule);
    FirstVotesFacts(g, j, 0);
    d := Vote1(g, s, b, j, 0, 1, rule);
    TallyBegins(g, c, d, j);
  }

  lemma TallyBegins(g: Group, c: System, d: System, j: nat)
    requires Round(g, c, j) && InRange(j) && Orderly(g, d) && |c.nodes| == |d.nodes|
    requires c.net.prepares <= d.net.prepares && c.net.collates <= d.net.collates && Proposal(g, j) in d.net.prepares
    requires Counting(g, d.nodes[0], j, 1) && forall i :: 1 <= i < |c.nodes| ==> d.nodes[i] == c.nodes[i]
    ensures Tally(g, d, j, 1)
  {}

  /** The vote of replica m reaches replica 0. */
  lemma Vote1(g: Group, s: System, c: System, j: nat, m: nat, next: nat, rule: Rule) returns (d: System)
    requires rule == OnlyLeaderHears ==> j == 1
    requires Reachable(s, c, rule) && Proper(g) && Orderly(g, c) && InRange(j) && next == m + 1 < Follower(g)
    requires Counting(g, c.nodes[0], j, m) && VoteOf(g, m, j) in c.net.votes
    ensures Reachable(s, d, rule) && Orderly(g, d) && d.nodes == c.nodes[0 := d.nodes[0]] && d.net == c.net
    ensures Counting(g, d.nodes[0], j, next)
  {
    CountVote(g, c.nodes[0], j, m);
    VoteCountedOn(g, c.nodes[0], j, m, next);
    d := Take(s, c, DeliverVote(0, VoteOf(g, m, j), 0, g.table[0].nodeID), rule);
    SentNothing(c.net);
  }

  /** Of the others only replica m has changed. */
  lemma OthersKept(g: Group, c: System, d: System, j: nat, m: nat, next: nat)
    requires Proper(g) && j >= 1 && |c.nodes| == |d.nodes| == |g.table| && Others(g, c, j, m)
    requires 1 <= m < Follower(g) && next == m + 1
    requires forall i :: 1 <= i < |g.table| && i != m ==> d.nodes[i] == c.nodes[i]
    requires Expects(g, d.nodes[m], m, j + 1) && Idle(d.nodes[m])
    ensures Others(g, d, j, next)
  {}

  /** One more replica votes, and replica 0 gets its vote. */
  lemma TallyStep(g: Group, s: System, c: System, j: nat, m: nat, next: nat, rule: Rule) returns (d: System)
    requires rule == OnlyLeaderHears ==> j == 1
    requires Reachable(s, c, rule) && Tally(g, c, j, m) && next == m + 1 < Follower(g)
    ensures Reachable(s, d, rule) && Tally(g, d, j, next) && c.net.votes <= d.net.votes
  {
    var b := Prepare(g, s, c, m, j, rule);
    d := Vote1(g, s, b, j, m, next, rule);
    OthersKept(g, c, d, j, m, next);
  }

  /** Replicas vote until m has become `end`. */
  lemma {:induction false} TallyTo(g: Group, s: System, c: System, j: nat, m: nat, end: nat, rule: Rule)
      returns (d: System)
    requires rule == OnlyLeaderHears ==> j == 1
    requires Reachable(s, c, rule) && Tally(g, c, j, m) && m <= end < Follower(g)
    ensures Reachable(s, d, rule) && Tally(g, d, j, end) && c.net.votes <= d.net.votes
    decreases end - m
  {
    if m == end {
      d := c;
    } else {
      var next: nat :| next == m + 1;
      var b := TallyStep(g, s, c, j, m, next, rule);
      d := TallyTo(g, s, b, j, next, end, rule);
    }
  }

  /** The last vote makes replica 0 decide. */
  lemma LastVote(g: Group, s: System, c: System, j: nat, last: nat) returns (d: System)
    requires Reachable(s, c, NoViewChange) && Proper(g) && Orderly(g, c) && InRange(j) && last + 1 == Follower(g)
    requires Counting(g, c.nodes[0], j, last) && VoteOf(g, last, j) in c.net.votes
    ensures Reachable(s, d, NoViewChange) && Orderly(g, d) && d.nodes == c.nodes[0 := d.nodes[0]]
    ensures d.net.prepares == c.net.prepares && d.net.collates == c.net.collates + {Decision(g, j)}
    ensures Expects(g, d.nodes[0], 0, j + 1) && d.nodes[0].log == Entries(g, j - 1) && d.nodes[0].pairs == map[]
    ensures d.nodes[0].exec == [Some(Proposal(g, j))]
  {
    CountVote(g, c.nodes[0], j, last);
    VoteDecidesIt(g, c.nodes[0], j, last);
    d := Take(s, c, DeliverVote(0, VoteOf(g, last, j), 0, g.table[0].nodeID), NoViewChange);
    SentOneCollate(c.net, Decision(g, j));
  }

  lemma SentOneCollate(net: Net, c: CollateMsg)
    ensures Sent(net, [OutCollate(c)]) == net.(collates := net.collates + {c})
  {
    var sent := Sent(net, [OutCollate(c)]);
    assert OutCollate(c) in [OutCollate(c)];
    assert sent.prepares == net.prepares && sent.votes == net.votes && sent.collates == net.collates + {c};
  }

  /** Replica 0 executes what it has decided. */
  lemma ExecuteDecided(g: Group, s: System, c: System, j: nat) returns (d: System)
    requires Reachable(s, c, NoViewChange) && Proper(g) && Orderly(g, c) && InRange(j)
    requires Expects(g, c.nodes[0], 0, j + 1) && c.nodes[0].log == Entries(g, j - 1) && c.nodes[0].pairs == map[]
    requires c.nodes[0].exec == [Some(Proposal(g, j))]
    ensures Reachable(s, d, NoViewChange) && Orderly(g, d) && d.nodes == c.nodes[0 := d.nodes[0]] && d.net == c.net
    ensures Expects(g, d.nodes[0], 0, j + 1) && Executed(g, d.nodes[0], j + 1)
  {
    d := ExecuteOnly(g, s, c, 0, j, Proposal(g, j), NoViewChange);
    EntriesGrow(g, j);
  }

  /** The last voter has voted, and its vote is on the way. */
  ghost predicate AllVoted(g: Group, c: System, j: nat, last: nat) {
    && Proper(g) && InRange(j) && Orderly(g, c) && Published(g, c, j) && Proposal(g, j) in c.net.prepares
    && last + 1 == Follower(g) && Counting(g, c.nodes[0], j, last) && VoteOf(g, last, j) in c.net.votes
    && Others(g, c, j, Follower(g))
  }

  lemma LastVoter(g: Group, s: System, c: System, j: nat, last: nat) returns (d: System)
    requires Reachable(s, c, NoViewChange) && Tally(g, c, j, last) && last + 1 == Follower(g)
    ensures Reachable(s, d, NoViewChange) && AllVoted(g, d, j, last)
  {
    d := Prepare(g, s, c, last, j, NoViewChange);
    OthersKept(g, c, d, j, last, Follower(g));
  }

  lemma DecideAll(g: Group, s: System, c: System, j: nat, last: nat) returns (d: System)
    requires Reachable(s, c, NoViewChange) && AllVoted(g, c, j, last)
    ensures Reachable(s, d, NoViewChange) && Led(g, d, j)
  {
    var a := LastVote(g, s, c, j, last);
    d := ExecuteDecided(g, s, a, j);
    PublishedOneMore(g, c, d, j);
  }

  lemma Decide(g: Group, s: System, c: System, j: nat, last: nat) returns (d: System)
    requires Reachable(s, c, NoViewChange) && Tally(g, c, j, last) && last + 1 == Follower(g)
    ensures Reachable(s, d, NoViewChange) && Led(g, d, j)
  {
    var b := LastVoter(g, s, c, j, last);
    d := DecideAll(g, s, b, j, last);
  }

  lemma PublishedOneMore(g: Group, c: System, d: System, j: nat)
    requires Proper(g) && j >= 1 && Published(g, c, j)
    requires c.net.prepares <= d.net.prepares && c.net.collates <= d.net.collates
    requires Proposal(g, j) in d.net.prepares && Decision(g, j) in d.net.collates
    ensures Published(g, d, j + 1)
  {}

  lemma Lead(g: Group, s: System, c: System, j: nat) returns (d: System)
    requires Reachable(s, c, NoViewChange) && Round(g, c, j) && InRange(j)
    ensures Reachable(s, d, NoViewChange) && Led(g, d, j)
  {
    var one := Propose1(g, s, c, j, NoViewChange);
    d := TallyAndDecide(g, s, one, j);
  }

  lemma TallyAndDecide(g: Group, s: System, c: System, j: nat) returns (d: System)
    requires Reachable(s, c, NoViewChange) && Tally(g, c, j, 1)
    ensures Reachable(s, d, NoViewChange) && Led(g, d, j)
  {
    var last: nat :| last + 1 == Follower(g);
    var all := TallyTo(g, s, c, j, 1, last, NoViewChange);
    d := Decide(g, s, all, j, last);
  }

  lemma NextRound(g: Group, s: System, c: System, j: nat, next: nat) returns (d: System)
    requires Reachable(s, c, NoViewChange) && Led(g, c, j) && next == j + 1
    ensures Reachable(s, d, NoViewChange) && Round(g, d, next)
  {
    d := FollowRound(g, s, c, Follower(g), j, NoViewChange);
    RoundBegins(g, c, d, Follower(g), j, next);
  }

  /** The follower was the last to go on to the next number. */
  lemma RoundBegins(g: Group, c: System, d: System, z: nat, j: nat, next: nat)
    requires Led(g, c, j) && next == j + 1 && z == Follower(g) && Orderly(g, d) && |c.nodes| == |g.table|
    requires d.nodes == c.nodes[z := d.nodes[z]]
    requires c.net.prepares <= d.net.prepares && c.net.collates == d.net.collates
    requires Expects(g, d.nodes[z], z, j + 1) && Executed(g, d.nodes[z], j + 1)
    ensures Round(g, d, next)
  {
    assert Published(g, d, next);
    OthersBegin(g, c, d, z, j, next);
  }

  lemma OthersBegin(g: Group, c: System, d: System, z: nat, j: nat, next: nat)
    requires Proper(g) && InRange(j) && next == j + 1 && z == Follower(g) && |c.nodes| == |g.table| == |d.nodes|
    requires Others(g, c, j, z) && d.nodes == c.nodes[z := d.nodes[z]]
    requires Expects(g, d.nodes[z], z, next) && Executed(g, d.nodes[z], next)
    ensures Others(g, d, next, 0)
  {
    forall i | 1 <= i < z ensures Expects(g, d.nodes[i], i, next) && Idle(d.nodes[i]) {
      assert d.nodes[i] == c.nodes[i];
    }
  }

  lemma FirstRound(g: Group, s: System, rule: Rule)
    requires Proper(g) && Initial(s, g.table, g.viewID)
    ensures Reachable(s, s, rule) && Round(g, s, 1)
  {
    Start(s, rule);
    assert Entries(g, 0) == map[];
    forall i | 0 <= i < |g.table| ensures Expects(g, s.nodes[i], i, 1) && Executed(g, s.nodes[i], 1) {
      assert s.nodes[i] == NewNode(g.table[i], g.table, g.viewID);
    }
  }

  lemma OneRound(g: Group, s: System, c: System, i: nat, j: nat) returns (d: System)
    requires Reachable(s, c, NoViewChange) && Round(g, c, i) && InRange(i) && j == i + 1
    ensures Reachable(s, d, NoViewChange) && Round(g, d, j)
  {
    var led := Lead(g, s, c, i);
    d := NextRound(g, s, led, i, j);
  }

  lemma {:induction false} RoundsFrom(g: Group, s: System, c: System, i: nat, j: nat) returns (d: System)
    requires Reachable(s, c, NoViewChange) && Round(g, c, i) && i < j <= SLOTS
    ensures Reachable(s, d, NoViewChange) && Round(g, d, j)
    decreases j - i
  {
    if i + 1 == j {
      d := OneRound(g, s, c, i, j);
    } else {
      var next: nat :| next == i + 1;
      var b := OneRound(g, s, c, i, next);
      d := RoundsFrom(g, s, b, next, j);
    }
  }

  /** For every number there is a run in which all numbers below it are decided and executed. */
  lemma RoundsTo(g: Group, s: System, j: nat) returns (c: System)
    requires Proper(g) && Initial(s, g.table, g.viewID) && 1 <= j <= SLOTS
    ensures Reachable(s, c, NoViewChange) && Round(g, c, j)
  {
    FirstRound(g, s, NoViewChange);
    if j == 1 {
      c := s;
    } else {
      c := RoundsFrom(g, s, s, 1, j);
    }
  }
}
