/** Runs in which some members stay silent and others do not vote VOTE, so that no replica ever counts
    2f + 1: exactly when the adaptive quorum decides for them. */
module Silence {
  import opened Messages
  import opened Quorum
  import opened VoteSpec
  import opened NodeSpec
  import opened System
  import opened Agreement
  import opened StateRuns
  import opened Validity
  import opened Rounds
  import opened Recast
  import opened Progress
  import V = VoteRuns

  /** The vote of a replica that gets the first proposal without its request. */
  function NullOf(g: Group, i: nat): VoteMsg
    requires Proper(g) && i < |g.table|
  {
    VoteMsg(0, View(g, 1), 1, Some(Proposal(g, 1)), "NULL", g.table[i].nodeID, NULLMSG)
  }

  /** The votes of the first m replicas, of which the first a say VOTE and the others NULL. */
  function Mixed(g: Group, a: nat, m: nat): map<NodeID, VoteMsg>
    requires Proper(g) && a <= m <= |g.table|
    decreases m
  {
    if m == a then FirstVotes(g, 1, a) else Mixed(g, a, m - 1)[g.table[m - 1].nodeID := NullOf(g, m - 1)]
  }

  lemma {:induction false} FirstVotesAreOK(g: Group, a: nat)
    requires Proper(g) && a <= |g.table|
    ensures |OKVoters(FirstVotes(g, 1, a))| == a
  {
    if a > 0 {
      FirstVotesAreOK(g, a - 1);
      FirstVotesFacts(g, 1, a - 1);
      V.OneMoreVoter(FirstVotes(g, 1, a - 1), VoteOf(g, a - 1, 1));
    }
  }

  lemma {:induction false} MixedFacts(g: Group, a: nat, m: nat)
    requires Proper(g) && 1 <= a <= m <= |g.table|
    ensures |Mixed(g, a, m)| == m && |OKVoters(Mixed(g, a, m))| == a && g.table[0].nodeID in Mixed(g, a, m)
    ensures forall i :: m <= i < |g.table| ==> g.table[i].nodeID !in Mixed(g, a, m)
    decreases m
  {
    if m == a {
      FirstVotesFacts(g, 1, a);
      FirstVotesAreOK(g, a);
    } else {
      MixedFacts(g, a, m - 1);
      NewKey(Mixed(g, a, m - 1), g.table[m - 1].nodeID, NullOf(g, m - 1));
      V.OneMoreVoter(Mixed(g, a, m - 1), NullOf(g, m - 1));
    }
  }

  /** Replica 0 holds these votes. */
  ghost predicate Hearing(g: Group, v: Replica, a: nat, m: nat)
    requires Proper(g) && a <= m <= |g.table|
  {
    && v.me == g.table[0] && v.table == g.table && Logged(g, v, 1)
    && v.prepared[1] == 1 && v.committed[1] == 0 && 1 in v.states
    && var t := v.states[1];
       && t.viewID == View(g, 1) && t.sequenceID == 1 && t.f == FaultBound(|g.table|)
       && t.prepare == Some(Proposal(g, 1))
       && t.votes == Mixed(g, a, m) && t.totalVote == m && t.totalOK == a
  }

  lemma HearsVoters(g: Group, v: Replica, a: nat)
    requires Proper(g) && 1 <= a < Follower(g) && Counting(g, v, 1, a)
    ensures Hearing(g, v, a, a)
  {
    FirstVotesFacts(g, 1, a);
  }

  /** One more NULL vote reaches replica 0, which goes on waiting. */
  lemma HearsNull(g: Group, v: Replica, a: nat, m: nat, next: nat)
    requires Proper(g) && 1 <= a <= m && next == m + 1 < |g.table| && Hearing(g, v, a, m)
    ensures !Dropped(v, 1) && Started(v, 1) == v
    ensures Picks(VoteAnswer(v, NullOf(g, m)).0.votes, g.table[0].nodeID)
    ensures var (u, out) := VoteHandled(v, NullOf(g, m), g.table[0].nodeID); Hearing(g, u, a, next) && out == []
  {
    MixedFacts(g, a, m);
  }

  /** Another replica gets the proposal without its request. */
  lemma RefusesToo(g: Group, v: Replica, i: nat)
    requires Proper(g) && i < |g.table| && Expects(g, v, i, 1)
    ensures var (u, out) := PrepareHandled(v, Proposal(g, 1), None, None, "");
            OutVote(NullOf(g, i)) in out && ProposesTwo(g, out)
  {
    var v0 := Started(v, 1);
    assert v0.states[1] == Fresh(View(g, 1), v.me.nodeID, |g.table|, 1);
    var (s, vote) := PrepareNext(v0.states[1], Proposal(g, 1), None, None);
    GoesOn(g, v0.(states := v0.states[1 := s]), vote);
  }

  // The runs

  /** Replica 0 has the votes of the first m replicas, the others have not taken a step, and nobody else
      has heard a vote. */
  ghost predicate Quiet(g: Group, s: System, c: System, a: nat, m: nat) {
    && Reachable(s, c, OnlyLeaderHears) && Proper(g) && 1 <= a <= m < |g.table| && Orderly(g, c)
    && Proposal(g, 1) in c.net.prepares && Hearing(g, c.nodes[0], a, m)
    && forall i :: m <= i < |g.table| ==> Expects(g, c.nodes[i], i, 1)
  }

  lemma VotersVote(g: Group, s: System, a: nat) returns (c: System)
    requires Proper(g) && Initial(s, g.table, g.viewID) && 1 <= a < Follower(g)
    ensures Quiet(g, s, c, a, a)
  {
    FirstRound(g, s, OnlyLeaderHears);
    var one := Propose1(g, s, s, 1, OnlyLeaderHears);
    c := TallyTo(g, s, one, 1, 1, a, OnlyLeaderHears);
    HearsVoters(g, c.nodes[0], a);
    OthersWait(g, c, a);
  }

  lemma OthersWait(g: Group, c: System, a: nat)
    requires Proper(g) && |c.nodes| == |g.table| && a < Follower(g) && Others(g, c, 1, a)
    ensures forall i :: 1 <= a <= i < |g.table| ==> Expects(g, c.nodes[i], i, 1)
  {}

  lemma SendNull(g: Group, s: System, c: System, a: nat, m: nat) returns (d: System)
    requires Quiet(g, s, c, a, m)
    ensures Reachable(s, d, OnlyLeaderHears) && Orderly(g, d) && d.nodes == c.nodes[m := d.nodes[m]]
    ensures c.net.prepares <= d.net.prepares && NullOf(g, m) in d.net.votes
  {
    var e := DeliverPrepare(m, Proposal(g, 1), None, None, "");
    assert InRange(Proposal(g, 1).sequenceID);
    RefusesToo(g, c.nodes[m], m);
    d := Take(s, c, e, OnlyLeaderHears);
    SentOn(g, c.net, Reaction(c, e).1, NullOf(g, m));
  }

  lemma GiveNull(g: Group, s: System, c: System, a: nat, m: nat, next: nat) returns (d: System)
    requires Reachable(s, c, OnlyLeaderHears) && Proper(g) && 1 <= a <= m && next == m + 1 < |g.table| == |c.nodes|
    requires Hearing(g, c.nodes[0], a, m) && NullOf(g, m) in c.net.votes
    ensures Reachable(s, d, OnlyLeaderHears) && d.net == c.net && d.expired == c.expired
    ensures |d.nodes| == |c.nodes| && d.nodes == c.nodes[0 := d.nodes[0]] && Hearing(g, d.nodes[0], a, next)
  {
    HearsNull(g, c.nodes[0], a, m, next);
    assert NullOf(g, m).(addr := 0) == NullOf(g, m);
    d := Take(s, c, DeliverVote(0, NullOf(g, m), 0, g.table[0].nodeID), OnlyLeaderHears);
    SentNothing(c.net);
  }

  lemma NextNull(g: Group, s: System, c: System, a: nat, m: nat, next: nat) returns (d: System)
    requires Quiet(g, s, c, a, m) && next == m + 1 < |g.table|
    ensures Quiet(g, s, d, a, next)
  {
    var b := SendNull(g, s, c, a, m);
    d := GiveNull(g, s, b, a, m, next);
    StillQuiet(g, s, c, b, d, a, m, next);
  }

  lemma StillQuiet(g: Group, s: System, c: System, b: System, d: System, a: nat, m: nat, next: nat)
    requires Quiet(g, s, c, a, m) && next == m + 1 < |g.table|
    requires Orderly(g, b) && b.nodes == c.nodes[m := b.nodes[m]] && c.net.prepares <= b.net.prepares
    requires Reachable(s, d, OnlyLeaderHears) && d.net == b.net && d.expired == b.expired
    requires |d.nodes| == |b.nodes| && d.nodes == b.nodes[0 := d.nodes[0]] && Hearing(g, d.nodes[0], a, next)
    ensures Quiet(g, s, d, a, next)
  {}

  lemma {:induction false} AllNulls(g: Group, s: System, c: System, a: nat, m: nat, end: nat) returns (d: System)
    requires Quiet(g, s, c, a, m) && m <= end < |g.table|
    ensures Quiet(g, s, d, a, end)
    decreases end - m
  {
    if m == end {
      d := c;
    } else {
      var next: nat :| next == m + 1;
      var b := NextNull(g, s, c, a, m, next);
      d := AllNulls(g, s, b, a, next, end);
    }
  }

  // Nobody counts more than a

  predicate NeitherCastsNorFills(ops: seq<V.Op>) {
    forall x :: 0 <= x < |ops| ==> !ops[x].Cast? && !ops[x].Fill?
  }

  lemma {:induction false} OthersHearNothing(s: System, es: seq<Event>, i: nat, k: int)
    requires ValidRun(s, es) && Obeyed(OnlyLeaderHears, es) && (i != 0 || k != 1)
    ensures NeitherCastsNorFills(CallsIn(s, es, i, k))
  {
    if es != [] {
      var front, e := es[..|es| - 1], es[|es| - 1];
      OthersHearNothing(s, front, i, k);
      assert Obeys(OnlyLeaderHears, e);
      NothingHeardNow(Run(s, front), e, i, k);
    }
  }

  lemma NothingHeardNow(c: System, e: Event, i: nat, k: int)
    requires Enabled(c, e) && Obeys(OnlyLeaderHears, e) && (i != 0 || k != 1)
    ensures NeitherCastsNorFills(Calls(c, e, i, k))
  {}

  lemma {:induction false} CountsNothing(f: Snapshot, ops: seq<V.Op>, n: int)
    requires NeitherCastsNorFills(ops) && f.totalOK == 0
    ensures V.Run(f, ops, n).totalOK == 0
  {
    if ops != [] {
      CountsNothing(f, ops[..|ops| - 1], n);
    }
  }

  /** No state of any replica counts more than c of VOTE. */
  ghost predicate NobodyCounts(b: System, c: nat) {
    forall i: nat, k :: i < |b.nodes| && k in b.nodes[i].states ==> b.nodes[i].states[k].totalOK <= c
  }

  lemma OnlyLeaderCounts(g: Group, s: System, es: seq<Event>, a: nat, m: nat)
    requires Proper(g) && Initial(s, g.table, g.viewID) && ValidRun(s, es) && Obeyed(OnlyLeaderHears, es)
    requires |Run(s, es).nodes| == |g.table| && a <= m <= |g.table| && Hearing(g, Run(s, es).nodes[0], a, m)
    ensures NobodyCounts(Run(s, es), a)
  {
    var c := Run(s, es);
    forall i: nat, k | i < |c.nodes| && k in c.nodes[i].states ensures c.nodes[i].states[k].totalOK <= a {
      if i != 0 || k != 1 {
        StatesAreRuns(s, g.table, g.viewID, es, i, k);
        OthersHearNothing(s, es, i, k);
        CountsNothing(Origin(c.nodes[i], k), CallsIn(s, es, i, k), |c.nodes[i].table|);
      }
    }
  }

  // The timeout

  /** With n - m silent members, a of VOTE is enough for the adaptive quorum. */
  predicate Suffices(n: nat, a: nat, m: nat)
    requires n >= 1
  {
    a >= CodeQuorum(n, n - m) >= 1
  }

  lemma TimerFiresOn(g: Group, v: Replica, a: nat, m: nat)
    requires Proper(g) && 1 <= a <= m <= |g.table| && Hearing(g, v, a, m)
    ensures TimerReady(v, 1, g.table[0].nodeID)
    ensures VoteVerdict(v.states[1], |v.table|) == COMMITTED <==> Suffices(|g.table|, a, m)
    ensures var (u, out) := VoteExpired(v, 1, g.table[0].nodeID);
            && u == (if Suffices(|g.table|, a, m) then v.(exec := [Some(Proposal(g, 1))]) else v)
            && exists c :: out == [OutCollate(c)] && Reports(v, c, Suffices(|g.table|, a, m))
  {
    MixedFacts(g, a, m);
    var msgType := if Suffices(|g.table|, a, m) then COMMITTED else UNCOMMITTED;
    var c := MakeCollate(v.states[1], msgType).(nodeID := v.me.nodeID);
    assert VoteExpired(v, 1, g.table[0].nodeID).1 == [OutCollate(c)];
    assert Reports(v, c, Suffices(|g.table|, a, m));
  }

  /** The collate about number 1 with all votes of this replica. */
  predicate Reports(v: Replica, c: CollateMsg, commits: bool) {
    && c.sequenceID == 1 && c.nodeID == v.me.nodeID && 1 in v.states && c.receivedVoteMsg == v.states[1].votes
    && c.msgType == if commits then COMMITTED else UNCOMMITTED
  }

  /** The Vote timer of number 1 at replica 0. */
  function Timer(g: Group): Event
    requires Proper(g)
  {
    VoteTimer(0, 1, g.table[0].nodeID)
  }

  /** When the Vote timer fires, replica 0 has decided and goes on to execute, or it tells the others. */
  lemma TimerStep(g: Group, s: System, c: System, a: nat, m: nat) returns (d: System, answer: CollateMsg)
    requires Quiet(g, s, c, a, m)
    ensures Enabled(c, Timer(g)) && d == Step(c, Timer(g)) && Reachable(s, d, OnlyLeaderHears) && |d.nodes| == |g.table|
    ensures 1 in DecidesNow(c, Timer(g)) <==> Suffices(|g.table|, a, m)
    ensures answer in d.net.collates && Reports(c.nodes[0], answer, Suffices(|g.table|, a, m))
    ensures var v := c.nodes[0];
            d.nodes == c.nodes[0 := if Suffices(|g.table|, a, m) then v.(exec := [Some(Proposal(g, 1))]) else v]
  {
    TimerFiresOn(g, c.nodes[0], a, m);
    d := Take(s, c, Timer(g), OnlyLeaderHears);
    answer :| Reaction(c, Timer(g)).1 == [OutCollate(answer)] && Reports(c.nodes[0], answer, Suffices(|g.table|, a, m));
    SentOneCollate(c.net, answer);
  }

  /** What the Vote timer leads to. */
  ghost predicate Outcomes(g: Group, s: System, es: seq<Event>, c: System, a: nat, m: nat)
    requires Proper(g)
  {
    && Enabled(c, Timer(g)) && ValidRun(s, es + [Timer(g)])
    && (1 in DecidesNow(c, Timer(g)) <==> Suffices(|g.table|, a, m))
    && (exists answer :: answer in Run(s, es + [Timer(g)]).net.collates &&
                         Reports(c.nodes[0], answer, Suffices(|g.table|, a, m)))
    && (!Suffices(|g.table|, a, m) ==> Run(s, es + [Timer(g)]).nodes == c.nodes)
    && (Suffices(|g.table|, a, m) ==>
         && ValidRun(s, es + [Timer(g), Execute(0)]) && |Run(s, es + [Timer(g), Execute(0)]).nodes| == |g.table|
         && Run(s, es + [Timer(g), Execute(0)]).nodes[0].log == map[1 := Proposal(g, 1)])
  }

  lemma ExecutesNumberOne(g: Group, d: System, v: Replica)
    requires Proper(g) && |d.nodes| == |g.table| && Logged(g, v, 1) && d.nodes[0] == v.(exec := [Some(Proposal(g, 1))])
    ensures Enabled(d, Execute(0)) && |Step(d, Execute(0)).nodes| == |g.table|
    ensures Step(d, Execute(0)).nodes[0].log == map[1 := Proposal(g, 1)]
  {
    ExecuteNext(g, d.nodes[0], 1, Proposal(g, 1));
    StepParts(d, Execute(0));
    assert Entries(g, 0) == map[];
  }

  lemma Concludes(g: Group, s: System, es: seq<Event>, c: System, a: nat, m: nat)
    requires Quiet(g, s, c, a, m) && ValidRun(s, es) && Run(s, es) == c
    ensures Outcomes(g, s, es, c, a, m)
  {
    var d, answer := TimerStep(g, s, c, a, m);
    OneMoreEvent(s, es, Timer(g));
    if Suffices(|g.table|, a, m) {
      ThenExecutes(g, s, es, c, d);
    }
  }

  lemma ThenExecutes(g: Group, s: System, es: seq<Event>, c: System, d: System)
    requires Proper(g) && ValidRun(s, es) && Run(s, es) == c && Enabled(c, Timer(g)) && d == Step(c, Timer(g))
    requires |d.nodes| == |c.nodes| == |g.table| && Logged(g, c.nodes[0], 1)
    requires d.nodes[0] == c.nodes[0].(exec := [Some(Proposal(g, 1))])
    ensures var more := es + [Timer(g), Execute(0)];
            && ValidRun(s, more) && |Run(s, more).nodes| == |g.table|
            && Run(s, more).nodes[0].log == map[1 := Proposal(g, 1)]
  {
    ExecutesNumberOne(g, d, c.nodes[0]);
    TwoMore(s, es, Timer(g), Execute(0));
  }

  /** In every group, for every number m < n of members that vote and every number a <= 2f of these that vote
      VOTE: a run without a Prepare timeout in which these votes reach replica 0, n - m members stay silent
      and nobody ever counts more than a. When the Vote timer then fires, replica 0 decides and executes
      number 1 if and only if a is at least 2f + 1 less the silent members, and this is at least 1;
      otherwise nothing is executed, and it tells the others what it holds. */
  lemma SilentMembers(g: Group, s: System, a: nat, m: nat) returns (es: seq<Event>)
    requires Proper(g) && Initial(s, g.table, g.viewID) && 1 <= a < Follower(g) && a <= m < |g.table|
    ensures ValidRun(s, es) && Steady(es) && OneProposal(Run(s, es).net.prepares) && Run(s, es).expired == {}
    ensures var c := Run(s, es);
            && |c.nodes| == |g.table| && NobodyCounts(c, a) && 1 in c.nodes[0].states
            && |c.nodes[0].states[1].votes| == m && |OKVoters(c.nodes[0].states[1].votes)| == a
            && Outcomes(g, s, es, c, a, m)
  {
    var voted := VotersVote(g, s, a);
    var c := AllNulls(g, s, voted, a, a, m);
    es :| Leads(s, es, c, OnlyLeaderHears);
    OnlyLeaderCounts(g, s, es, a, m);
    MixedFacts(g, a, m);
    Concludes(g, s, es, c, a, m);
  }
}
