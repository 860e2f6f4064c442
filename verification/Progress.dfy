/** What a timeout achieves: a replica that holds the VOTE of all but f members decides when its Vote timer
    fires, whatever the others sent or did not send, and executes the number when its turn has come. */
module Progress {
  import opened Messages
  import opened Quorum
  import opened VoteSpec
  import opened ExecutorSpec
  import opened NodeSpec
  import opened System
  import opened Agreement
  import opened StateRuns
  import opened Members
  import opened Validity
  import opened Proposals

  lemma {:induction false} DistinctIds(table: seq<NodeInfo>)
    requires Distinct(table)
    ensures |Ids(table)| == |table|
  {
    if table != [] {
      var front, last := table[..|table| - 1], table[|table| - 1];
      DistinctIds(front);
      forall id ensures id in Ids(table) <==> id in Ids(front) + {last.nodeID} {
        if id in Ids(front) {
          var i :| 0 <= i < |front| && front[i].nodeID == id;
          assert table[i].nodeID == id;
        }
      }
      assert Ids(table) == Ids(front) + {last.nodeID};
      assert last.nodeID !in Ids(front);
    }
  }

  /** All but f members have sent their VOTE to this state. */
  ghost predicate HeardEnough(t: Snapshot, table: seq<NodeInfo>)
    requires |table| >= 1
  {
    |Ids(table) - OKVoters(t.votes)| <= FaultBound(|table|)
  }

  lemma EnoughCommits(t: Snapshot, table: seq<NodeInfo>)
    requires |table| >= 1 && Distinct(table) && HeardEnough(t, table) && t.f == FaultBound(|table|)
    requires t.votes.Keys <= Ids(table) && t.totalVote == |t.votes| && t.totalOK >= |OKVoters(t.votes)|
    ensures VoteVerdict(t, |table|) == COMMITTED && t.votes != map[]
  {
    var ids, ok := Ids(table), OKVoters(t.votes);
    DistinctIds(table);
    SubsetCardinality(ok, t.votes.Keys);
    SubsetCardinality(t.votes.Keys, ids);
    SubsetCardinality(ok, ids);
    assert |t.votes| == |t.votes.Keys|;
  }

  /** The proposal that a decision on number k executes at this replica. */
  ghost predicate Chooses(g: Facts, t: Snapshot, k: int, pick: NodeID, p: PrepareMsg) {
    && Good(g, k, p)
    && if t.prepare.Some? then t.prepare == Some(p) else pick in t.votes && t.votes[pick].prepareMsg == Some(p)
  }

  /** What the replica sends when it decides. */
  ghost predicate Announces(v: Replica, k: int, c: CollateMsg)
    requires k in v.states
  {
    && c.msgType == COMMITTED && c.sequenceID == k && c.viewID == v.states[k].viewID && c.nodeID == v.me.nodeID
    && c.receivedVoteMsg == v.states[k].votes && c.receivedPrepare == v.states[k].prepare
  }

  lemma TimerCommits(g: Facts, v: Replica, k: int, pick: NodeID) returns (p: PrepareMsg, c: CollateMsg)
    requires GoodNode(g, v) && TimerReady(v, k, pick) && v.committed[k] == 0
    requires VoteVerdict(v.states[k], |v.table|) == COMMITTED && v.states[k].votes != map[]
    ensures Chooses(g, v.states[k], k, pick, p) && Announces(v, k, c)
    ensures VoteExpired(v, k, pick) == (v.(exec := v.exec + [Some(p)]), [OutCollate(c)])
  {
    var t := v.states[k];
    assert GoodState(g, k, t);
    assert GoodVote(g, t.votes[pick]);
    p := if t.prepare.Some? then t.prepare.value else t.votes[pick].prepareMsg.value;
    c := MakeCollate(t, COMMITTED).(nodeID := v.me.nodeID);
  }

  lemma StateOfRun(s: System, table: seq<NodeInfo>, viewID: nat, es: seq<Event>, i: nat, k: int)
    requires Initial(s, table, viewID) && ValidRun(s, es) && Steady(es) && i < |s.nodes| && Distinct(table)
    requires i < |Run(s, es).nodes| && k in Run(s, es).nodes[i].states
    requires HeardEnough(Run(s, es).nodes[i].states[k], table)
    ensures Run(s, es).nodes[i].table == table && GoodNode(FactsOf(Run(s, es)), Run(s, es).nodes[i])
    ensures var t := Run(s, es).nodes[i].states[k];
            VoteVerdict(t, |table|) == COMMITTED && t.votes != map[] && t.sequenceID == k
  {
    GoodRun(s, table, viewID, es);
    CountersOfStates(s, table, viewID, es, i, k);
    StoresMembersOnly(s, table, viewID, es, i, k);
    assert GoodState(FactsOf(Run(s, es)), k, Run(s, es).nodes[i].states[k]);
    EnoughCommits(Run(s, es).nodes[i].states[k], table);
  }

  /** In every run without a view change: a replica that holds the VOTE of all but f members for a number that
      it has not committed decides it when the Vote timer fires. The PREPARE that it holds, or else that of
      one of the votes, goes to the executor, and the others are told. */
  lemma TimeoutDecides(s: System, table: seq<NodeInfo>, viewID: nat, es: seq<Event>, i: nat, k: int, pick: NodeID)
      returns (p: PrepareMsg, c: CollateMsg)
    requires Initial(s, table, viewID) && ValidRun(s, es) && Steady(es) && i < |s.nodes| && Distinct(table)
    requires i < |Run(s, es).nodes| && InRange(k) && k in Run(s, es).nodes[i].states
    requires var v := Run(s, es).nodes[i];
             v.committed[k] == 0 && HeardEnough(v.states[k], table) && pick in v.states[k].votes
    ensures var b, e := Run(s, es), VoteTimer(i, k, pick);
            && Enabled(b, e) && k in DecidesNow(b, e)
            && Chooses(FactsOf(b), b.nodes[i].states[k], k, pick, p) && Announces(b.nodes[i], k, c)
            && Step(b, e).nodes == b.nodes[i := b.nodes[i].(exec := b.nodes[i].exec + [Some(p)])]
            && c in Step(b, e).net.collates
  {
    StateOfRun(s, table, viewID, es, i, k);
    var b, e := Run(s, es), VoteTimer(i, k, pick);
    p, c := TimerCommits(FactsOf(b), b.nodes[i], k, pick);
    StepParts(b, e);
    assert OutCollate(c) in Reaction(b, e).1;
  }

  /** When the number's turn has come, the replica then executes it. */
  lemma TimeoutExecutes(s: System, table: seq<NodeInfo>, viewID: nat, es: seq<Event>, i: nat, k: int, pick: NodeID)
      returns (p: PrepareMsg)
    requires Initial(s, table, viewID) && ValidRun(s, es) && Steady(es) && i < |s.nodes| && Distinct(table)
    requires i < |Run(s, es).nodes| && InRange(k) && k in Run(s, es).nodes[i].states
    requires var v := Run(s, es).nodes[i];
             && v.committed[k] == 0 && HeardEnough(v.states[k], table) && pick in v.states[k].votes
             && v.exec == [] && k == |v.log| + 1
    ensures var more := es + [VoteTimer(i, k, pick), Execute(i)];
            && ValidRun(s, more) && i < |Run(s, more).nodes|
            && k in Run(s, more).nodes[i].log && Run(s, more).nodes[i].log[k] == p
            && Chooses(FactsOf(Run(s, es)), Run(s, es).nodes[i].states[k], k, pick, p)
  {
    var c;
    p, c := TimeoutDecides(s, table, viewID, es, i, k, pick);
    var b, e := Run(s, es), VoteTimer(i, k, pick);
    var d := Step(b, e);
    assert d.nodes[i].exec == [Some(p)];
    ExecutesIt(d, i, p, k);
    TwoMore(s, es, e, Execute(i));
  }

  lemma TwoMore(s: System, es: seq<Event>, e: Event, f: Event)
    requires ValidRun(s, es) && Enabled(Run(s, es), e) && Enabled(Step(Run(s, es), e), f)
    ensures ValidRun(s, es + [e, f]) && Run(s, es + [e, f]) == Step(Step(Run(s, es), e), f)
  {
    OneMoreEvent(s, es, e);
    OneMoreEvent(s, es + [e], f);
    assert es + [e] + [f] == es + [e, f];
  }

  lemma ExecutesIt(d: System, i: nat, p: PrepareMsg, k: int)
    requires i < |d.nodes| && d.nodes[i].exec == [Some(p)] && p.sequenceID == k == |d.nodes[i].log| + 1
    ensures Enabled(d, Execute(i)) && i < |Step(d, Execute(i)).nodes|
    ensures var log := Step(d, Execute(i)).nodes[i].log; k in log && log[k] == p
  {
    var v := d.nodes[i];
    ExecuteReaction(d, i, p);
    StepParts(d, Execute(i));
    ArrivalLogs(v.(exec := v.exec[1..]), p, k);
  }

  lemma ExecuteReaction(d: System, i: nat, p: PrepareMsg)
    requires i < |d.nodes| && d.nodes[i].exec == [Some(p)]
    ensures Enabled(d, Execute(i))
    ensures Reaction(d, Execute(i)) == (ArrivalHandled(d.nodes[i].(exec := d.nodes[i].exec[1..]), p), [])
  {}

  lemma ArrivalLogs(v: Replica, p: PrepareMsg, k: int)
    requires p.sequenceID == k == |v.log| + 1
    ensures var log := ArrivalHandled(v, p).log; k in log && log[k] == p
  {
    var w := v.(pairs := v.pairs[k := p]);
    DrainParts(w);
    assert Ready(w.pairs, |w.log|) >= k;
  }
}
