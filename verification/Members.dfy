/** Who is heard: every vote and collate that a replica stores comes from a member of the node table, so
    that it never stores more of them than there are members. */
module Members {
  import opened Messages
  import opened Quorum
  import opened VoteSpec
  import opened NodeSpec
  import opened System
  import opened Agreement
  import opened StateRuns
  import V = VoteRuns

  function Ids(table: seq<NodeInfo>): set<NodeID> {
    set i | 0 <= i < |table| :: table[i].nodeID
  }

  lemma {:induction false} FewIds(table: seq<NodeInfo>)
    ensures |Ids(table)| <= |table|
  {
    if table != [] {
      var front, last := table[..|table| - 1], table[|table| - 1];
      FewIds(front);
      forall id ensures id in Ids(table) <==> id in Ids(front) + {last.nodeID} {
        if id in Ids(front) {
          var i :| 0 <= i < |front| && front[i].nodeID == id;
          assert table[i].nodeID == id;
        }
      }
      assert Ids(table) == Ids(front) + {last.nodeID};
    }
  }

  // What is sent

  ghost predicate FromMembers(net: Net, table: seq<NodeInfo>) {
    && (forall m :: m in net.votes ==> m.nodeID in Ids(table))
    && forall c :: c in net.collates ==> c.nodeID in Ids(table)
  }

  predicate SignedBy(me: NodeInfo, o: Out) {
    (o.OutVote? ==> o.vote.nodeID == me.nodeID) && (o.OutCollate? ==> o.collate.nodeID == me.nodeID)
  }

  lemma SendsAsSelf(c: System, e: Event, o: Out)
    requires Enabled(c, e) && !e.Propose? && o in Reaction(c, e).1
    ensures SignedBy(c.nodes[e.i].me, o)
  {
    var v := c.nodes[e.i];
    match e
    case DeliverPrepare(_, p, req, digest, nextDigest) => PrepareSendsAsSelf(v, p, req, digest, nextDigest, o);
    case DeliverVote(_, vote, addr, pick) =>
    case _ =>
  }

  lemma PrepareSendsAsSelf(v: Replica, p: PrepareMsg, req: Option<RequestMsg>, digest: Option<string>,
                           nextDigest: string, o: Out)
    requires Slot(p.sequenceID) && o in PrepareHandled(v, p, req, digest, nextDigest).1
    ensures SignedBy(v.me, o)
  {}

  lemma {:induction false} SentByMembers(s: System, table: seq<NodeInfo>, viewID: nat, es: seq<Event>)
    requires Initial(s, table, viewID) && ValidRun(s, es) && Steady(es)
    ensures FromMembers(Run(s, es).net, table)
  {
    if es != [] {
      var front, e := es[..|es| - 1], es[|es| - 1];
      SentByMembers(s, table, viewID, front);
      if !e.Propose? {
        GoodRun(s, table, viewID, front);
        StatesAreRuns(s, table, viewID, front, e.i, 1);
        MembersStep(Run(s, front), e, table);
      }
    }
  }

  lemma MembersStep(c: System, e: Event, table: seq<NodeInfo>)
    requires Enabled(c, e) && !e.Propose? && FromMembers(c.net, table)
    requires e.i < |table| && c.nodes[e.i].me == table[e.i]
    ensures FromMembers(Step(c, e).net, table)
  {
    StepParts(c, e);
    var net := Step(c, e).net;
    assert table[e.i].nodeID in Ids(table);
    forall m | m in net.votes ensures m.nodeID in Ids(table) {
      if m !in c.net.votes {
        SendsAsSelf(c, e, OutVote(m));
      }
    }
    forall m | m in net.collates ensures m.nodeID in Ids(table) {
      if m !in c.net.collates {
        SendsAsSelf(c, e, OutCollate(m));
      }
    }
  }

  // What is stored

  /** Every collate added to a state comes from a member. */
  ghost predicate AddedByMembers(table: seq<NodeInfo>, ops: seq<V.Op>) {
    forall x :: 0 <= x < |ops| && ops[x].AddCollate? ==> ops[x].collate.nodeID in Ids(table)
  }

  lemma {:induction false} CallsByMembers(s: System, table: seq<NodeInfo>, viewID: nat, es: seq<Event>, i: nat, k: int)
    requires Initial(s, table, viewID) && ValidRun(s, es) && Steady(es)
    ensures AddedByMembers(table, CallsIn(s, es, i, k))
  {
    if es != [] {
      var front, e := es[..|es| - 1], es[|es| - 1];
      CallsByMembers(s, table, viewID, front, i, k);
      SentByMembers(s, table, viewID, front);
      CallByMember(Run(s, front), e, table, i, k);
    }
  }

  lemma CallByMember(c: System, e: Event, table: seq<NodeInfo>, i: nat, k: int)
    requires Enabled(c, e) && FromMembers(c.net, table)
    ensures AddedByMembers(table, Calls(c, e, i, k))
  {}

  lemma {:induction false} StoredFromMembers(s: Snapshot, ops: seq<V.Op>, n: nat, table: seq<NodeInfo>)
    requires s.collates == map[] && AddedByMembers(table, ops)
    ensures V.Run(s, ops, n).collates.Keys <= Ids(table)
  {
    if ops != [] {
      var last := |ops| - 1;
      StoredFromMembers(s, ops[..last], n, table);
      CallAddsCollate(V.Run(s, ops[..last], n), ops[last], n);
      assert ops[last].AddCollate? ==> ops[last].collate.nodeID in Ids(table);
    }
  }

  lemma CallAddsCollate(t: Snapshot, op: V.Op, n: nat)
    ensures V.Next(t, op, n).collates.Keys <= t.collates.Keys + if op.AddCollate? then {op.collate.nodeID} else {}
  {}

  lemma VotesFromMembers(s: System, table: seq<NodeInfo>, viewID: nat, es: seq<Event>, i: nat, k: int)
    requires Initial(s, table, viewID) && ValidRun(s, es) && Steady(es) && i < |s.nodes| == |Run(s, es).nodes|
    requires k in Run(s, es).nodes[i].states
    ensures Run(s, es).nodes[i].states[k].votes.Keys <= Ids(table)
  {
    var c := Run(s, es);
    var votes := c.nodes[i].states[k].votes;
    SentByMembers(s, table, viewID, es);
    forall id | id in votes ensures id in Ids(table) {
      StoredVotesWereSent(s, table, viewID, es, i, k, id);
      var addr: nat :| votes[id].(addr := addr) in c.net.votes;
    }
  }

  lemma CollatesFromMembers(s: System, table: seq<NodeInfo>, viewID: nat, es: seq<Event>, i: nat, k: int)
    requires Initial(s, table, viewID) && ValidRun(s, es) && Steady(es) && i < |s.nodes| == |Run(s, es).nodes|
    requires k in Run(s, es).nodes[i].states
    ensures Run(s, es).nodes[i].states[k].collates.Keys <= Ids(table)
  {
    var v, ops := Run(s, es).nodes[i], CallsIn(s, es, i, k);
    StatesAreRuns(s, table, viewID, es, i, k);
    CallsByMembers(s, table, viewID, es, i, k);
    StoredFromMembers(Origin(v, k), ops, |v.table|, table);
  }

  /** In every run without a view change a replica stores the votes and collates of members only, and no
      more of either than there are members: what timeouts count as silent is never negative. */
  lemma StoresMembersOnly(s: System, table: seq<NodeInfo>, viewID: nat, es: seq<Event>, i: nat, k: int)
    requires Initial(s, table, viewID) && ValidRun(s, es) && Steady(es) && i < |s.nodes| == |Run(s, es).nodes|
    requires k in Run(s, es).nodes[i].states
    ensures var t := Run(s, es).nodes[i].states[k];
            && t.votes.Keys <= Ids(table) && |t.votes| <= |table|
            && t.collates.Keys <= Ids(table) && |t.collates| <= |table|
  {
    var t := Run(s, es).nodes[i].states[k];
    VotesFromMembers(s, table, viewID, es, i, k);
    CollatesFromMembers(s, table, viewID, es, i, k);
    FewKeys(t.votes, table);
    FewKeys(t.collates, table);
  }

  lemma FewKeys<T>(m: map<NodeID, T>, table: seq<NodeInfo>)
    requires m.Keys <= Ids(table)
    ensures |m| <= |table|
  {
    SubsetCardinality(m.Keys, Ids(table));
    FewIds(table);
    assert |m| == |m.Keys|;
  }
}
