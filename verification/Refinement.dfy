/** The replicas of the system refine the executor's specification: in every run without a view change,
    what a replica has executed is what its notices so far say. */
module Refinement {
  import opened Messages
  import opened VoteSpec
  import opened NodeSpec
  import opened Executor
  import opened System
  import opened Agreement

  /** The parts that the executor alone changes. */
  predicate SameExecuted(v: Replica, u: Replica) {
    && u.log == v.log && u.pairs == v.pairs && u.stable == v.stable && u.history == v.history
    && u.committed == v.committed && u.table == v.table
  }

  lemma PrepareKeepsExecuted(v: Replica, p: PrepareMsg, req: Option<RequestMsg>,
                             digest: Option<string>, nextDigest: string)
    requires Slot(p.sequenceID)
    ensures SameExecuted(v, PrepareHandled(v, p, req, digest, nextDigest).0)
  {
    var v0 := Started(v, p.sequenceID);
    assert SameExecuted(v, v0);
    var (s, vote) := PrepareNext(v0.states[p.sequenceID], p, req, digest);
    AnnounceKeepsExecuted(v0.(states := v0.states[p.sequenceID := s]), p, vote, nextDigest);
  }

  lemma AnnounceKeepsExecuted(v: Replica, p: PrepareMsg, vote: VoteMsg, nextDigest: string)
    requires Slot(p.sequenceID)
    ensures SameExecuted(v, Announced(v, p, vote, nextDigest).0)
  {
    var v1 := NextProposed(v, p.sequenceID + 1, nextDigest).0;
    assert SameExecuted(v, v1) && SameExecuted(v1, MarkPrepared(v1, p.sequenceID));
  }

  lemma ReactionKeepsExecuted(s: System, e: Event)
    requires Enabled(s, e) && !e.Propose? && !e.IsViewChange() && !e.Execute?
    ensures SameExecuted(s.nodes[e.i], Reaction(s, e).0)
  {
    match e
    case DeliverPrepare(i, p, req, digest, nextDigest) =>
      PrepareKeepsExecuted(s.nodes[i], p, req, digest, nextDigest);
    case DeliverVote(i, vote, addr, pick) => VoteKeepsExecuted(s.nodes[i], vote.(addr := addr), pick);
    case DeliverCollate(i, c, copy, pick) => CollateKeepsExecuted(s.nodes[i], copy, pick);
    case _ =>
  }

  lemma VoteKeepsExecuted(v: Replica, m: VoteMsg, pick: NodeID)
    requires Slot(m.sequenceID)
    requires Dropped(v, m.sequenceID) || Picks(VoteAnswer(Started(v, m.sequenceID), m).0.votes, pick)
    ensures SameExecuted(v, VoteHandled(v, m, pick).0)
  {
    if !Dropped(v, m.sequenceID) {
      StartKeepsExecuted(v, m.sequenceID);
      VoteCountedKeepsExecuted(Started(v, m.sequenceID), m, pick);
    }
  }

  lemma StartKeepsExecuted(v: Replica, k: int)
    ensures SameExecuted(v, Started(v, k))
  {}

  lemma VoteCountedKeepsExecuted(v: Replica, m: VoteMsg, pick: NodeID)
    requires m.sequenceID in v.states && Picks(VoteAnswer(v, m).0.votes, pick)
    ensures SameExecuted(v, VoteCounted(v, m, pick).0)
  {}

  lemma CollateCountedKeepsExecuted(v: Replica, c: CollateMsg, pick: NodeID)
    requires c.sequenceID in v.states
    requires Slot(CollateAnswer(v, c).1.collate.sequenceID)
    requires Picks(CollateAnswer(v, c).1.collate.receivedVoteMsg, pick)
    ensures SameExecuted(v, CollateCounted(v, c, pick))
  {}

  lemma CollateKeepsExecuted(v: Replica, c: CollateMsg, pick: NodeID)
    requires Slot(c.sequenceID)
    requires Dropped(v, c.sequenceID) || Slot(CollateAnswer(Started(v, c.sequenceID), c).1.collate.sequenceID)
    requires Dropped(v, c.sequenceID) ||
             Picks(CollateAnswer(Started(v, c.sequenceID), c).1.collate.receivedVoteMsg, pick)
    ensures SameExecuted(v, CollateHandled(v, c, pick))
  {
    if !Dropped(v, c.sequenceID) {
      StartKeepsExecuted(v, c.sequenceID);
      CollateCountedKeepsExecuted(Started(v, c.sequenceID), c, pick);
    }
  }

  lemma ExecutedStays(v: Replica, u: Replica, arrived: seq<PrepareMsg>)
    requires HasExecuted(v, arrived) && SameExecuted(v, u)
    ensures HasExecuted(u, arrived)
  {}

  /** What a replica has executed after one more event, with the notice that the event executes. */
  lemma StepRefines(s: System, e: Event, i: nat, arrived: seq<PrepareMsg>) returns (more: seq<PrepareMsg>)
    requires Enabled(s, e) && !e.IsViewChange() && i < |s.nodes| && HasExecuted(s.nodes[i], arrived)
    ensures i < |Step(s, e).nodes| && HasExecuted(Step(s, e).nodes[i], more)
    ensures more == if e.Execute? && e.i == i then arrived + [s.nodes[i].exec[0].value] else arrived
  {
    more := arrived;
    if !e.Propose? && e.i == i {
      if e.Execute? {
        var v := s.nodes[i];
        var w := v.(exec := v.exec[1..]);
        more := arrived + [v.exec[0].value];
        ExecutedStays(v, w, arrived);
        ArrivalExecutes(w, arrived, v.exec[0].value);
      } else {
        ReactionKeepsExecuted(s, e);
        ExecutedStays(s.nodes[i], Step(s, e).nodes[i], arrived);
      }
    }
  }

  /** The notices that stand for proposals, or for the empty proposal after a timeout. */
  ghost predicate GoodNotices(g: Facts, arrived: seq<PrepareMsg>) {
    forall p :: p in arrived ==> Good(g, p.sequenceID, p)
  }

  /** Whole-run refinement: at the end of every run without a view change there is a stream of good
      notices such that the replica's log, buffer, flags, checkpoint and selections are what the
      executor's specification says about that stream. */
  lemma {:induction false} RunRefines(s: System, table: seq<NodeInfo>, viewID: nat, es: seq<Event>, i: nat)
      returns (arrived: seq<PrepareMsg>)
    requires Initial(s, table, viewID) && ValidRun(s, es) && Steady(es) && i < |s.nodes|
    ensures |Run(s, es).nodes| == |s.nodes| && HasExecuted(Run(s, es).nodes[i], arrived)
    ensures GoodNotices(FactsOf(Run(s, es)), arrived)
  {
    GoodRun(s, table, viewID, es);
    if es == [] {
      arrived := [];
      assert s.nodes[i] == NewNode(table[i], table, viewID);
      NothingArrived(s.nodes[i]);
    } else {
      var front, e := es[..|es| - 1], es[|es| - 1];
      var before := RunRefines(s, table, viewID, front, i);
      arrived := StepRefines(Run(s, front), e, i, before);
      GoodRun(s, table, viewID, front);
      GoodStep(Run(s, front), e);
      if e.Execute? && e.i == i {
        OldestIsGood(FactsOf(Run(s, front)), Run(s, front).nodes[i]);
      }
      assert GoodNotices(FactsOf(Run(s, front)), arrived);
      StillGood(FactsOf(Run(s, front)), FactsOf(Run(s, es)), arrived);
    }
  }

  lemma StillGood(g: Facts, h: Facts, arrived: seq<PrepareMsg>)
    requires Within(g, h) && GoodNotices(g, arrived)
    ensures GoodNotices(h, arrived)
  {
    forall p | p in arrived ensures Good(h, p.sequenceID, p) {
      assert Good(g, p.sequenceID, p);
    }
  }

  lemma OldestIsGood(g: Facts, v: Replica)
    requires GoodNode(g, v) && |v.exec| > 0 && v.exec[0].Some?
    ensures Good(g, v.exec[0].value.sequenceID, v.exec[0].value)
  {
    assert GoodNotice(g, v, v.exec[0]);
  }

  /** In these runs a number is flagged as committed, once, exactly when it is in the log, so that the
      tests of the flags by handlers and timers ask whether the number has been executed. */
  lemma CommittedIffLogged(s: System, table: seq<NodeInfo>, viewID: nat, es: seq<Event>, i: nat, k: int)
    requires Initial(s, table, viewID) && ValidRun(s, es) && Steady(es) && i < |s.nodes| && Slot(k)
    ensures |Run(s, es).nodes| == |s.nodes|
    ensures var v := Run(s, es).nodes[i]; v.committed[k] == if k in v.log then 1 else 0
  {
    var arrived := RunRefines(s, table, viewID, es, i);
  }
}
