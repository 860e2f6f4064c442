/** The consensus states of the system are runs of calls on fresh states, so that what holds over all
    such runs holds of every state that a replica ever has (as long as no view change drops it). */
module StateRuns {
  import opened Messages
  import opened Quorum
  import opened VoteSpec
  import opened NodeSpec
  import opened System
  import opened Agreement
  import V = VoteRuns

  /** The calls that an event makes on the state of number k at replica i. */
  function Calls(c: System, e: Event, i: nat, k: int): seq<V.Op>
    requires Enabled(c, e)
  {
    if e.Propose? || e.i != i then []
    else
      match e
      case DeliverPrepare(_, p, req, digest, _) => if p.sequenceID == k then [V.DoPrepare(p, req, digest)] else []
      case DeliverVote(_, vote, addr, _) =>
        if vote.sequenceID == k && !Dropped(c.nodes[i], k) then [V.Cast(vote.(addr := addr))] else []
      case DeliverCollate(_, _, copy, _) =>
        if copy.sequenceID == k && !Dropped(c.nodes[i], k) && copy.msgType in {COMMITTED, UNCOMMITTED}
        then [V.Fill(copy), V.AddCollate(copy)] else []
      case PrepareTimer(_, x) => if x == k then [V.DoPrepare(NullPrepare(k), None, None)] else []
      case _ => []
  }

  /** All calls on that state in a run. */
  ghost function CallsIn(s: System, es: seq<Event>, i: nat, k: int): seq<V.Op>
    requires ValidRun(s, es)
  {
    if es == [] then []
    else CallsIn(s, es[..|es| - 1], i, k) + Calls(Run(s, es[..|es| - 1]), es[|es| - 1], i, k)
  }

  /** The state as it was created. */
  function Origin(v: Replica, k: int): Snapshot
    requires k in v.states
  {
    Fresh(v.states[k].viewID, v.me.nodeID, |v.table|, k)
  }

  /** The state of number k is what these calls make of a fresh one; there are none without a state. */
  predicate StateIs(v: Replica, k: int, ops: seq<V.Op>) {
    if k in v.states then v.states[k] == V.Run(Origin(v, k), ops, |v.table|) else ops == []
  }

  lemma {:induction false} RunJoins(s: Snapshot, a: seq<V.Op>, b: seq<V.Op>, n: int)
    ensures V.Run(s, a + b, n) == V.Run(V.Run(s, a, n), b, n)
  {
    if b == [] {
      assert a + b == a;
    } else {
      RunJoins(s, a, b[..|b| - 1], n);
      assert (a + b)[..|a + b| - 1] == a + b[..|b| - 1];
    }
  }

  lemma RunOne(s: Snapshot, op: V.Op, n: int)
    ensures V.Run(s, [op], n) == V.Next(s, op, n)
  {
    assert [op][..0] == [];
    assert V.Run(s, [], n) == s;
  }

  lemma RunTwo(s: Snapshot, a: V.Op, b: V.Op, n: int)
    ensures V.Run(s, [a, b], n) == V.Next(V.Next(s, a, n), b, n)
  {
    RunOne(s, a, n);
    assert [a, b][..1] == [a];
  }

  lemma {:induction false} RunKeepsView(s: Snapshot, ops: seq<V.Op>, n: nat)
    ensures V.Run(s, ops, n).viewID == s.viewID
  {
    if ops != [] {
      RunKeepsView(s, ops[..|ops| - 1], n);
      V.LedgerStep(V.Run(s, ops[..|ops| - 1], n), ops[|ops| - 1], n);
    }
  }

  /** What a step makes of the state of number k: the calls are applied to it, or to a fresh state when
      there was none. */
  ghost predicate Called(v: Replica, u: Replica, k: int, calls: seq<V.Op>) {
    && u.me == v.me && u.table == v.table
    && (k in v.states ==> k in u.states && u.states[k] == V.Run(v.states[k], calls, |v.table|))
    && (k !in v.states && k in u.states ==> u.states[k] == V.Run(Origin(u, k), calls, |v.table|))
    && (k !in u.states ==> calls == [])
  }

  lemma CalledNothing(v: Replica, u: Replica, k: int)
    requires u.me == v.me && u.table == v.table
    requires k in v.states ==> k in u.states && u.states[k] == v.states[k]
    requires k !in v.states && k in u.states ==> u.states[k] == Origin(u, k)
    ensures Called(v, u, k, [])
  {}

  /** Calls on the state after it was started. */
  lemma CalledAfterStart(v: Replica, u: Replica, k: int, calls: seq<V.Op>)
    requires u.me == v.me && u.table == v.table && k in u.states
    requires u.states[k] == V.Run(Started(v, k).states[k], calls, |v.table|)
    ensures Called(v, u, k, calls)
  {
    RunKeepsView(Started(v, k).states[k], calls, |v.table|);
  }

  lemma PrepareCalls(v: Replica, p: PrepareMsg, req: Option<RequestMsg>,
                     digest: Option<string>, nextDigest: string, k: int)
    requires Slot(p.sequenceID)
    ensures Called(v, PrepareHandled(v, p, req, digest, nextDigest).0, k,
                   if p.sequenceID == k then [V.DoPrepare(p, req, digest)] else [])
  {
    var u := PrepareHandled(v, p, req, digest, nextDigest).0;
    PreparedStates(v, p, req, digest, nextDigest);
    if p.sequenceID == k {
      RunOne(Started(v, k).states[k], V.DoPrepare(p, req, digest), |v.table|);
      CalledAfterStart(v, u, k, [V.DoPrepare(p, req, digest)]);
    } else {
      CalledNothing(v, u, k);
    }
  }

  /** A PREPARE changes the state of its number, and can add a fresh one for the next. */
  lemma PreparedStates(v: Replica, p: PrepareMsg, req: Option<RequestMsg>, digest: Option<string>, nextDigest: string)
    requires Slot(p.sequenceID)
    ensures var k, u := p.sequenceID, PrepareHandled(v, p, req, digest, nextDigest).0;
            && u.me == v.me && u.table == v.table
            && k in u.states && u.states[k] == PrepareNext(Started(v, k).states[k], p, req, digest).0
            && (forall x :: x in v.states && x != k ==> x in u.states && u.states[x] == v.states[x])
            && (forall x :: x in u.states && x !in v.states && x != k ==> u.states[x] == Origin(u, x))
  {
    var k := p.sequenceID;
    var (s, vote) := PrepareNext(Started(v, k).states[k], p, req, digest);
    var v1 := Started(v, k).(states := Started(v, k).states[k := s]);
    if vote.sequenceID == 0 {
      GrownFrom(v, k, s, v1);
    } else {
      AnnouncedStates(v1, p, vote, nextDigest);
      GrownFrom(v, k, s, Announced(v1, p, vote, nextDigest).0);
    }
  }

  /** No state has changed, and new states are fresh. */
  ghost predicate Grown(v: Replica, u: Replica) {
    && u.me == v.me && u.table == v.table
    && (forall x :: x in v.states ==> x in u.states && u.states[x] == v.states[x])
    && forall x :: x in u.states && x !in v.states ==> u.states[x] == Origin(u, x)
  }

  lemma GrownFrom(v: Replica, k: int, s: Snapshot, u: Replica)
    requires Grown(Started(v, k).(states := Started(v, k).states[k := s]), u)
    ensures u.me == v.me && u.table == v.table && k in u.states && u.states[k] == s
    ensures forall x :: x in v.states && x != k ==> x in u.states && u.states[x] == v.states[x]
    ensures forall x :: x in u.states && x !in v.states && x != k ==> u.states[x] == Origin(u, x)
  {}

  lemma AnnouncedStates(v: Replica, p: PrepareMsg, vote: VoteMsg, nextDigest: string)
    requires Slot(p.sequenceID)
    ensures Grown(v, Announced(v, p, vote, nextDigest).0)
  {
    AnnouncedFrame(v, p, vote, nextDigest);
    AnnouncedMe(v, p, vote, nextDigest);
  }

  lemma AnnouncedMe(v: Replica, p: PrepareMsg, vote: VoteMsg, nextDigest: string)
    requires Slot(p.sequenceID)
    ensures Announced(v, p, vote, nextDigest).0.me == v.me && Announced(v, p, vote, nextDigest).0.table == v.table
  {}

  lemma VoteCalls(v: Replica, m: VoteMsg, pick: NodeID, k: int)
    requires Slot(m.sequenceID)
    requires Dropped(v, m.sequenceID) || Picks(VoteAnswer(Started(v, m.sequenceID), m).0.votes, pick)
    ensures Called(v, VoteHandled(v, m, pick).0, k, if m.sequenceID == k && !Dropped(v, k) then [V.Cast(m)] else [])
  {
    var u := VoteHandled(v, m, pick).0;
    if !Dropped(v, m.sequenceID) {
      var v0 := Started(v, m.sequenceID);
      VoteCountedStates(v0, m, pick);
      if m.sequenceID == k {
        RunOne(v0.states[k], V.Cast(m), |v.table|);
        CalledAfterStart(v, u, k, [V.Cast(m)]);
      } else {
        CalledNothing(v, u, k);
      }
    }
  }

  lemma VoteCountedStates(v: Replica, m: VoteMsg, pick: NodeID)
    requires m.sequenceID in v.states && Picks(VoteAnswer(v, m).0.votes, pick)
    ensures var u := VoteCounted(v, m, pick).0;
            && u.states == v.states[m.sequenceID := VoteAnswer(v, m).0] && u.me == v.me && u.table == v.table
  {}

  lemma CollateCalls(v: Replica, c: CollateMsg, pick: NodeID, k: int)
    requires Slot(c.sequenceID)
    requires Dropped(v, c.sequenceID) || Slot(CollateAnswer(Started(v, c.sequenceID), c).1.collate.sequenceID)
    requires Dropped(v, c.sequenceID) ||
             Picks(CollateAnswer(Started(v, c.sequenceID), c).1.collate.receivedVoteMsg, pick)
    ensures Called(v, CollateHandled(v, c, pick), k,
                   if c.sequenceID == k && !Dropped(v, k) && c.msgType in {COMMITTED, UNCOMMITTED}
                   then [V.Fill(c), V.AddCollate(c)] else [])
  {
    var u := CollateHandled(v, c, pick);
    if !Dropped(v, c.sequenceID) {
      var v0 := Started(v, c.sequenceID);
      CollatedStates(v0, c, pick);
      if c.sequenceID == k && c.msgType in {COMMITTED, UNCOMMITTED} {
        RunTwo(v0.states[k], V.Fill(c), V.AddCollate(c), |v.table|);
        CalledAfterStart(v, u, k, [V.Fill(c), V.AddCollate(c)]);
      } else {
        CalledNothing(v, u, k);
      }
    }
  }

  lemma CollatedStates(v: Replica, c: CollateMsg, pick: NodeID)
    requires c.sequenceID in v.states
    requires Slot(CollateAnswer(v, c).1.collate.sequenceID)
    requires Picks(CollateAnswer(v, c).1.collate.receivedVoteMsg, pick)
    ensures var u := CollateCounted(v, c, pick);
            && u.states == (if c.msgType in {COMMITTED, UNCOMMITTED}
                            then v.states[c.sequenceID := CollateAnswer(v, c).0] else v.states)
            && u.me == v.me && u.table == v.table
  {}

  lemma TimeoutCalls(v: Replica, x: int, k: int)
    requires x in v.states && Slot(x)
    ensures Called(v, PrepareExpired(v, x).0, k, if x == k then [V.DoPrepare(NullPrepare(k), None, None)] else [])
  {
    if x == k {
      RunOne(v.states[k], V.DoPrepare(NullPrepare(k), None, None), |v.table|);
    } else {
      CalledNothing(v, PrepareExpired(v, x).0, k);
    }
  }

  lemma CommitCalls(v: Replica, s: Snapshot, pick: NodeID, k: int)
    requires Slot(s.sequenceID) && Picks(s.votes, pick)
    ensures Called(v, Committing(v, s, pick).0, k, [])
  {
    CalledNothing(v, Committing(v, s, pick).0, k);
  }

  lemma ArrivalCalls(v: Replica, p: PrepareMsg, k: int)
    ensures Called(v, ArrivalHandled(v, p), k, [])
  {
    DrainParts(v.(pairs := v.pairs[p.sequenceID := p]));
    CalledNothing(v, ArrivalHandled(v, p), k);
  }

  lemma ReactionCalls(c: System, e: Event, k: int)
    requires Enabled(c, e) && !e.Propose? && !e.IsViewChange()
    ensures Called(c.nodes[e.i], Reaction(c, e).0, k, Calls(c, e, e.i, k))
  {
    var v := c.nodes[e.i];
    match e
    case DeliverPrepare(_, p, req, digest, nextDigest) => PrepareCalls(v, p, req, digest, nextDigest, k);
    case DeliverVote(_, vote, addr, pick) => VoteCalls(v, vote.(addr := addr), pick, k);
    case DeliverCollate(_, _, copy, pick) => CollateCalls(v, copy, pick, k);
    case PrepareTimer(_, x) => TimeoutCalls(v, x, k);
    case VoteTimer(_, x, pick) => CommitCalls(v, v.states[x], pick, k);
    case CollateTimer(_, x, pick) => CommitCalls(v, v.states[x], pick, k);
    case Execute(_) => ArrivalCalls(v.(exec := v.exec[1..]), v.exec[0].value, k);
    case DeliverViewChange(_, n, _) => CalledNothing(v, Started(v, n), k);
  }

  lemma StateGoesOn(v: Replica, u: Replica, k: int, before: seq<V.Op>, calls: seq<V.Op>)
    requires StateIs(v, k, before) && Called(v, u, k, calls)
    ensures StateIs(u, k, before + calls)
  {
    if k in v.states {
      RunJoins(Origin(v, k), before, calls, |v.table|);
      RunKeepsView(v.states[k], calls, |v.table|);
    } else {
      assert before + calls == calls;
    }
  }

  /** Whole-run refinement: in every run without a view change, the state that a replica has for number
      k is what the calls of the run make of a fresh state. */
  lemma {:induction false} StatesAreRuns(s: System, table: seq<NodeInfo>, viewID: nat, es: seq<Event>, i: nat, k: int)
    requires Initial(s, table, viewID) && ValidRun(s, es) && Steady(es) && i < |s.nodes|
    ensures |Run(s, es).nodes| == |s.nodes|
    ensures Run(s, es).nodes[i].me == table[i] && Run(s, es).nodes[i].table == table
    ensures StateIs(Run(s, es).nodes[i], k, CallsIn(s, es, i, k))
  {
    if es == [] {
      assert s.nodes[i] == NewNode(table[i], table, viewID);
    } else {
      var front, e := es[..|es| - 1], es[|es| - 1];
      StatesAreRuns(s, table, viewID, front, i, k);
      StateStep(Run(s, front), e, i, k, CallsIn(s, front, i, k));
    }
  }

  lemma StateStep(c: System, e: Event, i: nat, k: int, before: seq<V.Op>)
    requires Enabled(c, e) && !e.IsViewChange() && i < |c.nodes| && StateIs(c.nodes[i], k, before)
    ensures |Step(c, e).nodes| == |c.nodes|
    ensures Step(c, e).nodes[i].me == c.nodes[i].me && Step(c, e).nodes[i].table == c.nodes[i].table
    ensures StateIs(Step(c, e).nodes[i], k, before + Calls(c, e, i, k))
  {
    if e.Propose? || e.i != i {
      assert before + [] == before;
      if !e.Propose? { StepParts(c, e); }
    } else {
      StepParts(c, e);
      ReactionCalls(c, e, k);
      StateGoesOn(c.nodes[i], Reaction(c, e).0, k, before, Calls(c, e, i, k));
    }
  }

  // The votes that states hold

  /** The vote was sent, and stored at some address. */
  ghost predicate SentVote(net: Net, m: VoteMsg) {
    exists addr: nat :: m.(addr := addr) in net.votes
  }

  /** Every vote cast on a state of number k was sent for k. */
  ghost predicate CastsSent(net: Net, ops: seq<V.Op>, k: int) {
    forall x :: 0 <= x < |ops| && ops[x].Cast? ==> ops[x].vote.sequenceID == k && SentVote(net, ops[x].vote)
  }

  lemma {:induction false} CallsAreSent(s: System, es: seq<Event>, i: nat, k: int)
    requires ValidRun(s, es)
    ensures CastsSent(Run(s, es).net, CallsIn(s, es, i, k), k)
  {
    if es != [] {
      var front, e := es[..|es| - 1], es[|es| - 1];
      CallsAreSent(s, front, i, k);
      CallSent(Run(s, front), e, i, k, CallsIn(s, front, i, k));
    }
  }

  lemma CallSent(c: System, e: Event, i: nat, k: int, before: seq<V.Op>)
    requires Enabled(c, e) && CastsSent(c.net, before, k)
    ensures CastsSent(Step(c, e).net, before + Calls(c, e, i, k), k)
  {
    if !e.Propose? { StepParts(c, e); }
    var ops, net := before + Calls(c, e, i, k), Step(c, e).net;
    assert c.net.votes <= net.votes;
    forall x | 0 <= x < |ops| && ops[x].Cast? ensures ops[x].vote.sequenceID == k && SentVote(net, ops[x].vote) {
      if x < |before| {
        assert SentVote(c.net, before[x].vote);
        StillSent(c.net, net, before[x].vote);
      } else {
        assert e.DeliverVote? && ops[x].vote == e.vote.(addr := e.addr);
        assert ops[x].vote.(addr := e.vote.addr) == e.vote;
      }
    }
  }

  lemma StillSent(net: Net, more: Net, m: VoteMsg)
    requires SentVote(net, m) && net.votes <= more.votes
    ensures SentVote(more, m)
  {
    var addr: nat :| m.(addr := addr) in net.votes;
    assert m.(addr := addr) in more.votes;
  }

  /** What a state stores was cast on it. */
  lemma {:induction false} StoredWasCast(s: Snapshot, ops: seq<V.Op>, n: nat, id: NodeID)
    requires s.votes == map[] && id in V.Run(s, ops, n).votes
    ensures V.Run(s, ops, n).votes[id].nodeID == id
    ensures exists x :: 0 <= x < |ops| && ops[x] == V.Cast(V.Run(s, ops, n).votes[id])
  {
    var last := |ops| - 1;
    var t := V.Run(s, ops[..last], n);
    CallStores(t, ops[last], n, id);
    if id in t.votes {
      StoredWasCast(s, ops[..last], n, id);
      var x :| 0 <= x < last && ops[..last][x] == V.Cast(t.votes[id]);
      assert ops[x] == V.Cast(t.votes[id]);
    } else {
      assert ops[last] == V.Cast(V.Run(s, ops, n).votes[id]);
    }
  }

  /** One call keeps the votes, and adds at most the one that it casts. */
  lemma CallStores(t: Snapshot, op: V.Op, n: nat, id: NodeID)
    ensures var u := V.Next(t, op, n);
            && (id in t.votes ==> id in u.votes && u.votes[id] == t.votes[id])
            && (id in u.votes && id !in t.votes ==> u.votes[id].nodeID == id && op == V.Cast(u.votes[id]))
  {}

  /** Every vote that a replica holds for number k was sent for k by the voter it is stored for. */
  lemma StoredVotesWereSent(s: System, table: seq<NodeInfo>, viewID: nat, es: seq<Event>, i: nat, k: int, id: NodeID)
    requires Initial(s, table, viewID) && ValidRun(s, es) && Steady(es) && i < |s.nodes| == |Run(s, es).nodes|
    requires k in Run(s, es).nodes[i].states && id in Run(s, es).nodes[i].states[k].votes
    ensures var m := Run(s, es).nodes[i].states[k].votes[id];
            m.nodeID == id && m.sequenceID == k && SentVote(Run(s, es).net, m)
  {
    var v, ops := Run(s, es).nodes[i], CallsIn(s, es, i, k);
    StatesAreRuns(s, table, viewID, es, i, k);
    StoredWasCast(Origin(v, k), ops, |v.table|, id);
    CallsAreSent(s, es, i, k);
  }

  /** The counters of a state, by what it holds and what the fills credited. */
  ghost predicate Accounted(t: Snapshot, f: Snapshot, ops: seq<V.Op>, n: nat) {
    && n >= 1 && V.IsFresh(f, n) && t == V.Run(f, ops, n) && t.f == FaultBound(n)
    && t.totalVote == |t.votes| && t.totalCollate == |t.collates|
    && t.totalOK == |OKVoters(t.votes)| + V.Credits(f, ops, n)
    && t.totalOK <= |t.votes| * (1 + V.Fills(ops))
  }

  lemma RunIsAccounted(f: Snapshot, ops: seq<V.Op>, n: nat)
    requires V.IsFresh(f, n)
    ensures Accounted(V.Run(f, ops, n), f, ops, n)
  {
    V.Ledger(f, ops, n);
    V.CounterBound(f, ops, n);
  }

  /** The counters of a replica's state, over all runs without a view change: votes and collates are
      counted as they are, VOTE messages with the credits of the fills. */
  lemma CountersOfStates(s: System, table: seq<NodeInfo>, viewID: nat, es: seq<Event>, i: nat, k: int)
    requires Initial(s, table, viewID) && ValidRun(s, es) && Steady(es) && i < |s.nodes| == |Run(s, es).nodes|
    requires k in Run(s, es).nodes[i].states
    ensures var v := Run(s, es).nodes[i];
            && v.me == table[i] && v.table == table
            && Accounted(v.states[k], Origin(v, k), CallsIn(s, es, i, k), |table|)
  {
    StatesAreRuns(s, table, viewID, es, i, k);
    RunIsAccounted(Origin(Run(s, es).nodes[i], k), CallsIn(s, es, i, k), |table|);
  }
}
