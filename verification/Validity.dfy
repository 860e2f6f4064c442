/** Nothing is executed without a decision: in every run without a view change, each number in a log
    has been decided by some replica whose VOTE counter reached the quorum. How many replicas voted for
    it is that counter less what fills credited. */
module Validity {
  import opened Messages
  import opened VoteSpec
  import opened ExecutorSpec
  import opened NodeSpec
  import opened Executor
  import opened System
  import opened Agreement
  import opened Refinement
  import opened StateRuns
  import V = VoteRuns

  /** The vote makes its receiver answer COMMITTED. */
  predicate VoteDecides(v: Replica, m: VoteMsg)
    requires Slot(m.sequenceID)
  {
    !Dropped(v, m.sequenceID) && VoteAnswer(Started(v, m.sequenceID), m).1.collate.msgType == COMMITTED
  }

  /** The UNCOMMITTED collate meets a receiver that has counted 2f + 1 VOTE messages. */
  predicate CollateDecides(v: Replica, c: CollateMsg)
    requires Slot(c.sequenceID)
  {
    && c.msgType == UNCOMMITTED && !Dropped(v, c.sequenceID)
    && CollateAnswer(Started(v, c.sequenceID), c).1.collate.msgType == COMMITTED
  }

  /** The number that a replica decides on by itself in this event. Following the COMMITTED collate of
      another replica is no decision. */
  function DecidesNow(c: System, e: Event): set<int>
    requires Enabled(c, e)
  {
    match e
    case DeliverVote(i, vote, addr, _) =>
      if VoteDecides(c.nodes[i], vote.(addr := addr)) then {vote.sequenceID} else {}
    case DeliverCollate(i, _, copy, _) => if CollateDecides(c.nodes[i], copy) then {copy.sequenceID} else {}
    case VoteTimer(i, k, _) =>
      if VoteVerdict(c.nodes[i].states[k], |c.nodes[i].table|) == COMMITTED then {k} else {}
    case CollateTimer(i, k, _) =>
      if CollateVerdict(c.nodes[i].states[k], |c.nodes[i].table|) == COMMITTED then {k} else {}
    case _ => {}
  }

  /** All numbers that some replica has decided on in the run. */
  ghost function DecidedIn(s: System, es: seq<Event>): set<int>
    requires ValidRun(s, es)
  {
    if es == [] then {}
    else DecidedIn(s, es[..|es| - 1]) + DecidesNow(Run(s, es[..|es| - 1]), es[|es| - 1])
  }

  /** How many VOTE messages the decider must count: 2f + 1, or on a timeout 2f - b + 1, where b
      members have not voted (on a Vote timeout) or not sent a collate (on a Collate timeout). */
  function Needed(e: Event, t: Snapshot, n: nat): int {
    match e
    case VoteTimer(_, _, _) => 2 * t.f - (n - |t.votes|) + 1
    case CollateTimer(_, _, _) => 2 * t.f - (n - |t.collates|) + 1
    case _ => 2 * t.f + 1
  }

  /** The decider's counter after the event reaches that, and by a vote exactly. */
  lemma DecisionCounts(c: System, e: Event, k: int, n: nat)
    requires Enabled(c, e) && k in DecidesNow(c, e) && Routed(c)
    requires !e.Propose? ==> n == |c.nodes[e.i].table|
    requires !e.Propose? && k in Reaction(c, e).0.states ==>
               var t := Reaction(c, e).0.states[k]; t.totalVote == |t.votes| && t.totalCollate == |t.collates|
    ensures !e.Propose? && k in Reaction(c, e).0.states
    ensures var t := Reaction(c, e).0.states[k];
            t.totalOK >= Needed(e, t, n) >= 1 && (e.DeliverVote? ==> t.totalOK == Needed(e, t, n))
  {
    match e
    case DeliverVote(i, vote, addr, pick) => VoteDecisionMeaning(c.nodes[i], vote.(addr := addr), pick);
    case DeliverCollate(i, _, copy, pick) => CollateDecisionMeaning(c.nodes[i], copy, pick);
    case _ =>
  }

  lemma VoteDecisionMeaning(v: Replica, m: VoteMsg, pick: NodeID)
    requires Slot(m.sequenceID) && VoteDecides(v, m)
    requires Picks(VoteAnswer(Started(v, m.sequenceID), m).0.votes, pick)
    ensures var u := VoteHandled(v, m, pick).0;
            m.sequenceID in u.states && u.states[m.sequenceID].totalOK == 2 * u.states[m.sequenceID].f + 1
  {
    var s := VoteAnswer(Started(v, m.sequenceID), m).0;
    assert VoteHandled(v, m, pick).0.states[m.sequenceID] == s;
  }

  lemma CollateDecisionMeaning(v: Replica, c: CollateMsg, pick: NodeID)
    requires Slot(c.sequenceID) && CollateDecides(v, c)
    requires Slot(CollateAnswer(Started(v, c.sequenceID), c).1.collate.sequenceID)
    requires Picks(CollateAnswer(Started(v, c.sequenceID), c).1.collate.receivedVoteMsg, pick)
    ensures var u := CollateHandled(v, c, pick);
            c.sequenceID in u.states && u.states[c.sequenceID].totalOK >= 2 * u.states[c.sequenceID].f + 1
  {
    var s := CollateAnswer(Started(v, c.sequenceID), c).0;
    assert CollateHandled(v, c, pick).states[c.sequenceID] == s;
  }

  // Everything on the way to a log is backed by a decision

  ghost predicate BackedNotices(d: set<int>, notices: seq<Option<PrepareMsg>>) {
    forall j :: 0 <= j < |notices| && notices[j].Some? ==> notices[j].value.sequenceID in d
  }

  ghost predicate Backed(d: set<int>, v: Replica) {
    && (forall k :: k in v.log || k in v.pairs ==> k in d)
    && BackedNotices(d, v.exec)
    && forall k :: 0 <= k < SLOTS && v.committed[k] == 1 ==> k in d
  }

  predicate BackedCollate(d: set<int>, c: CollateMsg) {
    c.msgType == COMMITTED ==> c.sequenceID in d
  }

  ghost predicate BackedOut(d: set<int>, out: seq<Out>) {
    forall o :: o in out && o.OutCollate? ==> BackedCollate(d, o.collate)
  }

  ghost predicate BackedSystem(d: set<int>, c: System) {
    && (forall i :: 0 <= i < |c.nodes| ==> Backed(d, c.nodes[i]))
    && forall m :: m in c.net.collates ==> BackedCollate(d, m)
  }

  lemma BackedMore(d: set<int>, v: Replica, u: Replica, notices: seq<Option<PrepareMsg>>)
    requires Backed(d, v) && SameExecuted(v, u) && u.exec == v.exec + notices && BackedNotices(d, notices)
    ensures Backed(d, u)
  {
    forall j | 0 <= j < |u.exec| && u.exec[j].Some? ensures u.exec[j].value.sequenceID in d {
      if j >= |v.exec| {
        assert u.exec[j] == notices[j - |v.exec|];
      }
    }
  }

  lemma NoticesAreBacked(d: set<int>, g: Facts, k: int, s: Snapshot, votes: map<NodeID, VoteMsg>, pick: NodeID)
    requires GoodState(g, k, s) && (votes == s.votes || votes == map[]) && Picks(votes, pick) && k in d
    ensures BackedNotices(d, Notices(s.prepare, votes, pick))
  {}

  lemma BackedPrepare(d: set<int>, v: Replica, p: PrepareMsg, req: Option<RequestMsg>, digest: Option<string>,
                      nextDigest: string)
    requires Backed(d, v) && Slot(p.sequenceID)
    ensures var (u, out) := PrepareHandled(v, p, req, digest, nextDigest); Backed(d, u) && BackedOut(d, out)
  {
    var k := p.sequenceID;
    var v0 := Started(v, k);
    var (s, vote) := PrepareNext(v0.states[k], p, req, digest);
    var v1 := v0.(states := v0.states[k := s]);
    StartKeepsExecuted(v, k);
    assert v.exec + [] == v.exec;
    BackedMore(d, v, v1, []);
    if vote.sequenceID != 0 {
      BackedAnnounce(d, v1, p, vote, nextDigest);
    }
  }

  lemma BackedAnnounce(d: set<int>, v: Replica, p: PrepareMsg, vote: VoteMsg, nextDigest: string)
    requires Backed(d, v) && Slot(p.sequenceID)
    ensures var (u, out) := Announced(v, p, vote, nextDigest); Backed(d, u) && BackedOut(d, out)
  {
    AnnouncedFrame(v, p, vote, nextDigest);
    AnnounceKeepsExecuted(v, p, vote, nextDigest);
    BackedMore(d, v, Announced(v, p, vote, nextDigest).0, if v.committed[p.sequenceID] == 1 then [Some(p)] else []);
  }

  lemma BackedVote(d: set<int>, g: Facts, v: Replica, m: VoteMsg, pick: NodeID)
    requires Backed(d, v) && GoodNode(g, v) && GoodVote(g, m) && InRange(m.sequenceID)
    requires Dropped(v, m.sequenceID) || Picks(VoteAnswer(Started(v, m.sequenceID), m).0.votes, pick)
    requires VoteDecides(v, m) ==> m.sequenceID in d
    ensures var (u, out) := VoteHandled(v, m, pick); Backed(d, u) && BackedOut(d, out)
  {
    var k := m.sequenceID;
    if !Dropped(v, k) {
      var v0 := Started(v, k);
      GoodStart(g, v, k);
      assert GoodState(g, k, v0.states[k]);
      GoodVoteAnswer(g, k, v0.states[k], m, |v.table|);
      VoteKeepsExecuted(v, m, pick);
      if k in d {
        NoticesAreBacked(d, g, k, VoteAnswer(v0, m).0, VoteAnswer(v0, m).0.votes, pick);
      }
      VoteSends(v0, m, pick);
      BackedMore(d, v, VoteHandled(v, m, pick).0, VoteNotices(v0, m, pick));
    }
  }

  /** What a vote sends to the executor. */
  function VoteNotices(v: Replica, m: VoteMsg, pick: NodeID): seq<Option<PrepareMsg>>
    requires m.sequenceID in v.states && Picks(VoteAnswer(v, m).0.votes, pick)
  {
    var (s, o) := VoteAnswer(v, m);
    if o.collate.msgType == COMMITTED then Notices(s.prepare, s.votes, pick) else []
  }

  lemma VoteSends(v: Replica, m: VoteMsg, pick: NodeID)
    requires m.sequenceID in v.states && v.states[m.sequenceID].sequenceID == m.sequenceID != 0
    requires Picks(VoteAnswer(v, m).0.votes, pick)
    ensures var (u, out) := VoteCounted(v, m, pick);
            && u.exec == v.exec + VoteNotices(v, m, pick)
            && forall o :: o in out && o.OutCollate? && o.collate.msgType == COMMITTED ==>
                 o.collate.sequenceID == m.sequenceID && VoteAnswer(v, m).1.collate.msgType == COMMITTED
  {
    assert v.exec + [] == v.exec;
  }

  lemma BackedCollateHandled(d: set<int>, g: Facts, v: Replica, c: CollateMsg, pick: NodeID)
    requires Backed(d, v) && GoodNode(g, v) && InRange(c.sequenceID) && BackedCollate(d, c)
    requires Dropped(v, c.sequenceID) || Slot(CollateAnswer(Started(v, c.sequenceID), c).1.collate.sequenceID)
    requires Dropped(v, c.sequenceID) ||
             Picks(CollateAnswer(Started(v, c.sequenceID), c).1.collate.receivedVoteMsg, pick)
    requires CollateDecides(v, c) ==> c.sequenceID in d
    ensures Backed(d, CollateHandled(v, c, pick))
  {
    var k := c.sequenceID;
    if !Dropped(v, k) {
      var v0 := Started(v, k);
      GoodStart(g, v, k);
      assert GoodState(g, k, v0.states[k]);
      GoodCollateAnswer(g, k, v0.states[k], c);
      CollateKeepsExecuted(v, c, pick);
      var (s, o) := CollateAnswer(v0, c);
      if k in d {
        NoticesAreBacked(d, g, k, s, o.collate.receivedVoteMsg, pick);
      }
      CollateExec(v0, c, pick);
      BackedMore(d, v, CollateHandled(v, c, pick), NoticesOn(v0, c, pick));
    }
  }

  /** What a collate sends to the executor. */
  function NoticesOn(v: Replica, c: CollateMsg, pick: NodeID): seq<Option<PrepareMsg>>
    requires c.sequenceID in v.states
    requires Slot(CollateAnswer(v, c).1.collate.sequenceID)
    requires Picks(CollateAnswer(v, c).1.collate.receivedVoteMsg, pick)
  {
    var (s, o) := CollateAnswer(v, c);
    var j := o.collate.sequenceID;
    if (c.msgType == COMMITTED || (c.msgType == UNCOMMITTED && o.collate.msgType == COMMITTED))
       && v.prepared[j] == 1 && v.committed[j] == 0
    then Notices(s.prepare, o.collate.receivedVoteMsg, pick) else []
  }

  lemma CollateExec(v: Replica, c: CollateMsg, pick: NodeID)
    requires c.sequenceID in v.states && v.states[c.sequenceID].sequenceID != 0
    requires Slot(CollateAnswer(v, c).1.collate.sequenceID)
    requires Picks(CollateAnswer(v, c).1.collate.receivedVoteMsg, pick)
    ensures CollateCounted(v, c, pick).exec == v.exec + NoticesOn(v, c, pick)
  {
    assert v.exec + [] == v.exec;
  }

  lemma BackedCommitting(d: set<int>, g: Facts, v: Replica, k: int, pick: NodeID)
    requires Backed(d, v) && GoodNode(g, v) && TimerReady(v, k, pick) && k in d
    ensures var (u, out) := Committing(v, v.states[k], pick); Backed(d, u) && BackedOut(d, out)
  {
    var s := v.states[k];
    assert GoodState(g, k, s);
    NoticesAreBacked(d, g, k, s, s.votes, pick);
    if v.committed[k] == 0 {
      BackedMore(d, v, Committing(v, s, pick).0, Notices(s.prepare, s.votes, pick));
    }
  }

  lemma BackedExecute(d: set<int>, g: Facts, v: Replica)
    requires Backed(d, v) && GoodNode(g, v) && |v.exec| > 0 && v.exec[0].Some?
    ensures var u := ArrivalHandled(v.(exec := v.exec[1..]), v.exec[0].value);
            (forall k :: k in u.log || k in u.pairs ==> k in d) && BackedNotices(d, u.exec)
  {
    var p := v.exec[0].value;
    assert p.sequenceID in d;
    var w := v.(exec := v.exec[1..], pairs := v.pairs[p.sequenceID := p]);
    DrainParts(w);
    DrainedFacts(w.log, w.pairs);
    forall k | k in Drained(w.log, w.pairs) ensures k in d {
      assert k in w.log || k in w.pairs;
    }
  }

  lemma BackedReaction(d: set<int>, c: System, e: Event)
    requires GoodSystem(c) && Enabled(c, e) && !e.Propose? && !e.IsViewChange() && !e.Execute?
    requires Backed(d, c.nodes[e.i]) && DecidesNow(c, e) <= d
    requires e.DeliverCollate? ==> BackedCollate(d, e.collate)
    ensures Backed(d, Reaction(c, e).0) && BackedOut(d, Reaction(c, e).1)
  {
    var g, v := FactsOf(c), c.nodes[e.i];
    assert GoodNode(g, v);
    match e
    case DeliverPrepare(_, p, req, digest, nextDigest) => BackedPrepare(d, v, p, req, digest, nextDigest);
    case DeliverVote(_, vote, addr, pick) =>
      assert GoodVote(g, vote);
      BackedVote(d, g, v, vote.(addr := addr), pick);
    case DeliverCollate(_, _, copy, pick) => BackedCollateHandled(d, g, v, copy, pick);
    case PrepareTimer(_, k) => BackedTimeout(d, v, k);
    case VoteTimer(_, k, pick) => if k in d { BackedCommitting(d, g, v, k, pick); }
    case CollateTimer(_, k, pick) => if k in d { BackedCommitting(d, g, v, k, pick); }
    case DeliverViewChange(_, n, _) =>
      StartKeepsExecuted(v, n);
      assert v.exec + [] == v.exec;
      BackedMore(d, v, Started(v, n), []);
  }

  lemma BackedTimeout(d: set<int>, v: Replica, k: int)
    requires Backed(d, v) && k in v.states && Slot(k)
    ensures Backed(d, PrepareExpired(v, k).0) && BackedOut(d, PrepareExpired(v, k).1)
  {
    assert v.exec + [] == v.exec;
    BackedMore(d, v, PrepareExpired(v, k).0, []);
  }

  lemma BackedGrows(d: set<int>, more: set<int>, c: System)
    requires BackedSystem(d, c) && d <= more
    ensures BackedSystem(more, c)
  {
    forall i | 0 <= i < |c.nodes| ensures Backed(more, c.nodes[i]) {
      assert Backed(d, c.nodes[i]);
    }
    forall m | m in c.net.collates ensures BackedCollate(more, m) {
      assert BackedCollate(d, m);
    }
  }

  /** The replica that takes the step. */
  lemma BackedNodeStep(s: System, table: seq<NodeInfo>, viewID: nat, es: seq<Event>, e: Event, d: set<int>)
    requires Initial(s, table, viewID) && ValidRun(s, es) && Steady(es)
    requires Enabled(Run(s, es), e) && !e.Propose? && !e.IsViewChange()
    requires BackedSystem(d, Run(s, es)) && DecidesNow(Run(s, es), e) <= d
    ensures Backed(d, Reaction(Run(s, es), e).0) && BackedOut(d, Reaction(Run(s, es), e).1)
  {
    var c := Run(s, es);
    GoodRun(s, table, viewID, es);
    assert Backed(d, c.nodes[e.i]) && GoodNode(FactsOf(c), c.nodes[e.i]);
    if e.Execute? {
      BackedExecute(d, FactsOf(c), c.nodes[e.i]);
      FlagsFollow(s, table, viewID, es, e);
    } else {
      assert e.DeliverCollate? ==> BackedCollate(d, e.collate);
      BackedReaction(d, c, e);
    }
  }

  /** After an execution the flags are still set for the numbers in the log only. */
  lemma FlagsFollow(s: System, table: seq<NodeInfo>, viewID: nat, es: seq<Event>, e: Event)
    requires Initial(s, table, viewID) && ValidRun(s, es) && Steady(es)
    requires Enabled(Run(s, es), e) && e.Execute?
    ensures var u := Reaction(Run(s, es), e).0;
            forall k :: 0 <= k < SLOTS && u.committed[k] == 1 ==> k in u.log
  {
    GoodRun(s, table, viewID, es);
    var arrived := RunRefines(s, table, viewID, es, e.i);
    var more := StepRefines(Run(s, es), e, e.i, arrived);
    FlagsOf(Reaction(Run(s, es), e).0, more);
  }

  lemma FlagsOf(v: Replica, arrived: seq<PrepareMsg>)
    requires HasExecuted(v, arrived)
    ensures forall k :: 0 <= k < SLOTS && v.committed[k] == 1 ==> k in v.log
  {}

  lemma BackedStep(s: System, table: seq<NodeInfo>, viewID: nat, es: seq<Event>, e: Event, d: set<int>)
    requires Initial(s, table, viewID) && ValidRun(s, es) && Steady(es)
    requires Enabled(Run(s, es), e) && !e.IsViewChange()
    requires BackedSystem(d, Run(s, es)) && DecidesNow(Run(s, es), e) <= d
    ensures BackedSystem(d, Step(Run(s, es), e))
  {
    if !e.Propose? {
      BackedNodeStep(s, table, viewID, es, e, d);
      BackedChange(d, Run(s, es), e.i, Reaction(Run(s, es), e));
    }
  }

  lemma BackedChange(d: set<int>, c: System, i: nat, r: (Replica, seq<Out>))
    requires BackedSystem(d, c) && i < |c.nodes| && Backed(d, r.0) && BackedOut(d, r.1)
    ensures BackedSystem(d, Took(c, i, r))
  {
    forall m | m in Took(c, i, r).net.collates ensures BackedCollate(d, m) {
      if m in c.net.collates {
        assert BackedCollate(d, m);
      } else {
        assert OutCollate(m) in r.1;
      }
    }
  }

  lemma {:induction false} BackedRun(s: System, table: seq<NodeInfo>, viewID: nat, es: seq<Event>)
    requires Initial(s, table, viewID) && ValidRun(s, es) && Steady(es)
    ensures BackedSystem(DecidedIn(s, es), Run(s, es))
  {
    if es == [] {
      forall i | 0 <= i < |s.nodes| ensures Backed({}, s.nodes[i]) {
        assert s.nodes[i] == NewNode(table[i], table, viewID);
      }
    } else {
      var front, e := es[..|es| - 1], es[|es| - 1];
      BackedRun(s, table, viewID, front);
      BackedGrows(DecidedIn(s, front), DecidedIn(s, es), Run(s, front));
      BackedStep(s, table, viewID, front, e, DecidedIn(s, es));
    }
  }

  /** Over whole runs without a view change: a number in the log of any replica, and a COMMITTED
      collate for a number, come after a decision on that number by some replica. */
  lemma NoExecutionWithoutDecision(s: System, table: seq<NodeInfo>, viewID: nat, es: seq<Event>, i: nat, k: int)
    requires Initial(s, table, viewID) && ValidRun(s, es) && Steady(es) && i < |s.nodes|
    ensures |Run(s, es).nodes| == |s.nodes|
    ensures k in Run(s, es).nodes[i].log ==> k in DecidedIn(s, es)
    ensures forall c :: c in Run(s, es).net.collates && c.msgType == COMMITTED ==> c.sequenceID in DecidedIn(s, es)
  {
    GoodRun(s, table, viewID, es);
    BackedRun(s, table, viewID, es);
    assert Backed(DecidedIn(s, es), Run(s, es).nodes[i]);
    forall c | c in Run(s, es).net.collates && c.msgType == COMMITTED ensures c.sequenceID in DecidedIn(s, es) {
      assert BackedCollate(DecidedIn(s, es), c);
    }
  }

  /** The moment of the decision. */
  lemma {:induction false} DecisionMoment(s: System, es: seq<Event>, k: int) returns (t: nat)
    requires ValidRun(s, es) && k in DecidedIn(s, es)
    ensures t < |es| && ValidRun(s, es[..t]) && Enabled(Run(s, es[..t]), es[t])
    ensures k in DecidesNow(Run(s, es[..t]), es[t])
  {
    var last := |es| - 1;
    if k in DecidesNow(Run(s, es[..last]), es[last]) {
      t := last;
    } else {
      t := DecisionMoment(s, es[..last], k);
      assert es[..last][..t] == es[..t];
    }
  }

  /** What stands behind a decision on k at the t-th event: the decider's VOTE counter has reached the
      quorum, and it counts the OK voters and the credits of the decider's fills; these voters have all
      sent VOTE for k; and a decision by a vote has a quorum of them exactly when nothing was credited. */
  ghost predicate Founded(s: System, table: seq<NodeInfo>, es: seq<Event>, t: nat, k: int) {
    && t < |es| && ValidRun(s, es[..t + 1]) && !es[t].Propose? && es[t].i < |Run(s, es[..t + 1]).nodes|
    && var v := Run(s, es[..t + 1]).nodes[es[t].i];
       k in v.states && FoundedState(v, k, CallsIn(s, es[..t + 1], es[t].i, k), es[t], |table|, Run(s, es[..t + 1]).net)
  }

  ghost predicate FoundedState(v: Replica, k: int, ops: seq<V.Op>, e: Event, n: nat, net: Net)
    requires k in v.states
  {
    var t, ok, credits := v.states[k], OKVoters(v.states[k].votes), V.Credits(Origin(v, k), ops, n);
    && Accounted(t, Origin(v, k), ops, n)
    && t.totalOK >= Needed(e, t, n) >= 1
    && (e.DeliverVote? ==> (|ok| >= Needed(e, t, n) <==> credits == 0))
    && forall id :: id in ok ==> VotedFor(net, id, k)
  }

  /** The replica with this identifier has sent VOTE for k. */
  ghost predicate VotedFor(net: Net, id: NodeID, k: int) {
    exists m :: m in net.votes && m.nodeID == id && m.sequenceID == k && m.msgType == VOTE
  }

  /** The meaning of the log: in every run without a view change, each number in the log of a replica
      was decided in an event of the run, on votes that were sent, as many as `Founded` says. */
  lemma ExecutedMeansQuorum(s: System, table: seq<NodeInfo>, viewID: nat, es: seq<Event>, i: nat, k: int)
      returns (t: nat)
    requires Initial(s, table, viewID) && ValidRun(s, es) && Steady(es) && i < |s.nodes| == |Run(s, es).nodes|
    requires k in Run(s, es).nodes[i].log
    ensures t < |es| && ValidRun(s, es[..t]) && Enabled(Run(s, es[..t]), es[t])
    ensures k in DecidesNow(Run(s, es[..t]), es[t]) && Founded(s, table, es, t, k)
  {
    NoExecutionWithoutDecision(s, table, viewID, es, i, k);
    t := DecisionMoment(s, es, k);
    MomentIsFounded(s, table, viewID, es, t, k);
  }

  lemma MomentIsFounded(s: System, table: seq<NodeInfo>, viewID: nat, es: seq<Event>, t: nat, k: int)
    requires Initial(s, table, viewID) && ValidRun(s, es) && Steady(es) && t < |es|
    requires ValidRun(s, es[..t]) && Enabled(Run(s, es[..t]), es[t]) && k in DecidesNow(Run(s, es[..t]), es[t])
    ensures Founded(s, table, es, t, k)
  {
    var more := UpTo(s, es, t);
    DecisionIsFounded(s, table, viewID, es[..t], es[t], more, k);
  }

  lemma DecisionIsFounded(s: System, table: seq<NodeInfo>, viewID: nat, es: seq<Event>, e: Event, more: seq<Event>,
                          k: int)
    requires Initial(s, table, viewID) && ValidRun(s, more) && Steady(more) && more == es + [e]
    requires ValidRun(s, es) && Enabled(Run(s, es), e) && Run(s, more) == Step(Run(s, es), e)
    requires k in DecidesNow(Run(s, es), e)
    ensures !e.Propose? && e.i < |Run(s, more).nodes|
    ensures var v := Run(s, more).nodes[e.i];
            k in v.states && FoundedState(v, k, CallsIn(s, more, e.i, k), e, |table|, Run(s, more).net)
  {
    RoutingInvariant(s, table, viewID, es);
    StatesAreRuns(s, table, viewID, es, e.i, k);
    StepParts(Run(s, es), e);
    DecidedHasState(Run(s, es), e, k);
    CountersOfStates(s, table, viewID, more, e.i, k);
    DecisionCounts(Run(s, es), e, k, |table|);
    var v := Run(s, more).nodes[e.i];
    forall id | id in OKVoters(v.states[k].votes) ensures VotedFor(Run(s, more).net, id, k) {
      StoredVotesWereSent(s, table, viewID, more, e.i, k, id);
      var m := v.states[k].votes[id];
      var addr: nat :| m.(addr := addr) in Run(s, more).net.votes;
    }
  }

  lemma DecidedHasState(c: System, e: Event, k: int)
    requires Enabled(c, e) && k in DecidesNow(c, e)
    ensures !e.Propose? && k in Reaction(c, e).0.states
  {
    match e
    case DeliverVote(i, vote, addr, pick) => VoteDecisionMeaning(c.nodes[i], vote.(addr := addr), pick);
    case DeliverCollate(i, _, copy, pick) => CollateDecisionMeaning(c.nodes[i], copy, pick);
    case _ =>
  }
}
