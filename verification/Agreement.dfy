/** Agreement over whole runs without a view change. */
module Agreement {
  import opened Messages
  import opened VoteSpec
  import opened ExecutorSpec
  import opened NodeSpec
  import opened Executor
  import opened Quorum
  import opened System

  /** What has been proposed, and for which numbers a Prepare timer has fired. */
  datatype Facts = Facts(prepares: set<PrepareMsg>, expired: set<int>)

  predicate Within(g: Facts, h: Facts) {
    g.prepares <= h.prepares && g.expired <= h.expired
  }

  function FactsOf(s: System): Facts {
    Facts(s.net.prepares, s.expired)
  }

  /** The PREPARE messages that can stand for number k: proposals, and after a timeout the empty one. */
  predicate Good(g: Facts, k: int, p: PrepareMsg) {
    InRange(k) && p.sequenceID == k && (p in g.prepares || (k in g.expired && p == NullPrepare(k)))
  }

  predicate GoodVote(g: Facts, m: VoteMsg) {
    m.prepareMsg.Some? && Good(g, m.sequenceID, m.prepareMsg.value)
  }

  predicate GoodState(g: Facts, k: int, s: Snapshot) {
    && s.sequenceID == k
    && (s.prepare.Some? ==> Good(g, k, s.prepare.value))
    && forall id :: id in s.votes ==> s.votes[id].sequenceID == k && GoodVote(g, s.votes[id])
  }

  ghost predicate GoodStates(g: Facts, v: Replica) {
    forall k :: k in v.states ==> k >= 1 && GoodState(g, k, v.states[k])
  }

  ghost predicate GoodLog(g: Facts, v: Replica) {
    && Dense(v.log)
    && forall k :: k in v.log ==> k in v.states && Good(g, k, v.log[k])
  }

  ghost predicate GoodPairs(g: Facts, v: Replica) {
    forall k :: k in v.pairs ==> k in v.states && Good(g, k, v.pairs[k])
  }

  predicate GoodNotice(g: Facts, v: Replica, p: Option<PrepareMsg>) {
    p.Some? && p.value.sequenceID in v.states && Good(g, p.value.sequenceID, p.value)
  }

  ghost predicate GoodExec(g: Facts, v: Replica) {
    forall j :: 0 <= j < |v.exec| ==> GoodNotice(g, v, v.exec[j])
  }

  ghost predicate GoodNode(g: Facts, v: Replica) {
    GoodStates(g, v) && GoodLog(g, v) && GoodPairs(g, v) && GoodExec(g, v) && v.total == |v.states|
  }

  ghost predicate GoodOut(g: Facts, out: seq<Out>) {
    forall o :: o in out && o.OutVote? ==> GoodVote(g, o.vote)
  }

  lemma GoodGrows(g: Facts, h: Facts, v: Replica)
    requires Within(g, h) && GoodNode(g, v)
    ensures GoodNode(h, v)
  {
    forall k | k in v.states ensures GoodState(h, k, v.states[k]) {
      assert GoodState(g, k, v.states[k]);
    }
    forall j | 0 <= j < |v.exec| ensures GoodNotice(h, v, v.exec[j]) {
      assert GoodNotice(g, v, v.exec[j]);
    }
  }

  /** More states: what is good stays good. */
  lemma GoodMoreStates(g: Facts, v: Replica, u: Replica, k: int, s: Snapshot)
    requires GoodNode(g, v) && k >= 1 && k !in v.states && GoodState(g, k, s)
    requires u.states == v.states[k := s] && u.total == v.total + 1
    requires u.log == v.log && u.pairs == v.pairs && u.exec == v.exec
    ensures GoodNode(g, u)
  {
    NewKey(v.states, k, s);
    forall i | i in u.states ensures i >= 1 && GoodState(g, i, u.states[i]) {
      assert i != k ==> i in v.states && u.states[i] == v.states[i];
    }
    forall j | 0 <= j < |u.exec| ensures GoodNotice(g, u, u.exec[j]) {
      assert GoodNotice(g, v, v.exec[j]);
    }
  }

  lemma GoodStart(g: Facts, v: Replica, k: int)
    requires GoodNode(g, v) && k >= 1
    ensures GoodNode(g, Started(v, k)) && k in Started(v, k).states
    ensures Started(v, k).log == v.log && Started(v, k).table == v.table && Started(v, k).me == v.me
  {
    if k !in v.states {
      GoodMoreStates(g, v, Started(v, k), k, Fresh(v.viewID, v.me.nodeID, |v.table|, k));
    }
  }

  /** Replacing a state, and sending notices to the executor. */
  function With(v: Replica, k: int, s: Snapshot, notices: seq<Option<PrepareMsg>>): Replica {
    v.(states := v.states[k := s], exec := v.exec + notices)
  }

  lemma GoodWith(g: Facts, v: Replica, k: int, s: Snapshot, notices: seq<Option<PrepareMsg>>)
    requires GoodNode(g, v) && k in v.states && GoodState(g, k, s)
    requires forall j :: 0 <= j < |notices| ==> GoodNotice(g, v, notices[j])
    ensures GoodNode(g, With(v, k, s, notices))
  {
    var u := With(v, k, s, notices);
    assert u.states.Keys == v.states.Keys;
    assert |u.states| == |u.states.Keys| && |v.states| == |v.states.Keys|;
    forall j | 0 <= j < |u.exec| ensures GoodNotice(g, u, u.exec[j]) {
      if j < |v.exec| {
        assert GoodNotice(g, v, v.exec[j]);
      } else {
        assert GoodNotice(g, v, notices[j - |v.exec|]);
      }
    }
  }

  lemma GoodNotices(g: Facts, v: Replica, k: int, s: Snapshot, votes: map<NodeID, VoteMsg>, pick: NodeID)
    requires k in v.states && GoodState(g, k, s) && (votes == s.votes || votes == map[]) && Picks(votes, pick)
    ensures forall j :: 0 <= j < |Notices(s.prepare, votes, pick)| ==>
              GoodNotice(g, v, Notices(s.prepare, votes, pick)[j])
  {}

  // Every handler keeps what is good

  lemma GoodSame(g: Facts, v: Replica, u: Replica)
    requires GoodNode(g, v)
    requires u.states == v.states && u.log == v.log && u.pairs == v.pairs && u.exec == v.exec && u.total == v.total
    ensures GoodNode(g, u)
  {
    forall j | 0 <= j < |u.exec| ensures GoodNotice(g, u, u.exec[j]) {
      assert GoodNotice(g, v, v.exec[j]);
    }
  }

  lemma GoodAnnounce(g: Facts, v: Replica, p: PrepareMsg, vote: VoteMsg, nextDigest: string)
    requires GoodNode(g, v) && InRange(p.sequenceID) && p.sequenceID in v.states
    requires p in g.prepares && GoodVote(g, vote)
    ensures var (u, out) := Announced(v, p, vote, nextDigest);
            GoodNode(g, u) && u.log == v.log && GoodOut(g, out)
  {
    var k := p.sequenceID + 1;
    var (u, out) := Announced(v, p, vote, nextDigest);
    AnnouncedFrame(v, p, vote, nextDigest);
    var w := v.(exec := u.exec);
    assert GoodNode(g, w) by {
      forall j | 0 <= j < |w.exec| ensures GoodNotice(g, w, w.exec[j]) {
        if j < |v.exec| {
          assert GoodNotice(g, v, v.exec[j]);
        }
      }
    }
    if k in v.states {
      GoodSame(g, w, u);
    } else {
      GoodMoreStates(g, w, u, k, Fresh(u.viewID, v.me.nodeID, |v.table|, k));
    }
  }

  lemma GoodPrepare(g: Facts, v: Replica, p: PrepareMsg, req: Option<RequestMsg>,
                    digest: Option<string>, nextDigest: string)
    requires GoodNode(g, v) && InRange(p.sequenceID) && p in g.prepares
    ensures var (u, out) := PrepareHandled(v, p, req, digest, nextDigest);
            GoodNode(g, u) && u.log == v.log && GoodOut(g, out)
  {
    var k := p.sequenceID;
    GoodStart(g, v, k);
    var v0 := Started(v, k);
    var (s, vote) := PrepareNext(v0.states[k], p, req, digest);
    assert GoodState(g, k, v0.states[k]);
    assert GoodState(g, k, s);
    GoodWith(g, v0, k, s, []);
    assert v0.exec + [] == v0.exec;
    if vote.sequenceID != 0 {
      GoodAnnounce(g, With(v0, k, s, []), p, vote, nextDigest);
    }
  }

  lemma GoodVoteAnswer(g: Facts, k: int, s: Snapshot, m: VoteMsg, n: int)
    requires GoodState(g, k, s) && GoodVote(g, m) && m.sequenceID == k
    ensures GoodState(g, k, VoteNext(s, Some(m), n).0)
  {}

  lemma GoodVoteHandled(g: Facts, v: Replica, m: VoteMsg, pick: NodeID)
    requires GoodNode(g, v) && InRange(m.sequenceID) && GoodVote(g, m)
    requires Dropped(v, m.sequenceID) || Picks(VoteAnswer(Started(v, m.sequenceID), m).0.votes, pick)
    ensures var (u, out) := VoteHandled(v, m, pick);
            GoodNode(g, u) && u.log == v.log && GoodOut(g, out)
  {
    var k := m.sequenceID;
    if !Dropped(v, k) {
      GoodStart(g, v, k);
      GoodVoteCounted(g, Started(v, k), m, pick);
    }
  }

  lemma GoodVoteCounted(g: Facts, v: Replica, m: VoteMsg, pick: NodeID)
    requires GoodNode(g, v) && InRange(m.sequenceID) && GoodVote(g, m) && m.sequenceID in v.states
    requires Picks(VoteAnswer(v, m).0.votes, pick)
    ensures var (u, out) := VoteCounted(v, m, pick); GoodNode(g, u) && u.log == v.log && GoodOut(g, out)
  {
    var k, s := m.sequenceID, VoteAnswer(v, m).0;
    assert GoodState(g, k, v.states[k]);
    GoodVoteAnswer(g, k, v.states[k], m, |v.table|);
    GoodNotices(g, v, k, s, s.votes, pick);
    var notices := VoteCountedIs(v, m, pick);
    GoodWith(g, v, k, s, notices);
  }

  lemma VoteCountedIs(v: Replica, m: VoteMsg, pick: NodeID) returns (notices: seq<Option<PrepareMsg>>)
    requires m.sequenceID in v.states && Picks(VoteAnswer(v, m).0.votes, pick)
    ensures var (u, out), s := VoteCounted(v, m, pick), VoteAnswer(v, m).0;
            && u == With(v, m.sequenceID, s, notices) && u.log == v.log
            && (notices == [] || notices == Notices(s.prepare, s.votes, pick)) && forall o :: o in out ==> o.OutCollate?
  {
    var (s, o) := VoteAnswer(v, m);
    notices := if o.collate.sequenceID != 0 && o.collate.msgType == COMMITTED
               then Notices(s.prepare, s.votes, pick) else [];
    assert v.exec + [] == v.exec;
  }

  lemma GoodCollateAnswer(g: Facts, k: int, s: Snapshot, c: CollateMsg)
    requires GoodState(g, k, s)
    ensures var (t, o) := CollateNext(FillNext(s, c), c);
            GoodState(g, k, t) && (o.collate.receivedVoteMsg == t.votes || o.collate.receivedVoteMsg == map[])
  {}

  lemma GoodCollateHandled(g: Facts, v: Replica, c: CollateMsg, pick: NodeID)
    requires GoodNode(g, v) && InRange(c.sequenceID)
    requires Dropped(v, c.sequenceID) || Slot(CollateAnswer(Started(v, c.sequenceID), c).1.collate.sequenceID)
    requires Dropped(v, c.sequenceID) ||
             Picks(CollateAnswer(Started(v, c.sequenceID), c).1.collate.receivedVoteMsg, pick)
    ensures GoodNode(g, CollateHandled(v, c, pick)) && CollateHandled(v, c, pick).log == v.log
  {
    var k := c.sequenceID;
    if !Dropped(v, k) {
      GoodStart(g, v, k);
      var v0 := Started(v, k);
      assert GoodState(g, k, v0.states[k]);
      GoodCollateAnswer(g, k, v0.states[k], c);
      var (s, o) := CollateAnswer(v0, c);
      var votes := o.collate.receivedVoteMsg;
      GoodNotices(g, v0, k, s, votes, pick);
      GoodWith(g, v0, k, s, []);
      GoodWith(g, v0, k, s, Notices(s.prepare, votes, pick));
      assert v0.exec + [] == v0.exec;
      var u := CollateCounted(v0, c, pick);
      assert u == v0 || u == With(v0, k, s, []) || u == With(v0, k, s, Notices(s.prepare, votes, pick));
    }
  }

  lemma GoodPrepareExpired(g: Facts, v: Replica, k: int)
    requires GoodNode(g, v) && InRange(k) && k in v.states && k in g.expired
    ensures var (u, out) := PrepareExpired(v, k);
            GoodNode(g, u) && u.log == v.log && GoodOut(g, out)
  {
    assert GoodState(g, k, v.states[k]);
    var (s, vote) := PrepareNext(v.states[k], NullPrepare(k), None, None);
    assert GoodState(g, k, s);
    GoodWith(g, v, k, s, []);
    assert v.exec + [] == v.exec;
    GoodSame(g, With(v, k, s, []), PrepareExpired(v, k).0);
  }

  lemma GoodCommitting(g: Facts, v: Replica, k: int, pick: NodeID)
    requires GoodNode(g, v) && TimerReady(v, k, pick)
    ensures var (u, out) := Committing(v, v.states[k], pick);
            GoodNode(g, u) && u.log == v.log && GoodOut(g, out)
  {
    var s := v.states[k];
    assert GoodState(g, k, s);
    GoodNotices(g, v, k, s, s.votes, pick);
    GoodWith(g, v, k, s, Notices(s.prepare, s.votes, pick));
    assert v.states[k := s] == v.states;
  }

  ghost predicate Extends(log: Log, more: Log) {
    forall k :: k in log ==> k in more && more[k] == log[k]
  }

  /** What draining does to the parts that are not about counting. */
  lemma DrainParts(v: Replica)
    ensures var w := Drain(v);
            && w.log == Drained(v.log, v.pairs) && w.pairs == Leftover(v.log, v.pairs)
            && w.states == v.states && w.exec == v.exec && w.total == v.total && w.table == v.table
  {
    if Ready(v.pairs, |v.log|) == |v.log| {
      NothingLeft(v);
    }
  }

  lemma GoodDrained(g: Facts, v: Replica)
    requires GoodLog(g, v) && GoodPairs(g, v)
    ensures var w := v.(log := Drained(v.log, v.pairs), pairs := Leftover(v.log, v.pairs));
            GoodLog(g, w) && GoodPairs(g, w) && Extends(v.log, w.log)
  {
    DrainedIsDense(v.log, v.pairs);
    DrainedFacts(v.log, v.pairs);
    var log := Drained(v.log, v.pairs);
    forall k | k in log ensures k in v.states && Good(g, k, log[k]) {
      assert k in v.log || k in v.pairs;
    }
  }

  lemma GoodArrival(g: Facts, v: Replica, p: PrepareMsg)
    requires GoodNode(g, v) && p.sequenceID in v.states && Good(g, p.sequenceID, p)
    ensures GoodNode(g, ArrivalHandled(v, p)) && Extends(v.log, ArrivalHandled(v, p).log)
  {
    var u := v.(pairs := v.pairs[p.sequenceID := p]);
    assert GoodLog(g, u) && GoodPairs(g, u);
    GoodDrained(g, u);
    DrainParts(u);
    var w := Drain(u);
    forall j | 0 <= j < |w.exec| ensures GoodNotice(g, w, w.exec[j]) {
      assert GoodNotice(g, v, v.exec[j]);
    }
  }

  /** The executor takes the oldest notice. */
  lemma GoodExecute(g: Facts, v: Replica)
    requires GoodNode(g, v) && |v.exec| > 0 && v.exec[0].Some?
    ensures var u := ArrivalHandled(v.(exec := v.exec[1..]), v.exec[0].value);
            GoodNode(g, u) && Extends(v.log, u.log)
  {
    assert GoodNotice(g, v, v.exec[0]);
    var w := v.(exec := v.exec[1..]);
    forall j | 0 <= j < |w.exec| ensures GoodNotice(g, w, w.exec[j]) {
      assert GoodNotice(g, v, v.exec[j + 1]);
    }
    GoodArrival(g, w, v.exec[0].value);
  }

  // Runs

  ghost predicate GoodSystem(s: System) {
    && (forall i :: 0 <= i < |s.nodes| ==> GoodNode(FactsOf(s), s.nodes[i]))
    && forall m :: m in s.net.votes ==> GoodVote(FactsOf(s), m)
  }

  /** The replica that takes the step: what it becomes and sends is good given what is known after the
      step, and its log only grows. */
  lemma GoodNodeStep(s: System, e: Event, h: Facts)
    requires GoodSystem(s) && Enabled(s, e) && !e.Propose? && !e.IsViewChange()
    requires Within(FactsOf(s), h) && (e.PrepareTimer? ==> e.k in h.expired)
    ensures GoodNode(h, Reaction(s, e).0) && Extends(s.nodes[e.i].log, Reaction(s, e).0.log)
    ensures forall m :: m in Sent(s.net, Reaction(s, e).1).votes && m !in s.net.votes ==> GoodVote(h, m)
  {
    GoodGrows(FactsOf(s), h, s.nodes[e.i]);
    assert e.DeliverVote? ==> GoodVote(FactsOf(s), e.vote);
    GoodReaction(h, s, e);
    GoodVotesSent(h, s.net, Reaction(s, e).1);
  }

  /** What a step of a replica is made of. */
  lemma StepParts(s: System, e: Event)
    requires Enabled(s, e) && !e.Propose?
    ensures var t, r := Step(s, e), Reaction(s, e);
            && e.i < |s.nodes| && t.nodes == s.nodes[e.i := r.0] && t.net == Sent(s.net, r.1)
            && t.expired == s.expired + (if e.PrepareTimer? then {e.k} else {})
            && Within(FactsOf(s), FactsOf(t))
  {}

  lemma GoodVotesSent(g: Facts, net: Net, out: seq<Out>)
    requires GoodOut(g, out)
    ensures forall m :: m in Sent(net, out).votes && m !in net.votes ==> GoodVote(g, m)
  {
    forall m | m in Sent(net, out).votes && m !in net.votes ensures GoodVote(g, m) {
      assert OutVote(m) in out;
    }
  }

  lemma GoodReaction(h: Facts, s: System, e: Event)
    requires Enabled(s, e) && !e.Propose? && !e.IsViewChange()
    requires GoodNode(h, s.nodes[e.i]) && s.net.prepares <= h.prepares
    requires e.DeliverVote? ==> GoodVote(h, e.vote)
    requires e.PrepareTimer? ==> e.k in h.expired
    ensures var (u, out) := Reaction(s, e);
            GoodNode(h, u) && Extends(s.nodes[e.i].log, u.log) && GoodOut(h, out)
  {
    var v := s.nodes[e.i];
    match e
    case DeliverPrepare(i, p, req, digest, nextDigest) => GoodPrepare(h, v, p, req, digest, nextDigest);
    case DeliverVote(i, vote, addr, pick) => GoodVoteHandled(h, v, vote.(addr := addr), pick);
    case DeliverCollate(i, c, copy, pick) => GoodCollateHandled(h, v, copy, pick);
    case PrepareTimer(i, k) => GoodPrepareExpired(h, v, k);
    case VoteTimer(i, k, pick) => GoodCommitting(h, v, k, pick);
    case CollateTimer(i, k, pick) => GoodCommitting(h, v, k, pick);
    case Execute(i) => GoodExecute(h, v);
    case DeliverViewChange(i, n, _) => GoodStart(h, v, n);
  }

  lemma GoodStep(s: System, e: Event)
    requires GoodSystem(s) && Enabled(s, e) && !e.IsViewChange()
    ensures GoodSystem(Step(s, e)) && |Step(s, e).nodes| == |s.nodes|
    ensures forall i :: 0 <= i < |s.nodes| ==> Extends(s.nodes[i].log, Step(s, e).nodes[i].log)
    ensures Within(FactsOf(s), FactsOf(Step(s, e)))
  {
    if e.Propose? {
      GoodChange(s, Step(s, e), -1);
    } else {
      StepParts(s, e);
      GoodNodeStep(s, e, FactsOf(Step(s, e)));
      GoodChange(s, Step(s, e), e.i);
    }
  }

  /** At most replica i has changed. */
  lemma GoodChange(s: System, t: System, i: int)
    requires GoodSystem(s) && Within(FactsOf(s), FactsOf(t)) && |t.nodes| == |s.nodes|
    requires forall j :: 0 <= j < |s.nodes| && j != i ==> t.nodes[j] == s.nodes[j]
    requires 0 <= i < |s.nodes| ==> GoodNode(FactsOf(t), t.nodes[i]) && Extends(s.nodes[i].log, t.nodes[i].log)
    requires forall m :: m in t.net.votes && m !in s.net.votes ==> GoodVote(FactsOf(t), m)
    ensures GoodSystem(t)
    ensures forall j :: 0 <= j < |s.nodes| ==> Extends(s.nodes[j].log, t.nodes[j].log)
  {
    forall j | 0 <= j < |t.nodes| && j != i ensures GoodNode(FactsOf(t), t.nodes[j]) {
      GoodGrows(FactsOf(s), FactsOf(t), s.nodes[j]);
    }
    forall m | m in t.net.votes ensures GoodVote(FactsOf(t), m) {
      assert m in s.net.votes ==> GoodVote(FactsOf(s), m);
    }
  }

  /** A run in which no view change takes place. */
  predicate Steady(es: seq<Event>) {
    forall j :: 0 <= j < |es| ==> !es[j].IsViewChange()
  }

  lemma {:induction false} GoodRun(s: System, table: seq<NodeInfo>, viewID: nat, es: seq<Event>)
    requires Initial(s, table, viewID) && ValidRun(s, es) && Steady(es)
    ensures GoodSystem(Run(s, es)) && |Run(s, es).nodes| == |s.nodes|
  {
    if es == [] {
      forall i | 0 <= i < |s.nodes| ensures GoodNode(FactsOf(s), s.nodes[i]) {
        assert s.nodes[i] == NewNode(table[i], table, viewID);
      }
    } else {
      GoodRun(s, table, viewID, es[..|es| - 1]);
      GoodStep(Run(s, es[..|es| - 1]), es[|es| - 1]);
    }
  }

  /** Executed entries stay: what a replica has logged at some moment it has logged ever after. */
  lemma {:induction false} LogsExtend(s: System, table: seq<NodeInfo>, viewID: nat, es: seq<Event>, t: nat, i: nat)
    requires Initial(s, table, viewID) && ValidRun(s, es) && Steady(es) && t <= |es| && i < |s.nodes|
    ensures ValidRun(s, es[..t]) && |Run(s, es[..t]).nodes| == |s.nodes| == |Run(s, es).nodes|
    ensures Extends(Run(s, es[..t]).nodes[i].log, Run(s, es).nodes[i].log)
  {
    GoodRun(s, table, viewID, es);
    if t == |es| {
      assert es[..t] == es;
    } else {
      var front := es[..|es| - 1];
      assert front[..t] == es[..t];
      LogsExtend(s, table, viewID, front, t, i);
      GoodRun(s, table, viewID, front);
      GoodStep(Run(s, front), es[|es| - 1]);
    }
  }

  /** At most one proposal for each sequence number. */
  ghost predicate OneProposal(prepares: set<PrepareMsg>) {
    forall p, q :: p in prepares && q in prepares && p.sequenceID == q.sequenceID ==> p == q
  }

  /** Agreement over whole runs, at any two moments. With one proposal per number and no view change,
      the entries that two replicas log for number k are equal, or a Prepare timer has fired for k
      and one of the entries is the empty proposal. */
  lemma AnyTwoAgree(s: System, table: seq<NodeInfo>, viewID: nat, es: seq<Event>,
                  t: nat, i: nat, u: nat, j: nat, k: int)
    requires Initial(s, table, viewID) && ValidRun(s, es) && Steady(es)
    requires OneProposal(Run(s, es).net.prepares)
    requires t <= |es| && u <= |es| && i < |s.nodes| && j < |s.nodes|
    ensures ValidRun(s, es[..t]) && |Run(s, es[..t]).nodes| == |s.nodes|
    ensures ValidRun(s, es[..u]) && |Run(s, es[..u]).nodes| == |s.nodes|
    ensures var a, b := Run(s, es[..t]).nodes[i].log, Run(s, es[..u]).nodes[j].log;
            k in a && k in b ==>
              a[k] == b[k] || (k in Run(s, es).expired && (a[k] == NullPrepare(k) || b[k] == NullPrepare(k)))
  {
    LogsExtend(s, table, viewID, es, t, i);
    LogsExtend(s, table, viewID, es, u, j);
    GoodRun(s, table, viewID, es);
    var final := Run(s, es);
    var a, b := Run(s, es[..t]).nodes[i].log, Run(s, es[..u]).nodes[j].log;
    if k in a && k in b {
      assert GoodNode(FactsOf(final), final.nodes[i]) && GoodNode(FactsOf(final), final.nodes[j]);
      assert Good(FactsOf(final), k, final.nodes[i].log[k]);
      assert Good(FactsOf(final), k, final.nodes[j].log[k]);
    }
  }

  /** If moreover no Prepare timer ever fires, one replica's log is a prefix of the other's. */
  lemma PrefixAgreement(s: System, table: seq<NodeInfo>, viewID: nat, es: seq<Event>,
                        t: nat, i: nat, u: nat, j: nat)
    requires Initial(s, table, viewID) && ValidRun(s, es) && Steady(es)
    requires OneProposal(Run(s, es).net.prepares) && Run(s, es).expired == {}
    requires t <= |es| && u <= |es| && i < |s.nodes| && j < |s.nodes|
    ensures ValidRun(s, es[..t]) && |Run(s, es[..t]).nodes| == |s.nodes|
    ensures ValidRun(s, es[..u]) && |Run(s, es[..u]).nodes| == |s.nodes|
    ensures var a, b := Run(s, es[..t]).nodes[i].log, Run(s, es[..u]).nodes[j].log;
            Dense(a) && Dense(b) && if |a| <= |b| then Extends(a, b) else Extends(b, a)
  {
    LogsExtend(s, table, viewID, es, t, i);
    LogsExtend(s, table, viewID, es, u, j);
    GoodRun(s, table, viewID, es[..t]);
    GoodRun(s, table, viewID, es[..u]);
    var a, b := Run(s, es[..t]).nodes[i].log, Run(s, es[..u]).nodes[j].log;
    assert GoodNode(FactsOf(Run(s, es[..t])), Run(s, es[..t]).nodes[i]);
    assert GoodNode(FactsOf(Run(s, es[..u])), Run(s, es[..u]).nodes[j]);
    forall k | k in a && k in b ensures a[k] == b[k] {
      AnyTwoAgree(s, table, viewID, es, t, i, u, j, k);
    }
  }

  /** The executor never fails in such runs: a notice is never nil, every lookup succeeds, and all that
      becomes ready has a state and a slot. The counter of started numbers covers the log. */
  lemma ExecutorNeverFails(s: System, table: seq<NodeInfo>, viewID: nat, es: seq<Event>, i: nat)
    requires Initial(s, table, viewID) && ValidRun(s, es) && Steady(es) && i < |s.nodes|
    ensures |Run(s, es).nodes| == |s.nodes|
    ensures var v := Run(s, es).nodes[i];
            && |v.log| <= v.total
            && (|v.exec| > 0 ==> v.exec[0].Some? && Fits(v, v.exec[0].value))
  {
    GoodRun(s, table, viewID, es);
    GoodNodeFits(FactsOf(Run(s, es)), Run(s, es).nodes[i]);
  }

  lemma GoodNodeFits(g: Facts, v: Replica)
    requires GoodNode(g, v)
    ensures |v.log| <= v.total
    ensures |v.exec| > 0 ==> v.exec[0].Some? && Fits(v, v.exec[0].value)
  {
    LogHasStates(g, v);
    if |v.exec| > 0 {
      assert GoodNotice(g, v, v.exec[0]);
      var p := v.exec[0].value;
      var end := Ready(v.pairs[p.sequenceID := p], |v.log|);
      forall i | |v.log| < i <= end ensures i in v.states && InRange(i) {
        assert i in v.pairs[p.sequenceID := p];
        assert i in v.pairs || i == p.sequenceID;
      }
      assert |v.log| > 0 ==> |v.log| in v.log && Good(g, |v.log|, v.log[|v.log|]);
      assert end > |v.log| ==> InRange(end);
      assert end < SLOTS;
    }
  }

  lemma LogHasStates(g: Facts, v: Replica)
    requires GoodLog(g, v)
    ensures |v.log| <= |v.states|
  {
    assert forall k: int :: k in v.log.Keys ==> k in v.log && k in v.states.Keys;
    SubsetCardinality(v.log.Keys, v.states.Keys);
    assert |v.log| == |v.log.Keys| && |v.states| == |v.states.Keys|;
  }
}
