/** What stands behind messages and counters in every run, view changes included: each VOTE is for a
    proposal of its own view, a counter of VOTE messages never counts without a VOTE, and so nothing is
    decided without one. */
module Evidence {
  import opened Messages
  import opened VoteSpec
  import opened NodeSpec
  import opened System
  import opened Agreement
  import opened Validity

  // Votes and the views of their proposals

  /** A vote says what its voter made of the proposal that it carries: VOTE for one of the voter's view,
      REJECT for one of another, NULL for one without a request. */
  predicate Candid(m: VoteMsg) {
    && m.prepareMsg.Some? && m.prepareMsg.value.sequenceID == m.sequenceID
    && match m.msgType
       case VOTE => m.prepareMsg.value.viewID == m.viewID
       case REJECT => m.prepareMsg.value.viewID != m.viewID
       case NULLMSG => m.digest == "NULL"
       case _ => false
  }

  /** What a proposal is answered with, by a state of its number: nothing when the request does not hash,
      NULL without a request, and otherwise VOTE if and only if it is of the state's own view. */
  lemma ProposalIsJudged(s: Snapshot, p: PrepareMsg, req: Option<RequestMsg>, digest: Option<string>)
    requires s.sequenceID == p.sequenceID
    ensures var (t, vote) := PrepareNext(s, p, req, digest);
            && (req.Some? && digest.None? ==> t == s && vote.sequenceID == 0)
            && (req.None? || digest.Some? ==>
                && Candid(vote) && vote.prepareMsg == Some(p) && vote.viewID == s.viewID
                && t.prepare == Some(p) && t.sent == Some(vote) && t.digest == vote.digest && t.req == req)
            && (req.None? ==> vote.msgType == NULLMSG)
            && (req.Some? && digest.Some? ==>
                vote.digest == digest.value && (vote.msgType == VOTE <==> s.viewID == p.viewID) &&
                (vote.msgType == REJECT <==> s.viewID != p.viewID))
  {}

  lemma HandledCandidly(v: Replica, p: PrepareMsg, req: Option<RequestMsg>, digest: Option<string>,
                        nextDigest: string, m: VoteMsg)
    requires RoutedNode(v) && Slot(p.sequenceID)
    requires OutVote(m) in PrepareHandled(v, p, req, digest, nextDigest).1
    ensures Candid(m) && m.prepareMsg == Some(p)
  {
    var k := p.sequenceID;
    var v0 := Started(v, k);
    ProposalIsJudged(v0.states[k], p, req, digest);
  }

  lemma SentCandidly(c: System, e: Event, m: VoteMsg)
    requires Routed(c) && Enabled(c, e) && !e.Propose? && OutVote(m) in Reaction(c, e).1
    ensures Candid(m)
  {
    var v := c.nodes[e.i];
    assert RoutedNode(v);
    match e
    case DeliverPrepare(_, p, req, digest, nextDigest) => HandledCandidly(v, p, req, digest, nextDigest, m);
    case PrepareTimer(_, k) => ProposalIsJudged(v.states[k], NullPrepare(k), None, None);
    case _ =>
  }

  /** Over all runs, with any view changes: every vote ever sent is candid. */
  lemma {:induction false} VotesAreCandid(s: System, table: seq<NodeInfo>, viewID: nat, es: seq<Event>)
    requires Initial(s, table, viewID) && ValidRun(s, es)
    ensures forall m :: m in Run(s, es).net.votes ==> Candid(m)
  {
    if es != [] {
      var front, e := es[..|es| - 1], es[|es| - 1];
      VotesAreCandid(s, table, viewID, front);
      RoutingInvariant(s, table, viewID, front);
      var c := Run(s, front);
      forall m | m in Step(c, e).net.votes && m !in c.net.votes ensures Candid(m) {
        StepParts(c, e);
        SentCandidly(c, e, m);
      }
    }
  }

  // No count without a VOTE

  /** A VOTE for number k has been sent. */
  ghost predicate Voted(net: Net, k: int) {
    exists m :: m in net.votes && m.sequenceID == k && m.msgType == VOTE
  }

  /** The state stores a VOTE, or counts one, only after one was sent. */
  ghost predicate GenuineState(net: Net, k: int, t: Snapshot) {
    && t.sequenceID == k
    && (t.totalOK > 0 ==> Voted(net, k))
    && forall id :: id in t.votes && t.votes[id].msgType == VOTE ==> Voted(net, k)
  }

  ghost predicate GenuineNode(net: Net, v: Replica) {
    forall k :: k in v.states ==> GenuineState(net, k, v.states[k])
  }

  /** The collate carries a VOTE only after one was sent. */
  ghost predicate GenuineCollate(net: Net, c: CollateMsg) {
    forall id :: id in c.receivedVoteMsg && c.receivedVoteMsg[id].msgType == VOTE ==> Voted(net, c.sequenceID)
  }

  ghost predicate GenuineCounts(c: System) {
    && (forall i :: 0 <= i < |c.nodes| ==> GenuineNode(c.net, c.nodes[i]))
    && forall m :: m in c.net.collates ==> GenuineCollate(c.net, m)
  }

  /** A collate that carries no VOTE fills nothing. */
  lemma FillsFromVotesOnly(s: Snapshot, c: CollateMsg)
    ensures FillNext(s, c).totalOK >= s.totalOK && FillNext(s, c) == s.(totalOK := FillNext(s, c).totalOK)
    ensures FillNext(s, c) == s || exists id :: id in c.receivedVoteMsg && c.receivedVoteMsg[id].msgType == VOTE
  {
    if forall id :: id in c.receivedVoteMsg ==> c.receivedVoteMsg[id].msgType != VOTE {
      assert Credited(s.votes, c.receivedVoteMsg) == {};
    }
  }

  lemma VoteIsGenuine(net: Net, k: int, t: Snapshot, m: VoteMsg, n: int)
    requires GenuineState(net, k, t) && m.sequenceID == k && (m.msgType == VOTE ==> Voted(net, k))
    ensures GenuineState(net, k, VoteNext(t, Some(m), n).0)
  {}

  lemma FilledIsGenuine(net: Net, k: int, t: Snapshot, c: CollateMsg)
    requires GenuineState(net, k, t) && GenuineCollate(net, c) && c.sequenceID == k
    ensures GenuineState(net, k, CollateNext(FillNext(t, c), c).0)
  {
    FillsFromVotesOnly(t, c);
  }

  lemma PreparedIsGenuine(net: Net, k: int, t: Snapshot, p: PrepareMsg, req: Option<RequestMsg>, digest: Option<string>)
    requires GenuineState(net, k, t) && p.sequenceID == k
    ensures GenuineState(net, k, PrepareNext(t, p, req, digest).0)
  {}

  lemma StillVoted(net: Net, more: Net, k: int)
    requires Voted(net, k) && net.votes <= more.votes
    ensures Voted(more, k)
  {
    var m :| m in net.votes && m.sequenceID == k && m.msgType == VOTE;
    assert m in more.votes;
  }

  lemma StillGenuine(net: Net, more: Net, v: Replica)
    requires GenuineNode(net, v) && net.votes <= more.votes
    ensures GenuineNode(more, v)
  {
    forall k | k in v.states ensures GenuineState(more, k, v.states[k]) {
      assert GenuineState(net, k, v.states[k]);
      if Voted(net, k) { StillVoted(net, more, k); }
    }
  }

  lemma StillGenuineCollate(net: Net, more: Net, c: CollateMsg)
    requires GenuineCollate(net, c) && net.votes <= more.votes
    ensures GenuineCollate(more, c)
  {
    if Voted(net, c.sequenceID) { StillVoted(net, more, c.sequenceID); }
  }

  /** States may be dropped, and fresh ones added. */
  lemma FewerAreGenuine(net: Net, v: Replica, u: Replica)
    requires GenuineNode(net, v)
    requires forall k :: k in u.states ==>
               || (k in v.states && u.states[k] == v.states[k])
               || u.states[k] == Fresh(u.states[k].viewID, v.me.nodeID, |v.table|, k)
    ensures GenuineNode(net, u)
  {
    forall k | k in u.states ensures GenuineState(net, k, u.states[k]) {
      assert k in v.states ==> GenuineState(net, k, v.states[k]);
    }
  }

  lemma StartedIsGenuine(net: Net, v: Replica, k: int)
    requires GenuineNode(net, v)
    ensures GenuineNode(net, Started(v, k)) && k in Started(v, k).states
  {
    FewerAreGenuine(net, v, Started(v, k));
  }

  lemma OneChangedIsGenuine(net: Net, v: Replica, u: Replica, k: int)
    requires GenuineNode(net, v) && k in u.states && GenuineState(net, k, u.states[k])
    requires forall x :: x in u.states && x != k ==> x in v.states && u.states[x] == v.states[x]
    ensures GenuineNode(net, u)
  {
    forall x | x in u.states ensures GenuineState(net, x, u.states[x]) {
      assert x in v.states ==> GenuineState(net, x, v.states[x]);
    }
  }

  lemma PrepareIsGenuine(net: Net, v: Replica, p: PrepareMsg, req: Option<RequestMsg>, digest: Option<string>,
                        nextDigest: string)
    requires GenuineNode(net, v) && Slot(p.sequenceID)
    ensures GenuineNode(net, PrepareHandled(v, p, req, digest, nextDigest).0)
  {
    var k := p.sequenceID;
    var v0 := Started(v, k);
    StartedIsGenuine(net, v, k);
    assert GenuineState(net, k, v0.states[k]);
    var (s, vote) := PrepareNext(v0.states[k], p, req, digest);
    PreparedIsGenuine(net, k, v0.states[k], p, req, digest);
    var v1 := v0.(states := v0.states[k := s]);
    OneChangedIsGenuine(net, v0, v1, k);
    if vote.sequenceID != 0 {
      AnnouncedFrame(v1, p, vote, nextDigest);
      FewerAreGenuine(net, v1, Announced(v1, p, vote, nextDigest).0);
    }
  }

  lemma VoteHandledIsGenuine(net: Net, v: Replica, m: VoteMsg, pick: NodeID)
    requires GenuineNode(net, v) && Slot(m.sequenceID) && (m.msgType == VOTE ==> Voted(net, m.sequenceID))
    requires Dropped(v, m.sequenceID) || Picks(VoteAnswer(Started(v, m.sequenceID), m).0.votes, pick)
    ensures var (u, out) := VoteHandled(v, m, pick);
            && GenuineNode(net, u)
            && forall o :: o in out && o.OutCollate? ==> GenuineCollate(net, o.collate)
  {
    var k := m.sequenceID;
    if !Dropped(v, k) {
      var v0 := Started(v, k);
      StartedIsGenuine(net, v, k);
      assert GenuineState(net, k, v0.states[k]);
      VoteIsGenuine(net, k, v0.states[k], m, |v.table|);
      AnswerIsGenuine(net, k, v0.states[k], m, |v.table|);
      CountedIsGenuine(net, v0, m, pick);
    }
  }

  lemma CountedIsGenuine(net: Net, v: Replica, m: VoteMsg, pick: NodeID)
    requires GenuineNode(net, v) && m.sequenceID in v.states && Picks(VoteAnswer(v, m).0.votes, pick)
    requires GenuineState(net, m.sequenceID, VoteAnswer(v, m).0) && GenuineCollate(net, VoteAnswer(v, m).1.collate)
    ensures var (u, out) := VoteCounted(v, m, pick);
            GenuineNode(net, u) && forall o :: o in out && o.OutCollate? ==> GenuineCollate(net, o.collate)
  {
    var u := VoteCounted(v, m, pick).0;
    assert u.states == v.states[m.sequenceID := VoteAnswer(v, m).0];
    OneChangedIsGenuine(net, v, u, m.sequenceID);
  }

  lemma AnswerIsGenuine(net: Net, k: int, t: Snapshot, m: VoteMsg, n: int)
    requires GenuineState(net, k, VoteNext(t, Some(m), n).0)
    ensures GenuineCollate(net, VoteNext(t, Some(m), n).1.collate)
  {}

  lemma CollateHandledIsGenuine(net: Net, v: Replica, c: CollateMsg, pick: NodeID)
    requires GenuineNode(net, v) && Slot(c.sequenceID) && GenuineCollate(net, c)
    requires Dropped(v, c.sequenceID) || Slot(CollateAnswer(Started(v, c.sequenceID), c).1.collate.sequenceID)
    requires Dropped(v, c.sequenceID) ||
             Picks(CollateAnswer(Started(v, c.sequenceID), c).1.collate.receivedVoteMsg, pick)
    ensures GenuineNode(net, CollateHandled(v, c, pick))
  {
    var k := c.sequenceID;
    if !Dropped(v, k) {
      var v0 := Started(v, k);
      StartedIsGenuine(net, v, k);
      assert GenuineState(net, k, v0.states[k]);
      FilledIsGenuine(net, k, v0.states[k], c);
      CollateCountedStates(v0, c, pick);
      if CollateHandled(v, c, pick).states != v0.states {
        OneChangedIsGenuine(net, v0, CollateHandled(v, c, pick), k);
      }
    }
  }

  lemma PrepareTimeoutIsGenuine(net: Net, v: Replica, k: int)
    requires GenuineNode(net, v) && k in v.states && Slot(k)
    ensures GenuineNode(net, PrepareExpired(v, k).0)
  {
    PreparedIsGenuine(net, k, v.states[k], NullPrepare(k), None, None);
    OneChangedIsGenuine(net, v, PrepareExpired(v, k).0, k);
  }

  /** What both other timers send is a collate of a state. */
  lemma TimeoutIsGenuine(net: Net, v: Replica, k: int, msgType: MsgType)
    requires GenuineNode(net, v) && k in v.states
    ensures GenuineCollate(net, MakeCollate(v.states[k], msgType).(nodeID := v.me.nodeID))
  {
    assert GenuineState(net, k, v.states[k]);
  }

  lemma NewViewIsGenuine(net: Net, v: Replica, m: NewViewMsg)
    requires GenuineNode(net, v) && m.sequenceID >= 1
    ensures GenuineNode(net, NewViewDelivered(v, m))
  {
    StartedIsGenuine(net, v, m.sequenceID);
    FewerAreGenuine(net, Started(v, m.sequenceID), NewViewDelivered(v, m));
  }

  lemma ViewChangeIsGenuine(net: Net, v: Replica, s: int, completes: bool)
    requires GenuineNode(net, v)
    ensures GenuineNode(net, ViewChangeDelivered(v, s, completes))
  {
    StartedIsGenuine(net, v, s);
    FewerAreGenuine(net, Started(v, s), ViewChangeDelivered(v, s, completes));
  }

  lemma ArrivalIsGenuine(net: Net, v: Replica, p: PrepareMsg)
    requires GenuineNode(net, v)
    ensures GenuineNode(net, ArrivalHandled(v, p))
  {
    FewerAreGenuine(net, v, ArrivalHandled(v, p));
  }

  lemma ReactionIsGenuine(c: System, e: Event)
    requires GenuineCounts(c) && Enabled(c, e) && !e.Propose?
    ensures GenuineNode(c.net, Reaction(c, e).0)
  {
    var v, net := c.nodes[e.i], c.net;
    assert GenuineNode(net, v);
    match e
    case DeliverPrepare(_, p, req, digest, nextDigest) => PrepareIsGenuine(net, v, p, req, digest, nextDigest);
    case DeliverVote(_, vote, addr, pick) =>
      assert vote.msgType == VOTE ==> Voted(net, vote.sequenceID);
      VoteHandledIsGenuine(net, v, vote.(addr := addr), pick);
    case DeliverCollate(_, m, copy, pick) =>
      SameIsGenuine(net, m, copy);
      CollateHandledIsGenuine(net, v, copy, pick);
    case PrepareTimer(_, k) => PrepareTimeoutIsGenuine(net, v, k);
    case VoteTimer(_, k, pick) => FewerAreGenuine(net, v, VoteExpired(v, k, pick).0);
    case CollateTimer(_, k, pick) => FewerAreGenuine(net, v, CollateExpired(v, k, pick).0);
    case Execute(_) => ArrivalIsGenuine(net, v.(exec := v.exec[1..]), v.exec[0].value);
    case DeliverViewChange(_, n, completes) => ViewChangeIsGenuine(net, v, n, completes);
    case NewView(_, m) => NewViewIsGenuine(net, v, m);
  }

  lemma SameIsGenuine(net: Net, c: CollateMsg, copy: CollateMsg)
    requires GenuineCollate(net, c) && SameCollate(c, copy)
    ensures GenuineCollate(net, copy)
  {
    forall id | id in copy.receivedVoteMsg && copy.receivedVoteMsg[id].msgType == VOTE
      ensures Voted(net, copy.sequenceID)
    {
      assert SameVote(c.receivedVoteMsg[id], copy.receivedVoteMsg[id]);
    }
  }

  lemma SentIsGenuine(c: System, e: Event, m: CollateMsg)
    requires GenuineCounts(c) && Enabled(c, e) && !e.Propose? && OutCollate(m) in Reaction(c, e).1
    ensures GenuineCollate(c.net, m)
  {
    var v, net := c.nodes[e.i], c.net;
    assert GenuineNode(net, v);
    match e
    case DeliverPrepare(_, p, req, digest, nextDigest) =>
    case DeliverVote(_, vote, addr, pick) =>
      assert vote.msgType == VOTE ==> Voted(net, vote.sequenceID);
      VoteHandledIsGenuine(net, v, vote.(addr := addr), pick);
    case VoteTimer(_, k, pick) =>
      TimeoutIsGenuine(net, v, k, COMMITTED);
      TimeoutIsGenuine(net, v, k, UNCOMMITTED);
    case CollateTimer(_, k, pick) => TimeoutIsGenuine(net, v, k, COMMITTED);
    case _ =>
  }

  lemma StepIsGenuine(c: System, e: Event)
    requires GenuineCounts(c) && Enabled(c, e)
    ensures GenuineCounts(Step(c, e))
  {
    if !e.Propose? {
      StepParts(c, e);
      ReactionIsGenuine(c, e);
      var d := Step(c, e);
      forall i | 0 <= i < |d.nodes| ensures GenuineNode(d.net, d.nodes[i]) {
        StillGenuine(c.net, d.net, d.nodes[i]);
      }
      forall m | m in d.net.collates ensures GenuineCollate(d.net, m) {
        if m !in c.net.collates { SentIsGenuine(c, e, m); }
        StillGenuineCollate(c.net, d.net, m);
      }
    }
  }

  /** Over all runs, with any view changes: no VOTE is stored, counted or carried for a number for which
      none was sent. */
  lemma {:induction false} CountsAreGenuine(s: System, table: seq<NodeInfo>, viewID: nat, es: seq<Event>)
    requires Initial(s, table, viewID) && ValidRun(s, es)
    ensures GenuineCounts(Run(s, es))
  {
    if es == [] {
      forall i | 0 <= i < |s.nodes| ensures GenuineNode(s.net, s.nodes[i]) {
        assert s.nodes[i] == NewNode(table[i], table, viewID);
      }
    } else {
      CountsAreGenuine(s, table, viewID, es[..|es| - 1]);
      StepIsGenuine(Run(s, es[..|es| - 1]), es[|es| - 1]);
    }
  }

  // What decides

  /** Exactly when a vote decides: its number is open here, its sender is new, it is a VOTE for the state's own
      view and number, and 2f VOTE messages have been counted. */
  lemma VoteDecidesIff(v: Replica, m: VoteMsg)
    requires RoutedNode(v) && InRange(m.sequenceID)
    ensures var k, t := m.sequenceID, Started(v, m.sequenceID).states[m.sequenceID];
            VoteDecides(v, m) <==>
              && v.committed[k] != 1 && (k > 1 || 1 in v.states)
              && m.nodeID !in t.votes && m.msgType == VOTE && m.viewID == t.viewID && t.totalOK == 2 * t.f
  {}

  /** Exactly when an UNCOMMITTED collate decides: its number is open here, its sender is new, it is for the
      state's own view, and with what it fills 2f + 1 VOTE messages have been counted. */
  lemma CollateDecidesIff(v: Replica, c: CollateMsg)
    requires RoutedNode(v) && InRange(c.sequenceID)
    ensures var k, t := c.sequenceID, Started(v, c.sequenceID).states[c.sequenceID];
            CollateDecides(v, c) <==>
              && c.msgType == UNCOMMITTED && v.committed[k] != 1 && (k > 1 || 1 in v.states)
              && c.nodeID !in t.collates && c.viewID == t.viewID && FillNext(t, c).totalOK >= 2 * t.f + 1
  {}

  /** In every run, with any view changes: a vote that decides is a new VOTE for the decider's own view, cast
      for a proposal of that view and number. */
  lemma DecidingVote(s: System, table: seq<NodeInfo>, viewID: nat, es: seq<Event>, e: Event, k: int)
    requires Initial(s, table, viewID) && ValidRun(s, es) && Enabled(Run(s, es), e) && e.DeliverVote?
    requires k in DecidesNow(Run(s, es), e)
    ensures var t, m := Started(Run(s, es).nodes[e.i], k).states[k], e.vote;
            && m.sequenceID == k && m.msgType == VOTE && m.viewID == t.viewID && m.nodeID !in t.votes
            && m.prepareMsg.Some? && m.prepareMsg.value.viewID == t.viewID && m.prepareMsg.value.sequenceID == k
  {
    var c := Run(s, es);
    RoutingInvariant(s, table, viewID, es);
    VotesAreCandid(s, table, viewID, es);
    assert RoutedNode(c.nodes[e.i]);
    VoteDecidesIff(c.nodes[e.i], e.vote.(addr := e.addr));
  }

  // No decision without a VOTE

  /** The decider has counted a VOTE, or it decides on the one that it gets. */
  lemma DeciderCounts(c: System, e: Event, k: int)
    requires Enabled(c, e) && k in DecidesNow(c, e)
    ensures !e.Propose? && k in Reaction(c, e).0.states && Reaction(c, e).0.states[k].totalOK >= 1
  {
    match e
    case DeliverVote(i, vote, addr, pick) => VoteDecisionMeaning(c.nodes[i], vote.(addr := addr), pick);
    case DeliverCollate(i, _, copy, pick) => CollateDecisionMeaning(c.nodes[i], copy, pick);
    case _ =>
  }

  /** In every run, with any view changes: whatever decides a number, a VOTE for it has been sent. */
  lemma DecidedHasVote(s: System, table: seq<NodeInfo>, viewID: nat, es: seq<Event>, e: Event, k: int)
    requires Initial(s, table, viewID) && ValidRun(s, es) && Enabled(Run(s, es), e) && k in DecidesNow(Run(s, es), e)
    ensures Voted(Run(s, es).net, k)
  {
    var c := Run(s, es);
    CountsAreGenuine(s, table, viewID, es);
    DeciderCounts(c, e, k);
    ReactionIsGenuine(c, e);
    assert GenuineState(c.net, k, Reaction(c, e).0.states[k]);
  }

  lemma {:induction false} DecidedAreVoted(s: System, table: seq<NodeInfo>, viewID: nat, es: seq<Event>, k: int)
    requires Initial(s, table, viewID) && ValidRun(s, es) && k in DecidedIn(s, es)
    ensures Voted(Run(s, es).net, k)
  {
    var front, e := es[..|es| - 1], es[|es| - 1];
    if k in DecidedIn(s, front) {
      DecidedAreVoted(s, table, viewID, front, k);
    } else {
      DecidedHasVote(s, table, viewID, front, e, k);
    }
    var c := Run(s, front);
    if !e.Propose? { StepParts(c, e); }
    assert c.net.votes <= Step(c, e).net.votes;
    StillVoted(c.net, Step(c, e).net, k);
  }

  /** In every run without a view change: each number in the log of a replica has a VOTE that was sent for
      a proposal of the voter's own view. */
  lemma ExecutedHasVote(s: System, table: seq<NodeInfo>, viewID: nat, es: seq<Event>, i: nat, k: int)
      returns (m: VoteMsg)
    requires Initial(s, table, viewID) && ValidRun(s, es) && Steady(es) && i < |s.nodes| == |Run(s, es).nodes|
    requires k in Run(s, es).nodes[i].log
    ensures m in Run(s, es).net.votes && m.sequenceID == k && m.msgType == VOTE
    ensures m.prepareMsg.Some? && m.prepareMsg.value.sequenceID == k && m.prepareMsg.value.viewID == m.viewID
  {
    NoExecutionWithoutDecision(s, table, viewID, es, i, k);
    DecidedAreVoted(s, table, viewID, es, k);
    VotesAreCandid(s, table, viewID, es);
    m :| m in Run(s, es).net.votes && m.sequenceID == k && m.msgType == VOTE;
  }
}
