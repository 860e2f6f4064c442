/** The replicated system: replicas, a network that may delay, repeat, reorder and lose messages, and
    timers that may fire at any time. A faulty replica is one that takes no more steps. */
module System {
  import opened Messages
  import opened VoteSpec
  import opened NodeSpec

  /** All messages ever sent. */
  datatype Net = Net(prepares: set<PrepareMsg>, votes: set<VoteMsg>, collates: set<CollateMsg>)

  /** `expired` records the numbers for which a Prepare timer has fired at some replica. */
  datatype System = System(nodes: seq<Replica>, net: Net, expired: set<int>)

  /** `pick` is the vote that iterating over a state's votes yields first, `addr` and `copy` where a
      received message is stored in memory. */
  datatype Event =
    | Propose(p: PrepareMsg)
    | DeliverPrepare(i: nat, p: PrepareMsg, req: Option<RequestMsg>, digest: Option<string>, nextDigest: string)
    | DeliverVote(i: nat, vote: VoteMsg, addr: nat, pick: NodeID)
    | DeliverCollate(i: nat, collate: CollateMsg, copy: CollateMsg, pick: NodeID)
    | PrepareTimer(i: nat, k: int)
    | VoteTimer(i: nat, k: int, pick: NodeID)
    | CollateTimer(i: nat, k: int, pick: NodeID)
    | Execute(i: nat)
    | DeliverViewChange(i: nat, s: int, completes: bool)
    | NewView(i: nat, m: NewViewMsg)
  {
    /** A certificate is complete, or a NEW-VIEW message arrives. */
    predicate IsViewChange() {
      (DeliverViewChange? && completes) || NewView?
    }
  }

  /** The same vote stored at another address. */
  predicate SameVote(a: VoteMsg, b: VoteMsg) {
    a.(addr := 0) == b.(addr := 0)
  }

  predicate SameCollate(c: CollateMsg, d: CollateMsg) {
    && d == c.(receivedVoteMsg := d.receivedVoteMsg)
    && c.receivedVoteMsg.Keys == d.receivedVoteMsg.Keys
    && forall id :: id in c.receivedVoteMsg ==> SameVote(c.receivedVoteMsg[id], d.receivedVoteMsg[id])
  }

  /** Sequence numbers start at 1 and must fit the arrays. */
  predicate InRange(k: int) {
    1 <= k < SLOTS
  }

  function Sent(net: Net, out: seq<Out>): Net {
    Net(net.prepares + (set o | o in out && o.OutPrepare? :: o.prepare),
        net.votes + (set o | o in out && o.OutVote? :: o.vote),
        net.collates + (set o | o in out && o.OutCollate? :: o.collate))
  }

  predicate Enabled(s: System, e: Event) {
    match e
    case Propose(p) => InRange(p.sequenceID)
    case DeliverPrepare(i, p, _, _, _) => i < |s.nodes| && p in s.net.prepares && InRange(p.sequenceID)
    case DeliverVote(i, vote, addr, pick) =>
      && i < |s.nodes| && vote in s.net.votes && InRange(vote.sequenceID)
      && (Dropped(s.nodes[i], vote.sequenceID) ||
          Picks(VoteAnswer(Started(s.nodes[i], vote.sequenceID), vote.(addr := addr)).0.votes, pick))
    case DeliverCollate(i, c, copy, pick) =>
      && i < |s.nodes| && c in s.net.collates && SameCollate(c, copy) && InRange(copy.sequenceID)
      && (Dropped(s.nodes[i], copy.sequenceID) ||
          var o := CollateAnswer(Started(s.nodes[i], copy.sequenceID), copy).1;
          Slot(o.collate.sequenceID) && Picks(o.collate.receivedVoteMsg, pick))
    case PrepareTimer(i, k) => i < |s.nodes| && k in s.nodes[i].states && InRange(k)
    case VoteTimer(i, k, pick) => i < |s.nodes| && TimerReady(s.nodes[i], k, pick)
    case CollateTimer(i, k, pick) => i < |s.nodes| && TimerReady(s.nodes[i], k, pick)
    case Execute(i) => i < |s.nodes| && |s.nodes[i].exec| > 0 && s.nodes[i].exec[0].Some?
    case DeliverViewChange(i, n, _) => i < |s.nodes| && n >= 1
    case NewView(i, m) => i < |s.nodes| && m.sequenceID >= 1
  }

  predicate TimerReady(v: Replica, k: int, pick: NodeID) {
    k in v.states && Slot(v.states[k].sequenceID) && Picks(v.states[k].votes, pick)
  }

  function Took(s: System, i: nat, r: (Replica, seq<Out>)): System
    requires i < |s.nodes|
  {
    s.(nodes := s.nodes[i := r.0], net := Sent(s.net, r.1))
  }

  /** What the replica that an event is about becomes and sends. */
  ghost function Reaction(s: System, e: Event): (Replica, seq<Out>)
    requires Enabled(s, e) && !e.Propose?
  {
    var v := s.nodes[e.i];
    match e
    case DeliverPrepare(_, p, req, digest, nextDigest) => PrepareHandled(v, p, req, digest, nextDigest)
    case DeliverVote(_, vote, addr, pick) => VoteHandled(v, vote.(addr := addr), pick)
    case DeliverCollate(_, _, copy, pick) => (CollateHandled(v, copy, pick), [])
    case PrepareTimer(_, k) => PrepareExpired(v, k)
    case VoteTimer(_, k, pick) => VoteExpired(v, k, pick)
    case CollateTimer(_, k, pick) => CollateExpired(v, k, pick)
    case Execute(_) => (ArrivalHandled(v.(exec := v.exec[1..]), v.exec[0].value), [])
    case DeliverViewChange(_, n, completes) => (ViewChangeDelivered(v, n, completes), [])
    case NewView(_, m) => (NewViewDelivered(v, m), [])
  }

  ghost function Step(s: System, e: Event): System
    requires Enabled(s, e)
  {
    if e.Propose? then s.(net := s.net.(prepares := s.net.prepares + {e.p}))
    else Took(s, e.i, Reaction(s, e)).(expired := s.expired + if e.PrepareTimer? then {e.k} else {})
  }

  /** Replicas that have just been created, with the same node table. */
  predicate Initial(s: System, table: seq<NodeInfo>, viewID: nat) {
    && |table| >= VIEWS && |s.nodes| == |table|
    && (forall i :: 0 <= i < |s.nodes| ==> s.nodes[i] == NewNode(table[i], table, viewID))
    && s.net == Net({}, {}, {}) && s.expired == {}
  }

  /** All events of the run are possible when they happen. */
  ghost predicate ValidRun(s: System, es: seq<Event>)
    decreases |es|, 0
  {
    es == [] || (ValidRun(s, es[..|es| - 1]) && Enabled(Run(s, es[..|es| - 1]), es[|es| - 1]))
  }

  ghost function Run(s: System, es: seq<Event>): System
    requires ValidRun(s, es)
    decreases |es|, 1
  {
    if es == [] then s else Step(Run(s, es[..|es| - 1]), es[|es| - 1])
  }

  /** A prefix of a run is a run, and the next event is possible after it. */
  lemma {:induction false} PrefixIsRun(s: System, es: seq<Event>, t: nat)
    requires ValidRun(s, es) && t <= |es|
    ensures ValidRun(s, es[..t])
    ensures t < |es| ==> Enabled(Run(s, es[..t]), es[t])
    ensures t < |es| ==> ValidRun(s, es[..t + 1]) && Run(s, es[..t + 1]) == Step(Run(s, es[..t]), es[t])
  {
    if t == |es| {
      assert es[..t] == es;
    } else {
      var last := |es| - 1;
      if t == last {
        assert es[..t + 1] == es;
      } else {
        PrefixIsRun(s, es[..last], t);
        assert es[..last][..t] == es[..t] && es[..last][..t + 1] == es[..t + 1];
      }
    }
  }

  /** A run can be extended by an event that is possible after it. */
  lemma OneMoreEvent(s: System, es: seq<Event>, e: Event)
    requires ValidRun(s, es) && Enabled(Run(s, es), e)
    ensures ValidRun(s, es + [e]) && Run(s, es + [e]) == Step(Run(s, es), e)
  {
    var more := es + [e];
    assert more[..|more| - 1] == es;
  }

  /** The run up to and with its t-th event. */
  lemma UpTo(s: System, es: seq<Event>, t: nat) returns (more: seq<Event>)
    requires ValidRun(s, es) && t < |es|
    ensures more == es[..t + 1] && more == es[..t] + [es[t]] && more <= es
    ensures ValidRun(s, es[..t]) && Enabled(Run(s, es[..t]), es[t])
    ensures ValidRun(s, more) && Run(s, more) == Step(Run(s, es[..t]), es[t])
  {
    more := es[..t + 1];
    OneLonger(es, t, more);
    PrefixIsRun(s, es, t);
  }

  lemma OneLonger(es: seq<Event>, t: nat, more: seq<Event>)
    requires t < |es| && more == es[..t + 1]
    ensures more == es[..t] + [es[t]] && more <= es
  {}

  // Routing

  ghost predicate RoutedNode(v: Replica) {
    forall k :: k in v.states ==> v.states[k].sequenceID == k
  }

  ghost predicate Routed(s: System) {
    forall i :: 0 <= i < |s.nodes| ==> RoutedNode(s.nodes[i])
  }

  lemma RoutedStart(v: Replica, k: int)
    requires RoutedNode(v)
    ensures RoutedNode(Started(v, k)) && k in Started(v, k).states
  {}

  lemma RoutedAnnounce(v: Replica, p: PrepareMsg, vote: VoteMsg, nextDigest: string)
    requires RoutedNode(v) && Slot(p.sequenceID)
    ensures RoutedNode(Announced(v, p, vote, nextDigest).0)
  {
    AnnouncedFrame(v, p, vote, nextDigest);
  }

  lemma RoutedPrepare(v: Replica, p: PrepareMsg, req: Option<RequestMsg>, digest: Option<string>, nextDigest: string)
    requires RoutedNode(v) && Slot(p.sequenceID)
    ensures RoutedNode(PrepareHandled(v, p, req, digest, nextDigest).0)
  {
    var k := p.sequenceID;
    RoutedStart(v, k);
    var v0 := Started(v, k);
    var (s, vote) := PrepareNext(v0.states[k], p, req, digest);
    var v1 := v0.(states := v0.states[k := s]);
    assert RoutedNode(v1);
    RoutedAnnounce(v1, p, vote, nextDigest);
  }

  lemma RoutedVote(v: Replica, m: VoteMsg, pick: NodeID)
    requires RoutedNode(v) && Slot(m.sequenceID)
    requires Dropped(v, m.sequenceID) || Picks(VoteAnswer(Started(v, m.sequenceID), m).0.votes, pick)
    ensures RoutedNode(VoteHandled(v, m, pick).0)
  {
    RoutedStart(v, m.sequenceID);
  }

  lemma RoutedCollate(v: Replica, c: CollateMsg, pick: NodeID)
    requires RoutedNode(v) && Slot(c.sequenceID)
    requires Dropped(v, c.sequenceID) || Slot(CollateAnswer(Started(v, c.sequenceID), c).1.collate.sequenceID)
    requires Dropped(v, c.sequenceID) ||
             Picks(CollateAnswer(Started(v, c.sequenceID), c).1.collate.receivedVoteMsg, pick)
    ensures RoutedNode(CollateHandled(v, c, pick))
  {
    RoutedStart(v, c.sequenceID);
    if !Dropped(v, c.sequenceID) {
      CollateCountedStates(Started(v, c.sequenceID), c, pick);
    }
  }

  lemma CollateCountedStates(v: Replica, c: CollateMsg, pick: NodeID)
    requires c.sequenceID in v.states
    requires Slot(CollateAnswer(v, c).1.collate.sequenceID)
    requires Picks(CollateAnswer(v, c).1.collate.receivedVoteMsg, pick)
    ensures CollateAnswer(v, c).0.sequenceID == v.states[c.sequenceID].sequenceID
    ensures var u := CollateCounted(v, c, pick);
            u.states == v.states || u.states == v.states[c.sequenceID := CollateAnswer(v, c).0]
  {}

  lemma RoutedViewChange(v: Replica, s: int, completes: bool)
    requires RoutedNode(v)
    ensures RoutedNode(ViewChangeDelivered(v, s, completes))
  {
    RoutedStart(v, s);
  }

  lemma RoutedNewView(v: Replica, m: NewViewMsg)
    requires RoutedNode(v) && m.sequenceID >= 1
    ensures RoutedNode(NewViewDelivered(v, m))
  {
    RoutedStart(v, m.sequenceID);
    assert RoutedNode(Rolled(Started(v, m.sequenceID), m.sequenceID));
  }

  /** The replica that an event is about, after the event. */
  lemma StepKeepsRoutedNode(s: System, e: Event, i: nat)
    requires Routed(s) && Enabled(s, e) && i < |s.nodes|
    ensures |Step(s, e).nodes| == |s.nodes| && RoutedNode(Step(s, e).nodes[i])
  {
    var v := s.nodes[i];
    assert RoutedNode(v);
    if !e.Propose? && e.i == i {
      match e
      case DeliverPrepare(_, p, req, digest, nextDigest) => RoutedPrepare(v, p, req, digest, nextDigest);
      case DeliverVote(_, vote, addr, pick) => RoutedVote(v, vote.(addr := addr), pick);
      case DeliverCollate(_, c, copy, pick) => RoutedCollate(v, copy, pick);
      case PrepareTimer(_, k) =>
      case VoteTimer(_, k, pick) =>
      case CollateTimer(_, k, pick) =>
      case Execute(_) =>
      case DeliverViewChange(_, n, completes) => RoutedViewChange(v, n, completes);
      case NewView(_, m) => RoutedNewView(v, m);
    }
  }

  lemma StepKeepsRouting(s: System, e: Event)
    requires Routed(s) && Enabled(s, e)
    ensures Routed(Step(s, e)) && |Step(s, e).nodes| == |s.nodes|
  {
    forall i: nat | i < |s.nodes| ensures RoutedNode(Step(s, e).nodes[i]) {
      StepKeepsRoutedNode(s, e, i);
    }
    assert |Step(s, e).nodes| == |s.nodes|;
  }

  /** A routed message never fails the sequence number check of the state it is routed to. */
  lemma RoutedMessageChecks(v: Replica, viewID: int, k: int)
    requires RoutedNode(v)
    ensures Verify(Started(v, k).states[k], viewID, k) != Some(WrongSequence)
  {
    RoutedStart(v, k);
  }

  /** In every run, view changes included, the state stored at key k has sequence number k. */
  lemma {:induction false} RoutingInvariant(s: System, table: seq<NodeInfo>, viewID: nat, es: seq<Event>)
    requires Initial(s, table, viewID) && ValidRun(s, es)
    ensures Routed(Run(s, es)) && |Run(s, es).nodes| == |s.nodes|
    ensures forall i, viewID, k :: 0 <= i < |s.nodes| ==>
              Verify(Started(Run(s, es).nodes[i], k).states[k], viewID, k) != Some(WrongSequence)
  {
    if es != [] {
      RoutingInvariant(s, table, viewID, es[..|es| - 1]);
      StepKeepsRouting(Run(s, es[..|es| - 1]), es[|es| - 1]);
    }
    forall i, viewID, k | 0 <= i < |s.nodes|
      ensures Verify(Started(Run(s, es).nodes[i], k).states[k], viewID, k) != Some(WrongSequence)
    {
      RoutedMessageChecks(Run(s, es).nodes[i], viewID, k);
    }
  }
}
