/** The shape of the logs over all runs, with any number of view changes. */
module LogShape {
  import opened Messages
  import opened ExecutorSpec
  import opened NodeSpec
  import opened System
  import opened Agreement
  import opened Refinement
  import opened ViewChange

  ghost predicate ShapedNode(v: Replica) {
    Dense(v.log) && KeyedBySequence(v.pairs)
  }

  /** Every log is one that the executor can go on with. */
  ghost predicate Shaped(c: System) {
    forall i :: 0 <= i < |c.nodes| ==> ShapedNode(c.nodes[i])
  }

  /** What a view change needs to keep the log of its replica dense. It can be told before the event,
      from the size of the log and the counter. */
  predicate KeepsShape(c: System, e: Event)
    requires Enabled(c, e)
  {
    match e
    case DeliverViewChange(i, n, true) =>
      var v := c.nodes[i]; n > TotalWith(v, n) || |v.log| <= TotalWith(v, n)
    case NewView(i, m) =>
      var v := c.nodes[i]; Recoverable(|v.log|, TotalWith(v, m.sequenceID), m.sequenceID, m.minS)
    case _ => true
  }

  lemma ViewChangeShape(v: Replica, s: int)
    requires ShapedNode(v) && s >= 1
    ensures ShapedNode(ViewChangeDelivered(v, s, true)) <==> s > TotalWith(v, s) || |v.log| <= TotalWith(v, s)
  {
    StartedParts(v, s);
    RollbackKeepsDenseIff(Started(v, s), s);
  }

  lemma NewViewShapeIff(v: Replica, m: NewViewMsg)
    requires ShapedNode(v) && m.sequenceID >= 1
    ensures ShapedNode(NewViewDelivered(v, m)) <==>
              Recoverable(|v.log|, TotalWith(v, m.sequenceID), m.sequenceID, m.minS)
  {
    NewViewKeepsDenseIff(v, m);
  }

  lemma ArrivalShape(v: Replica, p: PrepareMsg)
    requires ShapedNode(v)
    ensures ShapedNode(ArrivalHandled(v, p))
  {
    var u := v.(pairs := v.pairs[p.sequenceID := p]);
    DrainedIsDense(u.log, u.pairs);
    DrainParts(u);
  }

  /** The replica that takes the step. */
  lemma ReactionShapeIff(c: System, e: Event)
    requires Enabled(c, e) && !e.Propose? && ShapedNode(c.nodes[e.i])
    ensures ShapedNode(Reaction(c, e).0) <==> KeepsShape(c, e)
  {
    var v := c.nodes[e.i];
    match e
    case DeliverViewChange(_, n, true) => ViewChangeShape(v, n);
    case NewView(_, m) => NewViewShapeIff(v, m);
    case Execute(_) => ArrivalShape(v.(exec := v.exec[1..]), v.exec[0].value);
    case _ => ReactionKeepsExecuted(c, e);
  }

  lemma StepShapeIff(c: System, e: Event)
    requires Enabled(c, e) && Shaped(c)
    ensures Shaped(Step(c, e)) <==> KeepsShape(c, e)
  {
    if !e.Propose? {
      StepParts(c, e);
      ReactionShapeIff(c, e);
      OneNodeShape(c, Step(c, e), e.i, Reaction(c, e).0);
    }
  }

  lemma OneNodeShape(c: System, d: System, i: nat, u: Replica)
    requires Shaped(c) && i < |c.nodes| && d.nodes == c.nodes[i := u]
    ensures Shaped(d) <==> ShapedNode(u)
  {
    if ShapedNode(u) {
      forall j | 0 <= j < |d.nodes| ensures ShapedNode(d.nodes[j]) {
        assert j != i ==> ShapedNode(c.nodes[j]);
      }
    } else {
      assert d.nodes[i] == u;
    }
  }

  /** The logs are dense after the first k events. */
  ghost predicate ShapedAt(s: System, es: seq<Event>, k: nat) {
    k <= |es| && ValidRun(s, es[..k]) && Shaped(Run(s, es[..k]))
  }

  /** The t-th event meets the condition of its view change, if it is one. */
  ghost predicate Meets(s: System, es: seq<Event>, t: nat) {
    t < |es| && ValidRun(s, es[..t]) && Enabled(Run(s, es[..t]), es[t]) && KeepsShape(Run(s, es[..t]), es[t])
  }

  lemma ShapedNextIff(s: System, es: seq<Event>, t: nat)
    requires ValidRun(s, es) && t < |es| && ShapedAt(s, es, t)
    ensures ShapedAt(s, es, t + 1) <==> Meets(s, es, t)
  {
    PrefixIsRun(s, es, t);
    StepShapeIff(Run(s, es[..t]), es[t]);
  }

  /** Over all runs: the logs are dense at every moment if and only if every view change of the run,
      at its moment, meets the condition. */
  lemma {:induction false} AlwaysShapedIff(s: System, table: seq<NodeInfo>, viewID: nat, es: seq<Event>, t: nat)
    requires Initial(s, table, viewID) && ValidRun(s, es) && t <= |es|
    ensures (forall k :: 0 <= k <= t ==> ShapedAt(s, es, k)) <==> (forall k :: 0 <= k < t ==> Meets(s, es, k))
  {
    if t == 0 {
      StartsShaped(s, table, viewID);
      assert es[..0] == [];
      assert ShapedAt(s, es, 0);
    } else {
      AlwaysShapedIff(s, table, viewID, es, t - 1);
      if ShapedAt(s, es, t - 1) {
        ShapedNextIff(s, es, t - 1);
      }
      assert (forall k :: 0 <= k <= t ==> ShapedAt(s, es, k)) <==>
             (forall k :: 0 <= k <= t - 1 ==> ShapedAt(s, es, k)) && ShapedAt(s, es, t);
      assert (forall k :: 0 <= k < t ==> Meets(s, es, k)) <==>
             (forall k :: 0 <= k < t - 1 ==> Meets(s, es, k)) && Meets(s, es, t - 1);
    }
  }

  lemma StartsShaped(s: System, table: seq<NodeInfo>, viewID: nat)
    requires Initial(s, table, viewID)
    ensures Shaped(s)
  {
    forall i | 0 <= i < |s.nodes| ensures ShapedNode(s.nodes[i]) {
      assert s.nodes[i] == NewNode(table[i], table, viewID);
    }
  }
}
