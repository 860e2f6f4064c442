/** Where agreement stops. A Prepare timer that fires for a number while the others decide it replaces
    the proposal at one replica, which then logs the empty proposal: there is one proposal, no message
    is lost and no replica is faulty. */
module Disagreement {
  import opened Messages
  import opened NodeSpec
  import opened System
  import opened Agreement
  import opened Rounds

  /** The state of number k at replica z has no votes and no collates. */
  predicate Unheard(g: Group, v: Replica, k: nat) {
    && k in v.states && v.states[k].votes == map[] && v.states[k].collates == map[]
    && v.states[k].sequenceID == k && v.states[k].viewID == View(g, k)
  }

  /** The Prepare timer fires for number k: the replica now holds the empty proposal. */
  lemma TimerFires(g: Group, s: System, c: System, z: nat, k: nat, rule: Rule) returns (d: System)
    requires Reachable(s, c, rule) && Proper(g) && z < |c.nodes| && InRange(k)
    requires Unheard(g, c.nodes[z], k) && c.nodes[z].prepared[k] in {0, 1}
    ensures Reachable(s, d, rule) && |d.nodes| == |c.nodes| && d.nodes == c.nodes[z := d.nodes[z]]
    ensures d.net.prepares == c.net.prepares && d.net.collates == c.net.collates && d.expired == c.expired + {k}
    ensures var v, u := c.nodes[z], d.nodes[z];
            && Holds(g, u, k, NullPrepare(k)) && u.prepared[k] == 1 && SameOrder(v, u)
            && u.states.Keys == v.states.Keys && u.total == v.total
  {
    var e := PrepareTimer(z, k);
    var (u, out) := PrepareExpired(c.nodes[z], k);
    d := Take(s, c, e, rule);
    assert forall o :: o in out ==> o.OutVote?;
    assert d.net.prepares == c.net.prepares && d.net.collates == c.net.collates;
  }

  /** The follower times out on number k. For k >= 2 its state is there before the PREPARE, which comes
      too late; the state of number 1 is created by the PREPARE, and the timer fires just after it. */
  lemma FollowerTimesOut(g: Group, s: System, c: System, k: nat) returns (d: System)
    requires Reachable(s, c, NoViewChange) && Led(g, c, k)
    ensures Reachable(s, d, NoViewChange)
    ensures |d.nodes| == |c.nodes| && d.nodes == c.nodes[Follower(g) := d.nodes[Follower(g)]]
    ensures forall p :: p in d.net.prepares ==> p.sequenceID >= 1 && p == Proposal(g, p.sequenceID)
    ensures Decision(g, k) in d.net.collates && d.expired == {k}
    ensures var u := d.nodes[Follower(g)];
            Holds(g, u, k, NullPrepare(k)) && u.prepared[k] == 1 && u.committed[k] == 0 && Logged(g, u, k)
  {
    var z := Follower(g);
    if k == 1 {
      var b := Prepare(g, s, c, z, k, NoViewChange);
      d := TimerFires(g, s, b, z, k, NoViewChange);
    } else {
      d := TimerFires(g, s, c, z, k, NoViewChange);
    }
  }

  /** Replica 0 has logged the proposal for number k, the follower the empty one. */
  ghost predicate Split(g: Group, c: System, k: nat) {
    && Proper(g) && k >= 1 && |c.nodes| == |g.table| && c.expired == {k}
    && (forall p :: p in c.net.prepares ==> p.sequenceID >= 1 && p == Proposal(g, p.sequenceID))
    && k in c.nodes[0].log && c.nodes[0].log[k] == Proposal(g, k)
    && k in c.nodes[Follower(g)].log && c.nodes[Follower(g)].log[k] == NullPrepare(k)
  }

  lemma SplitAt(g: Group, s: System, c: System, k: nat) returns (d: System)
    requires Reachable(s, c, NoViewChange) && Led(g, c, k)
    ensures Reachable(s, d, NoViewChange) && Split(g, d, k)
  {
    var b := FollowerTimesOut(g, s, c, k);
    d := Follow(g, s, b, Follower(g), k, NullPrepare(k), NoViewChange);
  }

  /** For every number there is a run without view change and with one proposal per number, in which
      only the Prepare timer of that number fires and two replicas log different entries for it. */
  lemma TimeoutBreaksAgreement(g: Group, s: System, k: nat) returns (es: seq<Event>)
    requires Proper(g) && Initial(s, g.table, g.viewID) && InRange(k)
    ensures ValidRun(s, es) && Steady(es) && OneProposal(Run(s, es).net.prepares) && Run(s, es).expired == {k}
    ensures !EntriesAgree(Run(s, es), k)
  {
    var before := RoundsTo(g, s, k);
    var led := Lead(g, s, before, k);
    var c := SplitAt(g, s, led, k);
    es :| Leads(s, es, c, NoViewChange);
    assert c.nodes[0].log[k] != c.nodes[Follower(g)].log[k];
  }

  /** Any two entries for number k are equal. */
  predicate EntriesAgree(c: System, k: int) {
    forall i, j :: 0 <= i < |c.nodes| && 0 <= j < |c.nodes| && k in c.nodes[i].log && k in c.nodes[j].log ==>
      c.nodes[i].log[k] == c.nodes[j].log[k]
  }

  /** A run with one proposal per number and no view change, in which Prepare timers fire for numbers
      among `late` only. */
  ghost predicate LateOnly(s: System, es: seq<Event>, late: iset<int>) {
    && ValidRun(s, es) && Steady(es) && OneProposal(Run(s, es).net.prepares)
    && forall x :: x in Run(s, es).expired ==> x in late
  }

  /** All such runs agree on number k. */
  ghost predicate AgreementOn(s: System, late: iset<int>, k: int) {
    forall es :: LateOnly(s, es, late) ==> EntriesAgree(Run(s, es), k)
  }

  lemma {:induction false} ExpiredInRange(s: System, table: seq<NodeInfo>, viewID: nat, es: seq<Event>)
    requires Initial(s, table, viewID) && ValidRun(s, es)
    ensures forall k :: k in Run(s, es).expired ==> InRange(k)
  {
    if es != [] {
      ExpiredInRange(s, table, viewID, es[..|es| - 1]);
      var c, e := Run(s, es[..|es| - 1]), es[|es| - 1];
      if !e.Propose? { StepParts(c, e); }
    }
  }

  lemma OnTimeAgrees(g: Group, s: System, es: seq<Event>, late: iset<int>, k: int)
    requires Initial(s, g.table, g.viewID) && LateOnly(s, es, late) && !(k in late && InRange(k))
    ensures EntriesAgree(Run(s, es), k)
  {
    var c := Run(s, es);
    ExpiredInRange(s, g.table, g.viewID, es);
    assert es[..|es|] == es;
    GoodRun(s, g.table, g.viewID, es);
    forall i, j | 0 <= i < |c.nodes| && 0 <= j < |c.nodes| && k in c.nodes[i].log && k in c.nodes[j].log
      ensures c.nodes[i].log[k] == c.nodes[j].log[k]
    {
      AnyTwoAgree(s, g.table, g.viewID, es, |es|, i, |es|, j, k);
    }
  }

  /** The exact condition for agreement: all runs agree on number k if and only if its Prepare timer
      cannot be among those that fire. */
  lemma AgreementIff(g: Group, s: System, late: iset<int>, k: int)
    requires Proper(g) && Initial(s, g.table, g.viewID)
    ensures AgreementOn(s, late, k) <==> !(k in late && InRange(k))
  {
    if k in late && InRange(k) {
      var es := TimeoutBreaksAgreement(g, s, k);
      assert LateOnly(s, es, late);
    } else {
      forall es | LateOnly(s, es, late) ensures EntriesAgree(Run(s, es), k) {
        OnTimeAgrees(g, s, es, late, k);
      }
    }
  }

  /** Agreement on all numbers holds if and only if no Prepare timer can fire. */
  lemma AgreementEverywhereIff(g: Group, s: System, late: iset<int>)
    requires Proper(g) && Initial(s, g.table, g.viewID)
    ensures (forall k :: AgreementOn(s, late, k)) <==> forall k :: k in late ==> !InRange(k)
  {
    forall k ensures AgreementOn(s, late, k) <==> !(k in late && InRange(k)) {
      AgreementIff(g, s, late, k);
    }
  }
}
