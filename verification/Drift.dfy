/** A reachable replica whose log exceeds its counter of started numbers. A rollback sets the counter to
    the number before the first that is dropped, whatever states there are above the last one. */
module Drift {
  import opened Messages
  import opened VoteSpec
  import opened ExecutorSpec
  import opened NodeSpec
  import opened System
  import opened Executor
  import opened ViewChange
  import opened Rounds
  import opened Disagreement

  /** The replica expects number j, its log holds the numbers before, and its states are these. */
  ghost predicate At(g: Group, v: Replica, i: nat, j: nat, keys: set<int>, total: int)
    requires Proper(g) && i < |g.table| && j >= 1
  {
    Expects(g, v, i, j) && Logged(g, v, j) && v.total == total && forall x :: x in v.states <==> x in keys
  }

  /** The PREPARE for number 4 comes before those for 2 and 3. */
  lemma AheadOfTime(g: Group, v: Replica, i: nat)
    requires Proper(g) && i < |g.table| && At(g, v, i, 2, {1, 2}, 2)
    ensures var (u, out) := PrepareHandled(v, Proposal(g, 4), Some(REQUEST), Some(""), "");
            && Ahead(g, u, i)
            && forall o :: o in out ==> !o.OutCollate? && (o.OutPrepare? ==> o.prepare == Proposal(g, 5))
  {
    var p := Proposal(g, 4);
    var v0 := Started(v, 4);
    var (s, vote) := PrepareNext(v0.states[4], p, Some(REQUEST), Some(""));
    var w := v0.(states := v0.states[4 := s]);
    assert forall x :: x in w.states <==> x in {1, 2, 4};
    GoAhead(g, w, i, vote);
  }

  lemma GoAhead(g: Group, w: Replica, i: nat, vote: VoteMsg)
    requires Proper(g) && i < |g.table| && w.me == g.table[i] && w.table == g.table && w.epochID == 0
    requires Logged(g, w, 2) && w.total == 3 && forall x :: x in w.states <==> x in {1, 2, 4}
    requires forall x :: 2 <= x < SLOTS ==> w.committed[x] == 0 && w.prepared[x] == 0
    ensures var (u, out) := Announced(w, Proposal(g, 4), vote, "");
            && Ahead(g, u, i)
            && forall o :: o in out ==> !o.OutCollate? && (o.OutPrepare? ==> o.prepare == Proposal(g, 5))
  {
    AnnouncedFrame(w, Proposal(g, 4), vote, "");
    AnnouncedRest(w, Proposal(g, 4), vote);
    AheadProposes(g, w);
    assert w.exec + [] == w.exec;
  }

  lemma AheadProposes(g: Group, v: Replica)
    requires Proper(g) && v.table == g.table && v.epochID == 0
    ensures var (u, out) := NextProposed(v, 5, "");
            u.viewID == 4 && u.epochID == 0 && forall o :: o in out ==> o == OutPrepare(Proposal(g, 5))
  {}

  /** It has states for 1, 2, 4 and 5, the last in its right view. */
  ghost predicate Ahead(g: Group, v: Replica, i: nat)
    requires Proper(g) && i < |g.table|
  {
    && v.me == g.table[i] && v.table == g.table && v.epochID == 0 && v.total == 4 && Logged(g, v, 2)
    && (forall x :: x in v.states <==> x in {1, 2, 4, 5})
    && v.states[5] == Fresh(View(g, 5), v.me.nodeID, |g.table|, 5)
    && (forall x :: 2 <= x < SLOTS ==> v.committed[x] == 0)
    && forall x :: 2 <= x < SLOTS && x != 4 ==> v.prepared[x] == 0
  }

  /** Numbers 2 to 4 are dropped, and number 5 still has its state. */
  ghost predicate RolledBack(g: Group, v: Replica, i: nat)
    requires Proper(g) && i < |g.table|
  {
    && v.me == g.table[i] && v.table == g.table && v.total == 1 && Logged(g, v, 2)
    && (forall x :: x in v.states <==> x in {1, 5})
    && v.states[5] == Fresh(View(g, 5), v.me.nodeID, |g.table|, 5)
    && forall x :: 2 <= x < SLOTS ==> v.committed[x] == 0 && v.prepared[x] == 0
  }

  /** The NEW-VIEW message for number 2, which fills nothing. */
  const RESTART: NewViewMsg := NewViewMsg("", 2, 0, 0, map[], 0)

  /** Number 3 had no state: number 5 keeps one above the counter, which falls below the states. */
  lemma Restarted(g: Group, v: Replica, i: nat)
    requires Proper(g) && i < |g.table| && Ahead(g, v, i)
    ensures At(g, NewViewDelivered(v, RESTART), i, 2, {1, 2, 5}, 2)
  {
    var r := Rolled(Started(v, 2), 2);
    RolledAhead(g, v, i);
    FillsNothing(g, r);
    RestartedFrom(g, r, i);
  }

  lemma RolledAhead(g: Group, v: Replica, i: nat)
    requires Proper(g) && i < |g.table| && Ahead(g, v, i)
    ensures RolledBack(g, Rolled(Started(v, 2), 2), i)
  {
    assert Started(v, 2) == v;
    assert Rolled(v, 2).log == v.log;
  }

  lemma FillsNothing(g: Group, v: Replica)
    requires Proper(g) && v.log == Entries(g, 1) && v.total >= 0
    ensures Filled(v, 0) == v
  {
    EntriesDense(g, 1);
    MaxKeyOfDense(v.log);
    FillsNothingAbove(v);
  }

  lemma FillsNothingAbove(v: Replica)
    requires MaxKey(v.log.Keys) == 1 && v.total >= 0
    ensures Filled(v, 0) == v
  {
    assert Filled(v, 0).log == v.log;
  }

  lemma RestartedFrom(g: Group, v: Replica, i: nat)
    requires Proper(g) && i < |g.table| && RolledBack(g, v, i)
    ensures At(g, Started(Turned(v, RESTART), 2), i, 2, {1, 2, 5}, 2)
  {}

  // The run

  /** A replica that has not taken a step yet. */
  function Bystander(g: Group): nat
    requires Proper(g)
  {
    Follower(g) + 1
  }

  /** Numbers 1 to 5 are proposed and decided, and the bystander has done what `At` says. */
  ghost predicate Running(g: Group, s: System, c: System, j: nat, keys: set<int>, total: int) {
    && Reachable(s, c, AnyEvents) && Proper(g) && j >= 1 && Orderly(g, c) && Published(g, c, 6)
    && At(g, c.nodes[Bystander(g)], Bystander(g), j, keys, total)
  }

  lemma Steadily(s: System, c: System)
    requires Reachable(s, c, NoViewChange)
    ensures Reachable(s, c, AnyEvents)
  {
    var es :| Leads(s, es, c, NoViewChange);
    assert Leads(s, es, c, AnyEvents);
  }

  lemma Begin(g: Group, s: System) returns (c: System)
    requires Proper(g) && Initial(s, g.table, g.viewID)
    ensures Running(g, s, c, 1, {}, 0)
  {
    c := RoundsTo(g, s, 6);
    Steadily(s, c);
    BystanderIsNew(g, c);
  }

  lemma BystanderIsNew(g: Group, c: System)
    requires Proper(g) && Round(g, c, 6)
    ensures At(g, c.nodes[Bystander(g)], Bystander(g), 1, {}, 0)
  {
    assert Entries(g, 0) == map[];
    assert c.nodes[Bystander(g)] == NewNode(g.table[Bystander(g)], g.table, g.viewID);
  }

  /** The bystander catches up by one number. */
  lemma CatchUp(g: Group, s: System, c: System, j: nat, keys: set<int>, total: int, after: set<int>)
      returns (d: System)
    requires Running(g, s, c, j, keys, total) && j <= 5 && forall x :: x in after <==> x in keys || j <= x <= j + 1
    ensures Running(g, s, d, j + 1, after, total + (if j in keys then 0 else 1) + (if j + 1 in keys then 0 else 1))
  {
    d := FollowRound(g, s, c, Bystander(g), j, AnyEvents);
    assert Published(g, d, 6);
  }

  /** The bystander goes ahead, is rolled back, and restarts. */
  lemma Detour(g: Group, s: System, c: System) returns (d: System)
    requires Running(g, s, c, 2, {1, 2}, 2)
    ensures Running(g, s, d, 2, {1, 2, 5}, 2)
  {
    var z := Bystander(g);
    var a := GoesAhead(g, s, c);
    Restarted(g, a.nodes[z], z);
    d := Take(s, a, NewView(z, RESTART), AnyEvents);
    SentNothing(a.net);
  }

  lemma FewerCounted(g: Group, c: System)
    requires Proper(g) && |c.nodes| == |g.table|
    requires At(g, c.nodes[Bystander(g)], Bystander(g), 2, {1, 2, 5}, 2)
    ensures c.nodes[Bystander(g)].total < |c.nodes[Bystander(g)].states|
  {
    var states := c.nodes[Bystander(g)].states;
    assert forall k: int :: k in states.Keys <==> k in {1, 2, 5};
    assert states.Keys == {1, 2, 5};
    assert |states| == |states.Keys|;
  }

  lemma GoesAhead(g: Group, s: System, c: System) returns (d: System)
    requires Running(g, s, c, 2, {1, 2}, 2)
    ensures Reachable(s, d, AnyEvents) && Orderly(g, d) && Published(g, d, 6)
    ensures Ahead(g, d.nodes[Bystander(g)], Bystander(g))
  {
    var e := DeliverPrepare(Bystander(g), Proposal(g, 4), Some(REQUEST), Some(""), "");
    AheadOfTime(g, c.nodes[Bystander(g)], Bystander(g));
    d := Take(s, c, e, AnyEvents);
    SentAhead(g, c.net, Reaction(c, e).1);
  }

  lemma SentAhead(g: Group, net: Net, out: seq<Out>)
    requires Proper(g)
    requires forall o :: o in out ==> !o.OutCollate? && (o.OutPrepare? ==> o.prepare == Proposal(g, 5))
    ensures var sent := Sent(net, out);
            && net.prepares <= sent.prepares && sent.prepares <= net.prepares + {Proposal(g, 5)}
            && sent.collates == net.collates
  {}

  lemma CatchUpToFive(g: Group, s: System, c: System) returns (d: System)
    requires Running(g, s, c, 2, {1, 2, 5}, 2)
    ensures Running(g, s, d, 5, {1, 2, 3, 4, 5}, 4)
  {
    var c3 := CatchUp(g, s, c, 2, {1, 2, 5}, 2, {1, 2, 3, 5});
    var c4 := CatchUpFromThree(g, s, c3);
    d := CatchUpFromFour(g, s, c4);
  }

  lemma CatchUpFromThree(g: Group, s: System, c: System) returns (d: System)
    requires Running(g, s, c, 3, {1, 2, 3, 5}, 3)
    ensures Running(g, s, d, 4, {1, 2, 3, 4, 5}, 4)
  {
    d := CatchUp(g, s, c, 3, {1, 2, 3, 5}, 3, {1, 2, 3, 4, 5});
  }

  lemma CatchUpFromFour(g: Group, s: System, c: System) returns (d: System)
    requires Running(g, s, c, 4, {1, 2, 3, 4, 5}, 4)
    ensures Running(g, s, d, 5, {1, 2, 3, 4, 5}, 4)
  {
    d := CatchUp(g, s, c, 4, {1, 2, 3, 4, 5}, 4, {1, 2, 3, 4, 5});
  }

  /** The bystander times out on number 5 and follows the decision: five entries, four counted. */
  lemma Outgrow(g: Group, s: System, c: System) returns (d: System)
    requires Running(g, s, c, 5, {1, 2, 3, 4, 5}, 4)
    ensures Reachable(s, d, AnyEvents) && Outgrown(g, d)
  {
    var z := Bystander(g);
    var b := TimerFires(g, s, c, z, 5, AnyEvents);
    d := Follow(g, s, b, z, 5, NullPrepare(5), AnyEvents);
    EntriesDense(g, 4);
    Extended(Entries(g, 4), NullPrepare(5));
    assert 3 in b.nodes[z].states.Keys;
  }

  ghost predicate Outgrown(g: Group, c: System)
    requires Proper(g)
  {
    && Bystander(g) < |c.nodes|
    && var v := c.nodes[Bystander(g)]; Dense(v.log) && |v.log| == 5 && v.total == 4 && 3 in v.states
  }

  lemma LeavesGap(v: Replica, m: NewViewMsg)
    requires Dense(v.log) && |v.log| == 5 && v.total == 4 && 3 in v.states && m.sequenceID == 3
    ensures !Dense(NewViewDelivered(v, m).log)
  {
    NewViewKeepsDenseIff(v, m);
  }

  /** In every group there is a run that leads to a replica with fewer numbers counted than it has
      states, and on to one with fewer numbers counted than its dense log has entries. The next view
      change to number 3 then leaves a gap in that log, whatever its checkpoint. */
  lemma LogOutgrowsCounter(g: Group, s: System) returns (z: nat, b: System, d: System)
    requires Proper(g) && Initial(s, g.table, g.viewID)
    ensures Reachable(s, b, AnyEvents) && z < |b.nodes| && b.nodes[z].total < |b.nodes[z].states|
    ensures Reachable(s, d, AnyEvents) && z < |d.nodes| && Dense(d.nodes[z].log)
    ensures d.nodes[z].total < |d.nodes[z].log|
    ensures forall m: NewViewMsg :: m.sequenceID == 3 ==> !Dense(NewViewDelivered(d.nodes[z], m).log)
  {
    z := Bystander(g);
    var c1 := Begin(g, s);
    var c2 := CatchUp(g, s, c1, 1, {}, 0, {1, 2});
    b := Detour(g, s, c2);
    FewerCounted(g, b);
    var c5 := CatchUpToFive(g, s, b);
    d := Outgrow(g, s, c5);
    forall m: NewViewMsg | m.sequenceID == 3 ensures !Dense(NewViewDelivered(d.nodes[z], m).log) {
      LeavesGap(d.nodes[z], m);
    }
  }
}
