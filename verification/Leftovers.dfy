/** What a view change leaves behind in the executor's channel and buffer: old notices, whose numbers
    were rolled back. Exactly when they are executed, exactly when they stop the executor, and runs in
    which they do. */
module Leftovers {
  import opened Messages
  import opened VoteSpec
  import opened ExecutorSpec
  import opened NodeSpec
  import opened Executor
  import opened System
  import opened Agreement
  import opened ViewChange
  import opened LogShape
  import opened Rounds
  import opened Disagreement
  import opened Drift

  /** How far the executor gets with the notice p after the view change of m. */
  ghost function Reach(v: Replica, m: NewViewMsg, p: PrepareMsg): int
    requires m.sequenceID >= 1
  {
    Ready(v.pairs[p.sequenceID := p], |NewViewDelivered(v, m).log|)
  }

  lemma WaitingIsKept(v: Replica, m: NewViewMsg)
    requires m.sequenceID >= 1
    ensures NewViewDelivered(v, m).pairs == v.pairs && NewViewDelivered(v, m).exec == v.exec
  {}

  /** The states after a view change: those of numbers s + 1 to the counter are gone, that of s is new. */
  lemma StatesLeft(v: Replica, m: NewViewMsg, k: int)
    requires m.sequenceID >= 1
    ensures var s := m.sequenceID;
            k in NewViewDelivered(v, m).states <==> k == s || (k in v.states && !(s <= k <= TotalWith(v, s)))
  {}

  /** Number k is above the first one rolled back and among those whose states are dropped. */
  predicate Lost(v: Replica, m: NewViewMsg, k: int) {
    m.sequenceID < k <= TotalWith(v, m.sequenceID)
  }

  /** Exactly when the next notice finds all that it needs: no number that it makes ready has lost its
      state. Otherwise the executor's lookup fails. All numbers that wait have states before the view
      change, and the notice has one after it. */
  lemma NoticeFitsIff(v: Replica, m: NewViewMsg, p: PrepareMsg)
    requires m.sequenceID >= 1 && ShapedNode(NewViewDelivered(v, m)) && p.sequenceID in NewViewDelivered(v, m).states
    requires (forall k :: k in v.pairs ==> k in v.states) && Reach(v, m, p) < SLOTS
    ensures Fits(NewViewDelivered(v, m), p) <==>
              forall i :: |NewViewDelivered(v, m).log| < i <= Reach(v, m, p) ==> !Lost(v, m, i)
  {
    var u := NewViewDelivered(v, m);
    WaitingIsKept(v, m);
    forall i | |u.log| < i <= Reach(v, m, p) ensures i in u.states <==> !Lost(v, m, i) {
      StatesLeft(v, m, i);
      ReadyWaits(u, p, i);
    }
    FitsWhenStates(u, p);
  }

  /** After the first view change of any run, with a log that the executor can go on with: the first
      notice is executed without a failing lookup if and only if nothing that it makes ready is lost. */
  lemma FirstNoticeFitsIff(s: System, table: seq<NodeInfo>, viewID: nat, es: seq<Event>, i: nat,
                           m: NewViewMsg, p: PrepareMsg)
    requires Initial(s, table, viewID) && ValidRun(s, es) && Steady(es) && i < |s.nodes| == |Run(s, es).nodes|
    requires m.sequenceID >= 1 && m.minS < SLOTS && InRange(p.sequenceID)
    requires Min(|Run(s, es).nodes[i].log|, m.sequenceID - 1) >= 1
    requires p.sequenceID in NewViewDelivered(Run(s, es).nodes[i], m).states
    ensures var v := Run(s, es).nodes[i];
            && ShapedNode(NewViewDelivered(v, m))
            && (Fits(NewViewDelivered(v, m), p) <==>
                  forall k :: |NewViewDelivered(v, m).log| < k <= Reach(v, m, p) ==> !Lost(v, m, k))
  {
    var v := Run(s, es).nodes[i];
    GoodRun(s, table, viewID, es);
    assert GoodNode(FactsOf(Run(s, es)), v);
    GoodNodeFits(FactsOf(Run(s, es)), v);
    WaitingIsKept(v, m);
    NewViewShape(v, m, 1);
    assert forall k :: k in v.pairs ==> Good(FactsOf(Run(s, es)), k, v.pairs[k]);
    assert |v.log| in v.log && Good(FactsOf(Run(s, es)), |v.log|, v.log[|v.log|]);
    ReachInRange(v, m, p);
    NoticeFitsIff(v, m, p);
  }

  lemma ReachInRange(v: Replica, m: NewViewMsg, p: PrepareMsg)
    requires m.sequenceID >= 1 && |NewViewDelivered(v, m).log| < SLOTS && InRange(p.sequenceID)
    requires forall k :: k in v.pairs ==> InRange(k)
    ensures Reach(v, m, p) < SLOTS
  {
    var end := Reach(v, m, p);
    assert end > |NewViewDelivered(v, m).log| ==> end in v.pairs[p.sequenceID := p];
  }

  lemma ReadyWaits(u: Replica, p: PrepareMsg, i: int)
    requires |u.log| < i <= Ready(u.pairs[p.sequenceID := p], |u.log|)
    ensures i in u.pairs || i == p.sequenceID
  {
    assert i in u.pairs[p.sequenceID := p];
  }

  lemma FitsWhenStates(u: Replica, p: PrepareMsg)
    requires ShapedNode(u) && Ready(u.pairs[p.sequenceID := p], |u.log|) < SLOTS
    ensures Fits(u, p) <==> forall i :: |u.log| < i <= Ready(u.pairs[p.sequenceID := p], |u.log|) ==> i in u.states
  {}

  /** What the executor logs with a notice: the notice itself, and for all other numbers what waited. */
  lemma LoggedOnArrival(u: Replica, p: PrepareMsg, i: int)
    requires ShapedNode(u)
    ensures var log, end := ArrivalHandled(u, p).log, Ready(u.pairs[p.sequenceID := p], |u.log|);
            && (i in log && i !in u.log <==> |u.log| < i <= end)
            && (|u.log| < i <= end ==>
                 i in log && if i == p.sequenceID then log[i] == p else i in u.pairs && log[i] == u.pairs[i])
  {
    var w := u.(pairs := u.pairs[p.sequenceID := p]);
    DrainParts(w);
    DrainedFacts(w.log, w.pairs);
    if |u.log| < i <= Ready(w.pairs, |w.log|) {
      ReadyWaits(u, p, i);
    }
  }

  /** An entry for number i waits, apart from that of p, and i is not below s. */
  predicate Old(pairs: Log, s: int, p: PrepareMsg, i: int) {
    i in pairs && i >= s && i != p.sequenceID
  }

  /** From number s on, p is all that the executor logs when it gets the notice p. */
  ghost predicate OnlyLogs(u: Replica, s: int, p: PrepareMsg) {
    var log := ArrivalHandled(u, p).log;
    forall i :: i in log && i !in u.log && i >= s ==> log[i] == p
  }

  lemma OnlyLogsIff(u: Replica, s: int, p: PrepareMsg)
    requires ShapedNode(u)
    ensures OnlyLogs(u, s, p) <==>
              forall i :: |u.log| < i <= Ready(u.pairs[p.sequenceID := p], |u.log|) ==> !Old(u.pairs, s, p, i)
  {
    var log, end := ArrivalHandled(u, p).log, Ready(u.pairs[p.sequenceID := p], |u.log|);
    if i :| |u.log| < i <= end && Old(u.pairs, s, p, i) {
      LoggedOnArrival(u, p, i);
      assert i in log && i !in u.log && log[i] == u.pairs[i] != p;
    } else {
      forall i | i in log && i !in u.log && i >= s ensures log[i] == p {
        LoggedOnArrival(u, p, i);
        assert !Old(u.pairs, s, p, i);
      }
    }
  }

  /** Exactly when an old notice is executed: what the next notice makes the executor log from the
      rolled-back number on is that notice alone if and only if no old entry from there on becomes
      ready. The old entries that do are executed, whatever is decided after the view change. */
  lemma OnlyNewIsExecutedIff(v: Replica, m: NewViewMsg, p: PrepareMsg)
    requires m.sequenceID >= 1 && ShapedNode(NewViewDelivered(v, m))
    ensures OnlyLogs(NewViewDelivered(v, m), m.sequenceID, p) <==>
              forall i :: |NewViewDelivered(v, m).log| < i <= Reach(v, m, p) ==> !Old(v.pairs, m.sequenceID, p, i)
  {
    WaitingIsKept(v, m);
    OnlyLogsIff(NewViewDelivered(v, m), m.sequenceID, p);
  }

  // Runs in which it happens

  /** The bystander has entry 1, and the decided number 3 waits for number 2 in its buffer. Its states
      are those of numbers 1 to 4. */
  ghost predicate Waits(g: Group, v: Replica, i: nat)
    requires Proper(g) && i < |g.table|
  {
    && v.me == g.table[i] && v.table == g.table && v.total == 4 && v.epochID == 0
    && v.log == Entries(g, 1) && v.pairs == map[3 := Proposal(g, 3)] && v.exec == []
    && (forall x :: x in v.states <==> x in {1, 2, 3, 4})
    && Holds(g, v, 2, Proposal(g, 2)) && v.prepared[2] == 1
    && forall x :: 2 <= x < SLOTS ==> v.committed[x] == 0
  }

  /** A notice ahead of its turn goes to the buffer. */
  lemma BuffersAhead(g: Group, v: Replica, p: PrepareMsg)
    requires Proper(g) && v.log == Entries(g, 1) && v.pairs == map[] && p.sequenceID == 3
    ensures ArrivalHandled(v, p) == v.(pairs := map[3 := p])
  {
    var pairs: Log := map[3 := p];
    assert v.pairs[3 := p] == pairs;
    EntriesDense(g, 1);
    RunEndUnique(pairs.Keys, 1, 1);
  }

  /** The bystander handles proposals 2 and 3, and is told the decision on 3 only. */
  lemma WaitForTwo(g: Group, s: System, c: System) returns (d: System)
    requires Running(g, s, c, 2, {1, 2}, 2)
    ensures Reachable(s, d, AnyEvents) && |d.nodes| == |g.table| && Decision(g, 2) in d.net.collates
    ensures Waits(g, d.nodes[Bystander(g)], Bystander(g))
  {
    var z := Bystander(g);
    var a := HandleTwo(g, s, c);
    var b := Learn(g, s, a, z, 3, Proposal(g, 3), AnyEvents);
    d := BufferThree(g, s, b);
  }

  lemma BufferThree(g: Group, s: System, c: System) returns (d: System)
    requires Reachable(s, c, AnyEvents) && Proper(g) && |c.nodes| == |g.table|
    requires var v := c.nodes[Bystander(g)];
             v.log == Entries(g, 1) && v.pairs == map[] && v.exec == [Some(Proposal(g, 3))]
    ensures Reachable(s, d, AnyEvents) && |d.nodes| == |g.table| && d.net == c.net
    ensures var v := c.nodes[Bystander(g)];
            d.nodes[Bystander(g)] == v.(exec := [], pairs := map[3 := Proposal(g, 3)])
  {
    var z := Bystander(g);
    BuffersAhead(g, c.nodes[z].(exec := c.nodes[z].exec[1..]), Proposal(g, 3));
    d := Take(s, c, Execute(z), AnyEvents);
    SentNothing(c.net);
  }

  /** Proposals 2 and 3 are handled. */
  ghost predicate HandledTwo(g: Group, v: Replica, i: nat)
    requires Proper(g) && i < |g.table|
  {
    && v.me == g.table[i] && v.table == g.table && v.total == 4 && v.epochID == 0 && Logged(g, v, 2)
    && (forall x :: x in v.states <==> x in {1, 2, 3, 4})
    && Holds(g, v, 2, Proposal(g, 2)) && v.prepared[2] == 1
    && Holds(g, v, 3, Proposal(g, 3)) && v.prepared[3] == 1
    && forall x :: 2 <= x < SLOTS ==> v.committed[x] == 0
  }

  lemma HandleTwo(g: Group, s: System, c: System) returns (d: System)
    requires Running(g, s, c, 2, {1, 2}, 2)
    ensures Reachable(s, d, AnyEvents) && |d.nodes| == |g.table|
    ensures Decision(g, 2) in d.net.collates && Decision(g, 3) in d.net.collates
    ensures HandledTwo(g, d.nodes[Bystander(g)], Bystander(g))
  {
    var a := HandleOne(g, s, c);
    d := HandleOther(g, s, a);
  }

  /** Proposal 2 is handled. */
  ghost predicate HandledOne(g: Group, v: Replica, i: nat)
    requires Proper(g) && i < |g.table|
  {
    && Expects(g, v, i, 3) && Logged(g, v, 2) && v.total == 3 && (forall x :: x in v.states <==> x in {1, 2, 3})
    && Holds(g, v, 2, Proposal(g, 2)) && v.prepared[2] == 1 && v.committed[2] == 0
  }

  lemma HandleOne(g: Group, s: System, c: System) returns (d: System)
    requires Running(g, s, c, 2, {1, 2}, 2)
    ensures Reachable(s, d, AnyEvents) && Orderly(g, d) && Published(g, d, 6)
    ensures HandledOne(g, d.nodes[Bystander(g)], Bystander(g))
  {
    d := Prepare(g, s, c, Bystander(g), 2, AnyEvents);
  }

  lemma HandleOther(g: Group, s: System, c: System) returns (d: System)
    requires Reachable(s, c, AnyEvents) && Proper(g) && Orderly(g, c) && Published(g, c, 6)
    requires HandledOne(g, c.nodes[Bystander(g)], Bystander(g))
    ensures Reachable(s, d, AnyEvents) && |d.nodes| == |g.table|
    ensures Decision(g, 2) in d.net.collates && Decision(g, 3) in d.net.collates
    ensures HandledTwo(g, d.nodes[Bystander(g)], Bystander(g))
  {
    var z := Bystander(g);
    d := Prepare(g, s, c, z, 3, AnyEvents);
    HandledBoth(g, c.nodes[z], d.nodes[z], z);
  }

  lemma HandledBoth(g: Group, v: Replica, u: Replica, i: nat)
    requires Proper(g) && i < |g.table| && HandledOne(g, v, i) && Expects(g, u, i, 4) && SameOrder(v, u)
    requires 3 in u.states && u.states[3] == VotingState(g, i, 3, map[]) && u.prepared[3] == 1
    requires (forall x :: x in u.states <==> x in v.states || 3 <= x <= 4) && u.total == v.total + 1
    requires 2 in u.states && u.states[2] == v.states[2] && u.prepared[2] == v.prepared[2]
    ensures HandledTwo(g, u, i)
  {}

  /** The NEW-VIEW message for number 3, which fills nothing. */
  const AGAIN: NewViewMsg := NewViewMsg("", 3, 0, 0, map[], 0)

  /** Number 3 starts afresh, and number 2 is as before. */
  ghost predicate StartedAgain(g: Group, v: Replica, i: nat)
    requires Proper(g) && i < |g.table|
  {
    && v.me == g.table[i] && v.table == g.table
    && v.log == Entries(g, 1) && v.pairs == map[3 := Proposal(g, 3)] && v.exec == []
    && 3 in v.states && v.states[3] == Fresh(View(g, 3), v.me.nodeID, |g.table|, 3)
    && Holds(g, v, 2, Proposal(g, 2)) && v.prepared[2] == 1 && v.committed[2] == 0
  }

  lemma StartAgain(g: Group, v: Replica, i: nat)
    requires Proper(g) && i < |g.table| && Waits(g, v, i)
    ensures StartedAgain(g, NewViewDelivered(v, AGAIN), i)
  {
    assert Started(v, 3) == v;
    var r := Rolled(v, 3);
    assert r.log == v.log;
    FillsNothing(g, r);
  }

  /** With number 2 the executor goes on to the old number 3. */
  lemma OldIsTaken(g: Group, v: Replica)
    requires Proper(g) && v.log == Entries(g, 1) && v.pairs == map[3 := Proposal(g, 3)]
    ensures ArrivalHandled(v, Proposal(g, 2)).log == Entries(g, 3)
  {
    var pairs := v.pairs[2 := Proposal(g, 2)];
    EntriesDense(g, 1);
    BothReady(pairs);
    DrainParts(v.(pairs := pairs));
    BothDrained(g, v.log, pairs);
  }

  lemma BothReady(pairs: Log)
    requires forall i :: i in pairs <==> i in {2, 3}
    ensures Ready(pairs, 1) == 3
  {
    RunEndUnique(pairs.Keys, 1, 3);
  }

  lemma BothDrained(g: Group, log: Log, pairs: Log)
    requires Proper(g) && log == Entries(g, 1) && |log| == 1 && Dense(log) && Ready(pairs, 1) == 3
    requires pairs[2] == Proposal(g, 2) && pairs[3] == Proposal(g, 3)
    ensures Drained(log, pairs) == Entries(g, 3)
  {
    var expected := Entries(g, 3);
    assert expected[2] == Proposal(g, 2) && expected[3] == Proposal(g, 3);
    DrainedIs(log, pairs, expected);
  }

  /** In every group there is a run in which a view change takes number 3 back at a replica, whose state
      of number 3 is fresh ever after, and the replica then executes the old proposal for number 3. */
  lemma OldProposalExecuted(g: Group, s: System) returns (z: nat, d: System)
    requires Proper(g) && Initial(s, g.table, g.viewID)
    ensures Reachable(s, d, AnyEvents) && z < |d.nodes|
    ensures var v := d.nodes[z];
            && 3 in v.log && v.log[3] == Proposal(g, 3)
            && 3 in v.states && v.states[3].prepare == None && v.states[3].votes == map[]
  {
    z := Bystander(g);
    var c1 := Begin(g, s);
    var c2 := CatchUp(g, s, c1, 1, {}, 0, {1, 2});
    var c3 := WaitForTwo(g, s, c2);
    d := TakeOld(g, s, c3);
  }

  lemma TakeOld(g: Group, s: System, c: System) returns (d: System)
    requires Reachable(s, c, AnyEvents) && Proper(g) && |c.nodes| == |g.table| && Decision(g, 2) in c.net.collates
    requires Waits(g, c.nodes[Bystander(g)], Bystander(g))
    ensures Reachable(s, d, AnyEvents) && |d.nodes| == |g.table|
    ensures var v := d.nodes[Bystander(g)];
            && v.log == Entries(g, 3)
            && 3 in v.states && v.states[3].prepare == None && v.states[3].votes == map[]
  {
    var z := Bystander(g);
    StartAgain(g, c.nodes[z], z);
    var a := Take(s, c, NewView(z, AGAIN), AnyEvents);
    SentNothing(c.net);
    var b := Learn(g, s, a, z, 2, Proposal(g, 2), AnyEvents);
    d := ExecuteBoth(g, s, b);
  }

  lemma ExecuteBoth(g: Group, s: System, c: System) returns (d: System)
    requires Reachable(s, c, AnyEvents) && Proper(g) && |c.nodes| == |g.table|
    requires var v := c.nodes[Bystander(g)];
             && v.log == Entries(g, 1) && v.pairs == map[3 := Proposal(g, 3)] && v.exec == [Some(Proposal(g, 2))]
             && 3 in v.states
    ensures Reachable(s, d, AnyEvents) && |d.nodes| == |g.table|
    ensures d.nodes[Bystander(g)].log == Entries(g, 3)
    ensures d.nodes[Bystander(g)].states == c.nodes[Bystander(g)].states
  {
    var z := Bystander(g);
    var w := c.nodes[z].(exec := c.nodes[z].exec[1..]);
    OldIsTaken(g, w);
    DrainParts(w.(pairs := w.pairs[2 := Proposal(g, 2)]));
    d := Take(s, c, Execute(z), AnyEvents);
  }

  /** The executor has a notice, and some number that the notice makes ready has no state. */
  ghost predicate Stopped(v: Replica) {
    && |v.exec| > 0 && v.exec[0].Some?
    && var p := v.exec[0].value;
       exists i :: |v.log| < i <= Ready(v.pairs[p.sequenceID := p], |v.log|) && i !in v.states
  }

  /** In every group there is a run in which a view change takes numbers 2 and 3 back at a replica, whose
      executor then comes to the old number 3, which has no state. */
  lemma ExecutorStopped(g: Group, s: System) returns (z: nat, d: System)
    requires Proper(g) && Initial(s, g.table, g.viewID)
    ensures Reachable(s, d, AnyEvents) && z < |d.nodes| && Stopped(d.nodes[z])
    ensures !Fits(d.nodes[z].(exec := d.nodes[z].exec[1..]), d.nodes[z].exec[0].value)
  {
    z := Bystander(g);
    var c1 := Begin(g, s);
    var c2 := CatchUp(g, s, c1, 1, {}, 0, {1, 2});
    var c3 := WaitForTwo(g, s, c2);
    d := ComeToOld(g, s, c3);
  }

  /** Only numbers 1 and 2 have states. */
  ghost predicate StartedTwo(g: Group, v: Replica, i: nat)
    requires Proper(g) && i < |g.table|
  {
    && v.me == g.table[i] && v.table == g.table
    && v.log == Entries(g, 1) && v.pairs == map[3 := Proposal(g, 3)] && v.exec == []
    && 3 !in v.states && Unheard(g, v, 2) && v.prepared[2] == 0 && v.committed[2] == 0
  }

  lemma StartTwo(g: Group, v: Replica, i: nat)
    requires Proper(g) && i < |g.table| && Waits(g, v, i)
    ensures StartedTwo(g, NewViewDelivered(v, RESTART), i)
  {
    assert Started(v, 2) == v;
    var r := Rolled(v, 2);
    assert r.log == v.log;
    FillsNothing(g, r);
  }

  lemma ComeToOld(g: Group, s: System, c: System) returns (d: System)
    requires Reachable(s, c, AnyEvents) && Proper(g) && |c.nodes| == |g.table| && Decision(g, 2) in c.net.collates
    requires Waits(g, c.nodes[Bystander(g)], Bystander(g))
    ensures Reachable(s, d, AnyEvents) && |d.nodes| == |g.table| && Stopped(d.nodes[Bystander(g)])
  {
    var z := Bystander(g);
    StartTwo(g, c.nodes[z], z);
    var a := Take(s, c, NewView(z, RESTART), AnyEvents);
    SentNothing(c.net);
    d := TimeOutOnTwo(g, s, a);
  }

  lemma TimeOutOnTwo(g: Group, s: System, c: System) returns (d: System)
    requires Reachable(s, c, AnyEvents) && Proper(g) && |c.nodes| == |g.table| && Decision(g, 2) in c.net.collates
    requires StartedTwo(g, c.nodes[Bystander(g)], Bystander(g))
    ensures Reachable(s, d, AnyEvents) && |d.nodes| == |g.table| && Stopped(d.nodes[Bystander(g)])
  {
    var z := Bystander(g);
    var b := TimerFires(g, s, c, z, 2, AnyEvents);
    d := Learn(g, s, b, z, 2, NullPrepare(2), AnyEvents);
    assert 3 !in b.nodes[z].states.Keys;
    ThreeIsReady(g, d.nodes[z]);
  }

  lemma ThreeIsReady(g: Group, v: Replica)
    requires Proper(g) && v.log == Entries(g, 1) && v.pairs == map[3 := Proposal(g, 3)] && 3 !in v.states
    requires v.exec == [Some(NullPrepare(2))]
    ensures Stopped(v)
  {
    var pairs := v.pairs[2 := NullPrepare(2)];
    EntriesDense(g, 1);
    RunEndUnique(pairs.Keys, 1, 3);
    assert |v.log| < 3 <= Ready(pairs, |v.log|);
  }
}
