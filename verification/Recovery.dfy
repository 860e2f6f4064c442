/** The first view change of a run: what it does to a log that all earlier theorems are about. */
module Recovery {
  import opened Messages
  import opened ExecutorSpec
  import opened NodeSpec
  import opened System
  import opened Agreement
  import opened ViewChange
  import opened Quorum
  import opened Checkpoint
  import opened Rounds

  /** A replica that gets its first NEW-VIEW message keeps a log that the executor can go on with if and
      only if an entry survives the rollback, or there is nothing to fill. A view change before anything
      is executed, or one to number 1, stops the executor, even with the checkpoint 0. */
  lemma FirstNewViewKeepsDenseIff(s: System, table: seq<NodeInfo>, viewID: nat, es: seq<Event>, i: nat, m: NewViewMsg)
    requires Initial(s, table, viewID) && ValidRun(s, es) && Steady(es) && i < |s.nodes| && m.sequenceID >= 1
    ensures |Run(s, es).nodes| == |s.nodes|
    ensures var v := Run(s, es).nodes[i];
            && (Dense(NewViewDelivered(v, m).log) <==> Min(|v.log|, m.sequenceID - 1) >= 1 || m.minS < 0)
            && Enabled(Run(s, es), NewView(i, m)) && Step(Run(s, es), NewView(i, m)).nodes[i] == NewViewDelivered(v, m)
  {
    GoodRun(s, table, viewID, es);
    var v := Run(s, es).nodes[i];
    GoodNodeFits(FactsOf(Run(s, es)), v);
    assert GoodNode(FactsOf(Run(s, es)), v);
    NewViewKeepsDenseIff(v, m);
  }

  /** The last entry that survives is overwritten when the new checkpoint covers it. All executed
      entries that survive the first view change are kept if and only if the last of them is above the
      new checkpoint or looks like a placeholder already. */
  lemma FirstNewViewKeepsEntriesIff(s: System, table: seq<NodeInfo>, viewID: nat, es: seq<Event>, i: nat, m: NewViewMsg)
    requires Initial(s, table, viewID) && ValidRun(s, es) && Steady(es) && i < |s.nodes| && m.sequenceID >= 1
    requires |Run(s, es).nodes| == |s.nodes| && Min(|Run(s, es).nodes[i].log|, m.sequenceID - 1) >= 1
    ensures var v := Run(s, es).nodes[i];
            var log, k := NewViewDelivered(v, m).log, Min(|v.log|, m.sequenceID - 1);
            && (forall x :: 1 <= x <= k ==> x in v.log && x in log)
            && ((forall x :: 1 <= x <= k ==> log[x] == v.log[x]) <==>
                k > m.minS || v.log[k] == Placeholder(k, |v.table|))
  {
    GoodRun(s, table, viewID, es);
    var v := Run(s, es).nodes[i];
    assert GoodNode(FactsOf(Run(s, es)), v);
    GoodNodeFits(FactsOf(Run(s, es)), v);
    EntriesKeptIff(v, m);
  }

  lemma EntryKept(v: Replica, m: NewViewMsg, x: int)
    requires Dense(v.log) && |v.log| <= v.total && m.sequenceID >= 1 && 1 <= x < Min(|v.log|, m.sequenceID - 1)
    ensures var log := NewViewDelivered(v, m).log; x in log && x in v.log && log[x] == v.log[x]
  {
    NewViewShape(v, m, x);
  }

  lemma EntriesKeptIff(v: Replica, m: NewViewMsg)
    requires Dense(v.log) && |v.log| <= v.total && m.sequenceID >= 1 && Min(|v.log|, m.sequenceID - 1) >= 1
    ensures var log, k := NewViewDelivered(v, m).log, Min(|v.log|, m.sequenceID - 1);
            && (forall x :: 1 <= x <= k ==> x in v.log && x in log)
            && ((forall x :: 1 <= x <= k ==> log[x] == v.log[x]) <==>
                k > m.minS || v.log[k] == Placeholder(k, |v.table|))
  {
    var log, k := NewViewDelivered(v, m).log, Min(|v.log|, m.sequenceID - 1);
    forall x | 1 <= x <= k ensures x in v.log && x in log {
      NewViewShape(v, m, x);
    }
    forall x | 1 <= x < k ensures log[x] == v.log[x] {
      NewViewShape(v, m, x);
    }
    NewViewShape(v, m, k);
    PrefixKeptIff(v.log, log, k, m.minS, |v.table|);
  }

  lemma PrefixKeptIff(before: Log, log: Log, k: int, minS: int, tableSize: nat)
    requires k >= 1 && tableSize > 0 && forall x :: 1 <= x <= k ==> x in before && x in log
    requires forall x :: 1 <= x < k ==> log[x] == before[x]
    requires log[k] == if k <= minS then Placeholder(k, tableSize) else before[k]
    ensures (forall x :: 1 <= x <= k ==> log[x] == before[x]) <==>
              k > minS || before[k] == Placeholder(k, tableSize)
  {
    assert (forall x :: 1 <= x <= k ==> log[x] == before[x]) <==> log[k] == before[k];
  }

  /** Entries below the last survivor still agree with every replica's log, at any earlier moment. */
  lemma FirstNewViewAgrees(s: System, table: seq<NodeInfo>, viewID: nat, es: seq<Event>,
                           i: nat, m: NewViewMsg, u: nat, j: nat, x: int)
    requires Initial(s, table, viewID) && ValidRun(s, es) && Steady(es)
    requires OneProposal(Run(s, es).net.prepares)
    requires i < |s.nodes| && j < |s.nodes| && u <= |es| && m.sequenceID >= 1
    ensures |Run(s, es).nodes| == |s.nodes|
    ensures ValidRun(s, es[..u]) && |Run(s, es[..u]).nodes| == |s.nodes|
    ensures var v, b := Run(s, es).nodes[i], Run(s, es[..u]).nodes[j].log;
            var log := NewViewDelivered(v, m).log;
            1 <= x < Min(|v.log|, m.sequenceID - 1) && x in b ==>
              && x in log
              && (log[x] == b[x] || (x in Run(s, es).expired && (log[x] == NullPrepare(x) || b[x] == NullPrepare(x))))
  {
    AnyTwoAgree(s, table, viewID, es, |es|, i, u, j, x);
    assert es[..|es|] == es;
    GoodRun(s, table, viewID, es);
    var v := Run(s, es).nodes[i];
    assert GoodNode(FactsOf(Run(s, es)), v);
    GoodNodeFits(FactsOf(Run(s, es)), v);
    if 1 <= x < Min(|v.log|, m.sequenceID - 1) {
      EntryKept(v, m, x);
    }
  }

  // Runs in which this happens

  /** What replica i reports in a view change to k. */
  function Report(g: Group, c: System, k: int, i: nat): ViewChangeMsg
    requires |c.nodes| == |g.table| && i < |g.table|
  {
    ViewChangeMsg(g.table[i].nodeID, k, c.nodes[i].candidate, c.nodes[i].stable)
  }

  predicate Reports(g: Group, c: System, k: int, i: nat, msg: ViewChangeMsg)
    requires |c.nodes| == |g.table|
  {
    i < |g.table| && msg == Report(g, c, k, i)
  }

  /** A message that a replica among the first m truly reports. */
  ghost predicate TrueReport(g: Group, c: System, k: int, m: nat, msg: ViewChangeMsg)
    requires |c.nodes| == |g.table|
  {
    exists i :: 0 <= i < m && Reports(g, c, k, i, msg)
  }

  /** The reports of the first m replicas. */
  function FirstReports(g: Group, c: System, k: int, m: nat): map<NodeID, ViewChangeMsg>
    requires |c.nodes| == |g.table| && m <= |g.table|
  {
    if m == 0 then map[] else FirstReports(g, c, k, m - 1)[g.table[m - 1].nodeID := Report(g, c, k, m - 1)]
  }

  lemma {:induction false} FirstReportsAreMany(g: Group, c: System, k: int, m: nat)
    requires Proper(g) && |c.nodes| == |g.table| && m <= |g.table|
    ensures |FirstReports(g, c, k, m)| == m
    ensures forall i :: m <= i < |g.table| ==> g.table[i].nodeID !in FirstReports(g, c, k, m)
    ensures m >= 1 ==> g.table[0].nodeID in FirstReports(g, c, k, m) &&
                       FirstReports(g, c, k, m)[g.table[0].nodeID] == Report(g, c, k, 0)
  {
    if m > 0 {
      FirstReportsAreMany(g, c, k, m - 1);
      NewKey(FirstReports(g, c, k, m - 1), g.table[m - 1].nodeID, Report(g, c, k, m - 1));
    }
  }

  lemma {:induction false} FirstReportsAreTrue(g: Group, c: System, k: int, m: nat, id: NodeID)
    requires |c.nodes| == |g.table| && m <= |g.table| && id in FirstReports(g, c, k, m)
    ensures TrueReport(g, c, k, m, FirstReports(g, c, k, m)[id])
  {
    if id == g.table[m - 1].nodeID {
      assert Reports(g, c, k, m - 1, FirstReports(g, c, k, m)[id]);
    } else {
      FirstReportsAreTrue(g, c, k, m - 1, id);
      var i :| 0 <= i < m - 1 && Reports(g, c, k, i, FirstReports(g, c, k, m - 1)[id]);
      assert Reports(g, c, k, i, FirstReports(g, c, k, m)[id]);
    }
  }

  /** Replica 0 has executed numbers 1 to k, the other voters none. */
  ghost predicate LedBy0(g: Group, c: System, k: nat) {
    && Proper(g) && |c.nodes| == |g.table| && c.nodes[0].table == g.table
    && c.nodes[0].log == Entries(g, k) && c.nodes[0].stable == k
    && forall i :: 1 <= i < Follower(g) ==> c.nodes[i].stable == 0
  }

  /** Replica 0 has executed k numbers and the other voters none, so their 2f + 1 reports prove k. */
  lemma ReportsProve(g: Group, c: System, k: nat)
    requires k >= 1 && LedBy0(g, c, k)
    ensures IsMinS(FirstReports(g, c, k + 1, Follower(g)), k)
  {
    var msgs := FirstReports(g, c, k + 1, Follower(g));
    FirstReportsAreMany(g, c, k + 1, Follower(g));
    forall id | id in msgs ensures msgs[id].stableCheckPoint <= k {
      FirstReportsAreTrue(g, c, k + 1, Follower(g), id);
      var i :| 0 <= i < Follower(g) && Reports(g, c, k + 1, i, msgs[id]);
      assert i == 0 || c.nodes[i].stable == 0;
    }
    assert msgs[g.table[0].nodeID].stableCheckPoint == k;
  }

  /** A NEW-VIEW message for s made from the true reports of 2f + 1 replicas. */
  ghost predicate Certified(g: Group, c: System, m: NewViewMsg, s: int)
    requires |c.nodes| == |g.table| && |g.table| >= 1
  {
    && m.sequenceID == s && |m.setViewChangeMsgs| == 2 * FaultBound(|g.table|) + 1
    && IsMinS(m.setViewChangeMsgs, m.minS)
    && forall id :: id in m.setViewChangeMsgs ==>
         m.setViewChangeMsgs[id].nodeID == id && TrueReport(g, c, s, |g.table|, m.setViewChangeMsgs[id])
  }

  lemma AmongMore(g: Group, c: System, k: int, m: nat, n: nat, msg: ViewChangeMsg)
    requires |c.nodes| == |g.table| && m <= n && TrueReport(g, c, k, m, msg)
    ensures TrueReport(g, c, k, n, msg)
  {
    var i :| 0 <= i < m && Reports(g, c, k, i, msg);
    assert i < n;
  }

  lemma CertifiedNewView(g: Group, c: System, k: nat) returns (m: NewViewMsg)
    requires k >= 1 && LedBy0(g, c, k)
    ensures Certified(g, c, m, k + 1) && m.minS == k
  {
    var msgs := FirstReports(g, c, k + 1, Follower(g));
    m := NewViewMsg(g.table[0].nodeID, k + 1, 0, 0, msgs, k);
    FirstReportsAreMany(g, c, k + 1, Follower(g));
    ReportsProve(g, c, k);
    forall id | id in msgs ensures msgs[id].nodeID == id && TrueReport(g, c, k + 1, |g.table|, msgs[id]) {
      FirstReportsAreTrue(g, c, k + 1, Follower(g), id);
      FirstReportsAreKeyed(g, c, k + 1, Follower(g), id);
      AmongMore(g, c, k + 1, Follower(g), |g.table|, msgs[id]);
    }
  }

  lemma {:induction false} FirstReportsAreKeyed(g: Group, c: System, k: int, m: nat, id: NodeID)
    requires |c.nodes| == |g.table| && m <= |g.table| && id in FirstReports(g, c, k, m)
    ensures FirstReports(g, c, k, m)[id].nodeID == id
  {
    if id != g.table[m - 1].nodeID {
      FirstReportsAreKeyed(g, c, k, m - 1, id);
    }
  }

  /** Replica 0 has executed the proposal for k, and the NEW-VIEW message m, made from the true reports
      of 2f + 1 replicas, replaces it by a placeholder. */
  ghost predicate Overwrites(g: Group, c: System, m: NewViewMsg, k: nat) {
    && Proper(g) && InRange(k) && |c.nodes| == |g.table| && Certified(g, c, m, k + 1)
    && k in c.nodes[0].log && c.nodes[0].log[k] == Proposal(g, k)
    && var log := NewViewDelivered(c.nodes[0], m).log;
       k in log && log[k] == Placeholder(k, |g.table|) != Proposal(g, k)
  }

  /** For every number k there is a run without faults or timeouts at whose end a view change to k + 1,
      with the checkpoint that the true reports of 2f + 1 replicas prove, replaces the proposal that
      replica 0 has executed for k by a placeholder. */
  lemma ViewChangeOverwrites(g: Group, s: System, k: nat) returns (c: System, m: NewViewMsg)
    requires Proper(g) && Initial(s, g.table, g.viewID) && InRange(k)
    ensures Reachable(s, c, NoViewChange) && c.expired == {} && Overwrites(g, c, m, k)
  {
    SteadyRunsCover(g, s);
    c := LeaderAlone(g, s, k);
    m := CertifiedNewView(g, c, k);
    EntriesDense(g, k);
    EntryOverwritten(g, c.nodes[0], m, k);
  }

  lemma LeaderAlone(g: Group, s: System, k: nat) returns (c: System)
    requires Proper(g) && Initial(s, g.table, g.viewID) && InRange(k)
    ensures Reachable(s, c, NoViewChange) && c.expired == {} && LedBy0(g, c, k)
  {
    FirstRound(g, s, NoViewChange);
    c := LeadsAlone(g, s, k, k + 1);
  }

  lemma LeadsAlone(g: Group, s: System, k: nat, j: nat) returns (c: System)
    requires Reachable(s, s, NoViewChange) && Round(g, s, 1) && InRange(k) && j == k + 1
    ensures Reachable(s, c, NoViewChange) && c.expired == {} && LedBy0(g, c, k)
  {
    c := RoundsFrom(g, s, s, 1, j);
    AfterRound(g, c, k, j);
  }

  lemma AfterRound(g: Group, c: System, k: nat, j: nat)
    requires k >= 1 && j == k + 1 && Round(g, c, j)
    ensures c.expired == {} && LedBy0(g, c, k)
  {}

  /** Without a view change the counter of replica 0 covers its log. */
  ghost predicate Covered(c: System) {
    |c.nodes| > 0 && |c.nodes[0].log| <= c.nodes[0].total
  }

  lemma SteadyRunsCover(g: Group, s: System)
    requires Proper(g) && Initial(s, g.table, g.viewID)
    ensures forall c :: Reachable(s, c, NoViewChange) ==> Covered(c)
  {
    forall c | Reachable(s, c, NoViewChange) ensures Covered(c) {
      var es :| Leads(s, es, c, NoViewChange);
      ExecutorNeverFails(s, g.table, g.viewID, es, 0);
    }
  }

  lemma EntryOverwritten(g: Group, v: Replica, m: NewViewMsg, k: nat)
    requires Proper(g) && k >= 1 && v.log == Entries(g, k) && k <= v.total && v.table == g.table
    requires m.sequenceID == k + 1 && m.minS == k
    ensures k in v.log && v.log[k] == Proposal(g, k)
    ensures var log := NewViewDelivered(v, m).log; k in log && log[k] == Placeholder(k, |g.table|) != Proposal(g, k)
  {
    EntriesDense(g, k);
    NewViewShape(v, m, k);
  }
}
