/** The checkpoint of a NEW-VIEW message lasts: a replica that has adopted it reports at least that much
    from then on, so that no certificate of a later view change can prove less once n - 2f replicas have. */
module Lasting {
  import opened Messages
  import opened Quorum
  import opened ExecutorSpec
  import opened NodeSpec
  import opened Checkpoint
  import opened System
  import opened Agreement
  import opened Refinement
  import opened ViewChange
  import opened Members
  import opened Progress
  import opened Rounds
  import opened Recovery

  // One replica

  /** The replica reports c or more, and its executor goes on from there. */
  predicate Secure(v: Replica, c: int) {
    v.stable >= c && |v.log| >= c
  }

  lemma ArrivalKeepsSecure(v: Replica, p: PrepareMsg, c: int)
    requires Secure(v, c)
    ensures Secure(ArrivalHandled(v, p), c)
  {
    var w := v.(pairs := v.pairs[p.sequenceID := p]);
    var log := Drained(w.log, w.pairs);
    assert w.log.Keys <= log.Keys;
    SubsetCardinality(w.log.Keys, log.Keys);
    assert |w.log| == |w.log.Keys| && |log| == |log.Keys|;
  }

  /** The event is part of a view change at this replica. */
  predicate ChangesView(e: Event, i: nat) {
    !e.Propose? && e.i == i && e.IsViewChange()
  }

  lemma StepKeepsSecure(b: System, e: Event, i: nat, c: int)
    requires Enabled(b, e) && !ChangesView(e, i) && i < |b.nodes| && Secure(b.nodes[i], c)
    ensures |Step(b, e).nodes| == |b.nodes| && Secure(Step(b, e).nodes[i], c)
  {
    if !e.Propose? {
      StepParts(b, e);
      if e.i == i {
        if e.Execute? {
          ArrivalKeepsSecure(b.nodes[i].(exec := b.nodes[i].exec[1..]), b.nodes[i].exec[0].value, c);
        } else {
          ReactionKeepsExecuted(b, e);
        }
      }
    }
  }

  /** No view change at this replica after the first t events. */
  predicate NoneAfter(es: seq<Event>, t: nat, i: nat) {
    forall x :: t <= x < |es| ==> !ChangesView(es[x], i)
  }

  lemma {:induction false} StaysSecure(s: System, part: seq<Event>, es: seq<Event>, i: nat, c: int)
    requires ValidRun(s, es) && part <= es && ValidRun(s, part) && NoneAfter(es, |part|, i)
    requires i < |Run(s, part).nodes| && Secure(Run(s, part).nodes[i], c)
    ensures i < |Run(s, es).nodes| && Secure(Run(s, es).nodes[i], c)
  {
    if part != es {
      var front, e := es[..|es| - 1], es[|es| - 1];
      StaysSecure(s, part, front, i, c);
      StepKeepsSecure(Run(s, front), e, i, c);
    }
  }

  /** Exactly when a NEW-VIEW message secures its checkpoint: the log is as long. */
  lemma AdoptsIff(v: Replica, m: NewViewMsg)
    requires m.sequenceID >= 1
    ensures NewViewDelivered(v, m).stable == m.minS
    ensures Secure(NewViewDelivered(v, m), m.minS) <==> |NewViewDelivered(v, m).log| >= m.minS
  {}

  /** This holds for every dense log that the counter covers, also when no entry survives. */
  lemma CoveredLogAdopts(v: Replica, m: NewViewMsg)
    requires m.sequenceID >= 1 && m.minS >= 0 && Dense(v.log) && |v.log| <= v.total
    ensures Secure(NewViewDelivered(v, m), m.minS)
  {
    AdoptsIff(v, m);
    if Min(|v.log|, m.sequenceID - 1) >= 1 {
      NewViewShape(v, m, 1);
    } else {
      NothingSurvives(v, m);
      FilledFromZero(NewViewDelivered(v, m).log, m.minS);
    }
  }

  lemma NothingSurvives(v: Replica, m: NewViewMsg)
    requires m.sequenceID >= 1 && m.minS >= 0 && Dense(v.log) && |v.log| <= v.total
    requires Min(|v.log|, m.sequenceID - 1) < 1
    ensures forall k :: 0 <= k <= m.minS ==> k in NewViewDelivered(v, m).log
  {
    var w := Rolled(Started(v, m.sequenceID), m.sequenceID);
    assert forall k :: k !in w.log;
    assert MaxKey(w.log.Keys) == 0;
  }

  lemma FilledFromZero(log: Log, n: nat)
    requires forall k :: 0 <= k <= n ==> k in log
    ensures |log| >= n
  {
    var all := map k | 1 <= k <= n :: PrepareMsg(0, k, "", 0, "", 0);
    DenseWhenKeys(all, n);
    assert all.Keys <= log.Keys;
    SubsetCardinality(all.Keys, log.Keys);
    assert |all| == |all.Keys| && |log| == |log.Keys|;
  }

  // Runs

  /** In the t-th event of the run the replica has adopted a checkpoint of at least c, with a log that is as
      long, and has had no view change since. */
  ghost predicate AdoptedAt(s: System, es: seq<Event>, i: nat, c: int, t: nat) {
    && t < |es| && es[t].NewView? && es[t].i == i && es[t].m.minS >= c && NoneAfter(es, t + 1, i)
    && ValidRun(s, es[..t]) && i < |Run(s, es[..t]).nodes| && es[t].m.sequenceID >= 1
    && |NewViewDelivered(Run(s, es[..t]).nodes[i], es[t].m).log| >= es[t].m.minS
  }

  ghost predicate HasAdopted(s: System, es: seq<Event>, i: nat, c: int) {
    exists t: nat :: AdoptedAt(s, es, i, c, t)
  }

  lemma AdoptionStep(b: System, i: nat, m: NewViewMsg, c: int)
    requires i < |b.nodes| && m.sequenceID >= 1 && m.minS >= c && |NewViewDelivered(b.nodes[i], m).log| >= m.minS
    ensures Enabled(b, NewView(i, m)) && i < |Step(b, NewView(i, m)).nodes|
    ensures Secure(Step(b, NewView(i, m)).nodes[i], c)
  {
    StepParts(b, NewView(i, m));
    AdoptsIff(b.nodes[i], m);
  }

  /** A replica that has adopted a checkpoint reports it, or a later one. */
  lemma AdoptedLasts(s: System, es: seq<Event>, i: nat, c: int)
    requires ValidRun(s, es) && HasAdopted(s, es, i, c)
    ensures i < |Run(s, es).nodes| && Run(s, es).nodes[i].stable >= c
  {
    var t: nat :| AdoptedAt(s, es, i, c, t);
    var front, e := es[..t], es[t];
    var more := UpTo(s, es, t);
    AdoptionStep(Run(s, front), i, e.m, c);
    StaysSecure(s, more, es, i, c);
  }

  // Certificates

  /** The replicas whose checkpoint is at least c. */
  function High(g: Group, b: System, c: int): set<NodeID>
    requires |b.nodes| == |g.table|
  {
    set i | 0 <= i < |g.table| && b.nodes[i].stable >= c :: g.table[i].nodeID
  }

  /** What the replicas report in a view change to k, by sender. */
  function Reported(g: Group, b: System, k: int): map<NodeID, int>
    requires |b.nodes| == |g.table|
  {
    var all := FirstReports(g, b, k, |g.table|);
    map id | id in all :: all[id].stableCheckPoint
  }

  lemma {:induction false} ReportOfEach(g: Group, b: System, k: int, m: nat, i: nat)
    requires Proper(g) && |b.nodes| == |g.table| && i < m <= |g.table|
    ensures g.table[i].nodeID in FirstReports(g, b, k, m)
    ensures FirstReports(g, b, k, m)[g.table[i].nodeID] == Report(g, b, k, i)
    decreases m
  {
    if i < m - 1 {
      ReportOfEach(g, b, k, m - 1, i);
    }
  }

  lemma ReportedIs(g: Group, b: System, k: int)
    requires Proper(g) && |b.nodes| == |g.table|
    ensures Ids(g.table) <= Reported(g, b, k).Keys
    ensures forall i :: 0 <= i < |g.table| ==>
              g.table[i].nodeID in Reported(g, b, k) && Reported(g, b, k)[g.table[i].nodeID] == b.nodes[i].stable
  {
    forall i | 0 <= i < |g.table|
      ensures g.table[i].nodeID in Reported(g, b, k) && Reported(g, b, k)[g.table[i].nodeID] == b.nodes[i].stable
    {
      ReportOfEach(g, b, k, |g.table|, i);
    }
    forall id | id in Ids(g.table) ensures id in Reported(g, b, k) {
      var i :| 0 <= i < |g.table| && g.table[i].nodeID == id;
      assert g.table[i].nodeID in Reported(g, b, k);
    }
  }

  lemma ReportersAre(g: Group, b: System, k: int, c: int)
    requires Proper(g) && |b.nodes| == |g.table|
    ensures Reporters(Ids(g.table), Reported(g, b, k), c) == High(g, b, c)
  {
    ReportedIs(g, b, k);
    var report := Reported(g, b, k);
    forall id ensures id in Reporters(Ids(g.table), report, c) <==> id in High(g, b, c) {
      if id in Ids(g.table) {
        var i :| 0 <= i < |g.table| && g.table[i].nodeID == id;
        assert report[g.table[i].nodeID] == b.nodes[i].stable;
        if id in High(g, b, c) {
          var j :| 0 <= j < |g.table| && b.nodes[j].stable >= c && g.table[j].nodeID == id;
          assert i == j;
        }
      }
    }
  }

  /** Whatever 2f + 1 true reports a NEW-VIEW message for k is made from, its checkpoint is at least c. */
  ghost predicate AlwaysProves(g: Group, b: System, k: int, c: int)
    requires |b.nodes| == |g.table| && |g.table| >= 1
  {
    forall m :: Certified(g, b, m, k) ==> m.minS >= c
  }

  lemma CertifiedIsCertificate(g: Group, b: System, k: int, m: NewViewMsg)
    requires Proper(g) && |b.nodes| == |g.table| && Certified(g, b, m, k)
    ensures Certifies(Ids(g.table), Reported(g, b, k), m.setViewChangeMsgs)
  {
    var msgs, report := m.setViewChangeMsgs, Reported(g, b, k);
    DistinctIds(g.table);
    ReportedIs(g, b, k);
    forall id | id in msgs ensures id in Ids(g.table) && id in report && msgs[id].stableCheckPoint == report[id] {
      var i :| 0 <= i < |g.table| && Reports(g, b, k, i, msgs[id]);
      assert g.table[i].nodeID == id;
      assert report[g.table[i].nodeID] == b.nodes[i].stable;
    }
  }

  /** The true reports of these members. */
  function ReportsOf(g: Group, b: System, k: int, low: set<NodeID>): map<NodeID, ViewChangeMsg>
    requires Proper(g) && |b.nodes| == |g.table|
  {
    var all := FirstReports(g, b, k, |g.table|);
    map id | id in low && id in all :: all[id]
  }

  lemma LowReports(g: Group, b: System, k: int, c: int, low: set<NodeID>) returns (m: NewViewMsg)
    requires Proper(g) && |b.nodes| == |g.table| && c > 0 && low <= Ids(g.table) - High(g, b, c)
    requires |low| == 2 * FaultBound(|g.table|) + 1
    ensures Certified(g, b, m, k) && m.minS < c
  {
    var msgs := ReportsOf(g, b, k, low);
    forall id ensures id in msgs <==> id in low {
      if id in low {
        var i :| 0 <= i < |g.table| && g.table[i].nodeID == id;
        ReportOfEach(g, b, k, |g.table|, i);
      }
    }
    assert msgs.Keys == low && |msgs| == |msgs.Keys|;
    var r := HasMinS(msgs);
    m := NewViewMsg("", k, 0, 0, msgs, r);
    forall id | id in msgs
      ensures msgs[id].nodeID == id && TrueReport(g, b, k, |g.table|, msgs[id]) && msgs[id].stableCheckPoint < c
    {
      var i :| 0 <= i < |g.table| && g.table[i].nodeID == id;
      ReportOfEach(g, b, k, |g.table|, i);
      assert Reports(g, b, k, i, msgs[id]);
      assert g.table[i].nodeID !in High(g, b, c);
    }
  }

  /** Exactly when a view change cannot lose a checkpoint: every NEW-VIEW message made from 2f + 1 true
      reports has a checkpoint of at least c if and only if n - 2f replicas have one. */
  lemma AlwaysProvesIff(g: Group, b: System, k: int, c: int)
    requires Proper(g) && |b.nodes| == |g.table| && c > 0
    ensures AlwaysProves(g, b, k, c) <==> |High(g, b, c)| >= |g.table| - 2 * FaultBound(|g.table|)
  {
    var members, high, f := Ids(g.table), High(g, b, c), FaultBound(|g.table|);
    DistinctIds(g.table);
    ReportedIs(g, b, k);
    ReportersAre(g, b, k, c);
    if |high| >= |g.table| - 2 * f {
      CoverageIff(members, Reported(g, b, k), c);
      forall m | Certified(g, b, m, k) ensures m.minS >= c {
        CertifiedIsCertificate(g, b, k, m);
      }
    } else {
      SubsetCardinality(high, members);
      var low := SubsetOfSize(members - high, 2 * f + 1);
      var m := LowReports(g, b, k, c, low);
    }
  }

  /** The replicas that have adopted a checkpoint of at least c. */
  ghost function Adopters(g: Group, s: System, es: seq<Event>, c: int): set<NodeID> {
    set i | 0 <= i < |g.table| && HasAdopted(s, es, i, c) :: g.table[i].nodeID
  }

  lemma AdoptersAreHigh(g: Group, s: System, es: seq<Event>, c: int)
    requires Proper(g) && ValidRun(s, es) && |Run(s, es).nodes| == |g.table|
    ensures Adopters(g, s, es, c) <= High(g, Run(s, es), c)
  {
    forall id | id in Adopters(g, s, es, c) ensures id in High(g, Run(s, es), c) {
      var i :| 0 <= i < |g.table| && HasAdopted(s, es, i, c) && g.table[i].nodeID == id;
      AdoptedLasts(s, es, i, c);
    }
  }

  /** Over all runs, with any view changes: once n - 2f replicas have adopted checkpoints of at least c, each
      in its last view change so far, every NEW-VIEW message made from 2f + 1 true reports carries at least c,
      whatever the replicas have executed since. */
  lemma CheckpointSurvives(g: Group, s: System, es: seq<Event>, c: int, m: NewViewMsg, k: int)
    requires Proper(g) && Initial(s, g.table, g.viewID) && ValidRun(s, es) && c > 0
    requires |Adopters(g, s, es, c)| >= |g.table| - 2 * FaultBound(|g.table|)
    requires |Run(s, es).nodes| == |g.table| && Certified(g, Run(s, es), m, k)
    ensures m.minS >= c
  {
    var b := Run(s, es);
    AdoptersAreHigh(g, s, es, c);
    SubsetCardinality(Adopters(g, s, es, c), High(g, b, c));
    AlwaysProvesIff(g, b, k, c);
  }
}
