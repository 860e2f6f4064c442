/** The stable checkpoint that a certificate of VIEW-CHANGE messages proves (pbft/network/view.go). */
module Checkpoint {
  import opened Messages
  import opened Quorum
  import opened Certificate

  /** `r` is the maximum of 0 and all reported checkpoints. */
  ghost predicate IsMinS(msgs: Msgs, r: int) {
    && r >= 0
    && (forall k :: k in msgs ==> msgs[k].stableCheckPoint <= r)
    && (r == 0 || exists k :: k in msgs && msgs[k].stableCheckPoint == r)
  }

  /** A certificate in which members report what `report` says. */
  ghost predicate Certifies(members: set<NodeID>, report: map<NodeID, int>, msgs: Msgs) {
    && |members| >= 1
    && msgs.Keys <= members <= report.Keys
    && |msgs| >= 2 * FaultBound(|members|) + 1
    && forall k :: k in msgs ==> msgs[k].stableCheckPoint == report[k]
  }

  /** Whatever certificate is collected, its checkpoint is at least c. */
  ghost predicate AlwaysCovers(members: set<NodeID>, report: map<NodeID, int>, c: int) {
    forall msgs, r {:trigger Certifies(members, report, msgs), IsMinS(msgs, r)} ::
      Certifies(members, report, msgs) && IsMinS(msgs, r) ==> r >= c
  }

  function Reporters(members: set<NodeID>, report: map<NodeID, int>, c: int): set<NodeID> {
    set k | k in members && k in report && report[k] >= c
  }

  /** A checkpoint survives every view change exactly when at least n - 2f members report it
      (f + 1 of them when n = 3f + 1). */
  lemma CoverageIff(members: set<NodeID>, report: map<NodeID, int>, c: int)
    requires |members| >= 1 && members <= report.Keys && c > 0
    ensures AlwaysCovers(members, report, c)
            <==> |Reporters(members, report, c)| >= |members| - 2 * FaultBound(|members|)
  {
    var high := Reporters(members, report, c);
    var f := FaultBound(|members|);
    if |high| >= |members| - 2 * f {
      forall msgs, r | Certifies(members, report, msgs) && IsMinS(msgs, r) ensures r >= c {
        OverlapInPool(members, msgs.Keys, high);
        assert |msgs.Keys| == |msgs|;
        var k :| k in msgs.Keys * high;
      }
    } else {
      SubsetCardinality(high, members);
      var low := SubsetOfSize(members - high, 2 * f + 1);
      var msgs := map k | k in low :: ViewChangeMsg(k, 0, 0, report[k]);
      assert msgs.Keys == low && |msgs| == |msgs.Keys|;
      var r := HasMinS(msgs);
      assert Certifies(members, report, msgs) && IsMinS(msgs, r);
    }
  }

  lemma {:induction false} HasMinS(msgs: Msgs) returns (r: int)
    ensures IsMinS(msgs, r)
    decreases |msgs.Keys|
  {
    if msgs.Keys == {} {
      r := 0;
    } else {
      var k :| k in msgs.Keys;
      var rest := msgs - {k};
      assert rest.Keys == msgs.Keys - {k};
      var q := HasMinS(rest);
      r := if msgs[k].stableCheckPoint > q then msgs[k].stableCheckPoint else q;
      forall j | j in msgs ensures msgs[j].stableCheckPoint <= r {
        assert j == k || (j in rest && rest[j] == msgs[j]);
      }
      if r == q && q != 0 {
        var j :| j in rest && rest[j].stableCheckPoint == q;
        assert j in msgs && msgs[j].stableCheckPoint == r;
      }
    }
  }

  /** Over any interleaving: if members only send what `report` says and at least n - 2f of them
      report c or more, then the NEW-VIEW message that a call returns carries a checkpoint of at
      least c. */
  lemma NewViewCovers(members: set<NodeID>, report: map<NodeID, int>, c: int,
                      es: seq<Event>, id: nat, msgs: Msgs, r: int)
    requires |members| >= 1 && members <= report.Keys && c > 0
    requires |Reporters(members, report, c)| >= |members| - 2 * FaultBound(|members|)
    requires forall e :: e in es && e.Begin? ==>
               e.msg.nodeID in members && e.msg.stableCheckPoint == report[e.msg.nodeID]
    requires ReturnsNewView(Run(FaultBound(|members|), es), id, msgs) && IsMinS(msgs, r)
    ensures r >= c
  {
    var f := FaultBound(|members|);
    OneCertificate(f, es, id, msgs, id, msgs);
    forall k | k in msgs ensures k in members && msgs[k].stableCheckPoint == report[k] {
      MadeByEvent(f, es, msgs[k]);
    }
    assert Certifies(members, report, msgs);
    CoverageIff(members, report, c);
  }

  lemma {:induction false} MadeByEvent(f: nat, es: seq<Event>, msg: ViewChangeMsg)
    requires Made(Run(f, es), msg)
    ensures exists e :: e in es && e.Begin? && e.msg == msg
  {
    var last := |es| - 1;
    var c := Run(f, es[..last]);
    if Made(c, msg) {
      MadeByEvent(f, es[..last], msg);
      var e :| e in es[..last] && e.Begin? && e.msg == msg;
      assert e in es;
    } else {
      var id :| id in Run(f, es).calls && Run(f, es).calls[id].msg == msg;
      assert es[last] in es;
    }
  }
}
