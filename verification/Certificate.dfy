/** Collecting a certificate of VIEW-CHANGE messages (pbft/consensus/pbft_view_impl.go): calls of
    `ViewChange` as interleaved atomic steps, and the class VCState for calls one after the other. */
module Certificate {
  import opened Messages
  import opened Quorum

  type Msgs = map<NodeID, ViewChangeMsg>

  /** Where a call is: before the locked insert, before the increment, before the test with the
      compare-and-swap, before the snapshot, or done. */
  datatype PC =
    | Start
    | Inserted
    | Counted(count: int)
    | Won
    | Returned(certificate: Option<Msgs>)

  datatype Call = Call(msg: ViewChangeMsg, pc: PC)

  /** The shared log of messages, its counter and its flag, with all calls made so far. */
  datatype Shared = Shared(f: nat, msgs: Msgs, total: int, sent: bool, calls: map<nat, Call>)

  /** A call is made, or a call takes its next step. */
  datatype Event = Begin(id: nat, msg: ViewChangeMsg) | Advance(id: nat)

  function Quiet(f: nat): Shared {
    Shared(f, map[], 0, false, map[])
  }

  function At(c: Shared, id: nat, pc: PC): Shared
    requires id in c.calls
  {
    c.(calls := c.calls[id := c.calls[id].(pc := pc)])
  }

  function Apply(c: Shared, e: Event): Shared {
    match e
    case Begin(id, msg) =>
      if id in c.calls then c else c.(calls := c.calls[id := Call(msg, Start)])
    case Advance(id) =>
      if id !in c.calls then c
      else
        var msg := c.calls[id].msg;
        match c.calls[id].pc
        case Start =>
          if msg.nodeID in c.msgs then At(c, id, Returned(None))
          else At(c, id, Inserted).(msgs := c.msgs[msg.nodeID := msg])
        case Inserted => At(c, id, Counted(c.total + 1)).(total := c.total + 1)
        case Counted(count) =>
          if count >= 2 * c.f + 1 && !c.sent then At(c, id, Won).(sent := true)
          else At(c, id, Returned(None))
        case Won => At(c, id, Returned(Some(c.msgs)))
        case Returned(_) => c
  }

  function RunFrom(c: Shared, es: seq<Event>): Shared {
    if es == [] then c else Apply(RunFrom(c, es[..|es| - 1]), es[|es| - 1])
  }

  /** Any interleaving of calls, from the start. */
  function Run(f: nat, es: seq<Event>): Shared {
    RunFrom(Quiet(f), es)
  }

  /** The calls that have inserted their message but not counted it. */
  function Uncounted(c: Shared): set<nat> {
    set id | id in c.calls && c.calls[id].pc == Inserted
  }

  predicate Wins(pc: PC) {
    pc.Won? || (pc.Returned? && pc.certificate.Some?)
  }

  function Winners(c: Shared): set<nat> {
    set id | id in c.calls && Wins(c.calls[id].pc)
  }

  /** `m` holds at least 2f + 1 of the logged messages. */
  predicate GoodCertificate(c: Shared, m: Msgs) {
    && |m| >= 2 * c.f + 1
    && forall k :: k in m ==> k in c.msgs && m[k] == c.msgs[k]
  }

  predicate CallOK(c: Shared, call: Call) {
    && (call.pc.Start? || call.msg.nodeID in c.msgs)
    && (call.pc.Counted? ==> call.pc.count <= c.total)
    && (call.pc.Won? ==> c.total >= 2 * c.f + 1)
    && (call.pc.Returned? && call.pc.certificate.Some? ==> GoodCertificate(c, call.pc.certificate.value))
  }

  ghost predicate CallsOK(c: Shared) {
    forall id :: id in c.calls ==> CallOK(c, c.calls[id])
  }

  /** Some call was made with this message. */
  ghost predicate Made(c: Shared, msg: ViewChangeMsg) {
    exists id :: id in c.calls && c.calls[id].msg == msg
  }

  ghost predicate MessagesMade(c: Shared) {
    forall k :: k in c.msgs ==> c.msgs[k].nodeID == k && Made(c, c.msgs[k])
  }

  predicate Reaches(c: Shared, id: nat) {
    id in c.calls && c.calls[id].pc.Counted? && c.calls[id].pc.count >= 2 * c.f + 1
  }

  /** Once 2f + 1 messages are counted, a winner exists or some call is about to win. */
  ghost predicate QuorumNotLost(c: Shared) {
    c.total >= 2 * c.f + 1 && !c.sent ==> exists id :: Reaches(c, id)
  }

  predicate CountsMatch(c: Shared) {
    c.total + |Uncounted(c)| == |c.msgs|
  }

  predicate OneWinner(c: Shared) {
    |Winners(c)| == if c.sent then 1 else 0
  }

  /** What every interleaving keeps. */
  ghost predicate Inv(c: Shared) {
    CountsMatch(c) && OneWinner(c) && CallsOK(c) && MessagesMade(c) && QuorumNotLost(c)
  }

  lemma InsertKeepsCounts(c: Shared, id: nat)
    requires CountsMatch(c) && id in c.calls && c.calls[id].pc == Start && c.calls[id].msg.nodeID !in c.msgs
    ensures CountsMatch(Apply(c, Advance(id)))
  {
    var d := Apply(c, Advance(id));
    NewKey(c.msgs, c.calls[id].msg.nodeID, c.calls[id].msg);
    assert d.total == c.total && |d.msgs| == |c.msgs| + 1;
    assert d.calls == c.calls[id := c.calls[id].(pc := Inserted)];
    assert Uncounted(d) == Uncounted(c) + {id};
  }

  lemma CountKeepsCounts(c: Shared, id: nat)
    requires CountsMatch(c) && id in c.calls && c.calls[id].pc == Inserted
    ensures CountsMatch(Apply(c, Advance(id)))
  {
    assert Uncounted(Apply(c, Advance(id))) == Uncounted(c) - {id};
  }

  lemma StepKeepsCounts(c: Shared, e: Event)
    requires CountsMatch(c)
    ensures CountsMatch(Apply(c, e))
  {
    if e.Advance? && e.id in c.calls && c.calls[e.id].pc == Inserted {
      CountKeepsCounts(c, e.id);
    } else if e.Advance? && e.id in c.calls && c.calls[e.id].pc == Start && c.calls[e.id].msg.nodeID !in c.msgs {
      InsertKeepsCounts(c, e.id);
    } else {
      assert Uncounted(Apply(c, e)) == Uncounted(c);
    }
  }

  lemma StepKeepsWinners(c: Shared, e: Event)
    requires OneWinner(c)
    ensures OneWinner(Apply(c, e))
  {
    var d := Apply(c, e);
    if d.sent != c.sent {
      assert Winners(d) == Winners(c) + {e.id};
    } else {
      assert Winners(d) == Winners(c);
    }
  }

  lemma CallStaysOK(c: Shared, d: Shared, call: Call)
    requires CallOK(c, call)
    requires d.f == c.f && d.total >= c.total
    requires forall k :: k in c.msgs ==> k in d.msgs && d.msgs[k] == c.msgs[k]
    ensures CallOK(d, call)
  {}

  lemma SteppedCallOK(c: Shared, e: Event)
    requires CallsOK(c) && CountsMatch(c) && e.id in Apply(c, e).calls
    ensures CallOK(Apply(c, e), Apply(c, e).calls[e.id])
  {
    if e.id in c.calls {
      assert CallOK(c, c.calls[e.id]);
    }
  }

  lemma StepKeepsCalls(c: Shared, e: Event)
    requires CallsOK(c) && CountsMatch(c)
    ensures CallsOK(Apply(c, e))
  {
    var d := Apply(c, e);
    forall id | id in d.calls ensures CallOK(d, d.calls[id]) {
      if id == e.id {
        SteppedCallOK(c, e);
      } else {
        CallStaysOK(c, d, c.calls[id]);
      }
    }
  }

  lemma StepKeepsMessages(c: Shared, e: Event)
    requires MessagesMade(c)
    ensures MessagesMade(Apply(c, e))
  {
    var d := Apply(c, e);
    forall k | k in d.msgs ensures d.msgs[k].nodeID == k && Made(d, d.msgs[k]) {
      var id: nat;
      if k in c.msgs && d.msgs[k] == c.msgs[k] {
        id :| id in c.calls && c.calls[id].msg == c.msgs[k];
      } else {
        id := e.id;
      }
      assert id in d.calls && d.calls[id].msg == d.msgs[k];
    }
  }

  lemma StepKeepsQuorum(c: Shared, e: Event)
    requires QuorumNotLost(c)
    ensures QuorumNotLost(Apply(c, e))
  {
    var d := Apply(c, e);
    if d.total >= 2 * d.f + 1 && !d.sent {
      if d.total != c.total {
        assert Reaches(d, e.id);
      } else {
        var id :| Reaches(c, id);
        assert Reaches(d, id);
      }
    }
  }

  lemma StepKeeps(c: Shared, e: Event)
    requires Inv(c)
    ensures Inv(Apply(c, e)) && Apply(c, e).f == c.f
  {
    StepKeepsCounts(c, e);
    StepKeepsWinners(c, e);
    StepKeepsCalls(c, e);
    StepKeepsMessages(c, e);
    StepKeepsQuorum(c, e);
  }

  lemma QuietOK(f: nat)
    ensures Inv(Quiet(f))
  {
    assert Uncounted(Quiet(f)) == {} && Winners(Quiet(f)) == {};
  }

  lemma {:induction false} RunKeeps(f: nat, es: seq<Event>)
    ensures Inv(Run(f, es)) && Run(f, es).f == f
  {
    if es == [] {
      QuietOK(f);
    } else {
      RunKeeps(f, es[..|es| - 1]);
      StepKeeps(Run(f, es[..|es| - 1]), es[|es| - 1]);
    }
  }

  /** The call has returned a NEW-VIEW message with this set of VIEW-CHANGE messages. */
  predicate ReturnsNewView(c: Shared, id: nat, m: Msgs) {
    id in c.calls && c.calls[id].pc == Returned(Some(m))
  }

  /** In any interleaving at most one call returns a NEW-VIEW message. Its set holds messages of at
      least 2f + 1 distinct senders, each the message of some call. */
  lemma OneCertificate(f: nat, es: seq<Event>, i: nat, mi: Msgs, j: nat, mj: Msgs)
    requires ReturnsNewView(Run(f, es), i, mi) && ReturnsNewView(Run(f, es), j, mj)
    ensures i == j && mi == mj
    ensures |mi| >= 2 * f + 1
    ensures forall k :: k in mi ==> mi[k].nodeID == k && Made(Run(f, es), mi[k])
  {
    RunKeeps(f, es);
    OneWins(Run(f, es), i, mi, j, mj);
  }

  lemma OneWins(c: Shared, i: nat, mi: Msgs, j: nat, mj: Msgs)
    requires Inv(c) && ReturnsNewView(c, i, mi) && ReturnsNewView(c, j, mj)
    ensures i == j && mi == mj && |mi| >= 2 * c.f + 1
    ensures forall k :: k in mi ==> mi[k].nodeID == k && Made(c, mi[k])
  {
    assert i in Winners(c) && j in Winners(c);
    SubsetCardinality({i, j}, Winners(c));
    assert CallOK(c, c.calls[i]);
  }

  /** When all calls have returned, one of them has returned a NEW-VIEW message if and only if the
      calls came from at least 2f + 1 distinct senders. */
  lemma CertificateIff(f: nat, es: seq<Event>)
    requires forall id :: id in Run(f, es).calls ==> Run(f, es).calls[id].pc.Returned?
    ensures (exists id, m :: ReturnsNewView(Run(f, es), id, m))
            <==> |set id | id in Run(f, es).calls :: Run(f, es).calls[id].msg.nodeID| >= 2 * f + 1
  {
    var c := Run(f, es);
    RunKeeps(f, es);
    var senders := set id | id in c.calls :: c.calls[id].msg.nodeID;
    forall k ensures k in senders <==> k in c.msgs {
      if k in c.msgs {
        var id :| id in c.calls && c.calls[id].msg == c.msgs[k];
        assert c.calls[id].msg.nodeID == k;
      }
      if k in senders {
        var id :| id in c.calls && c.calls[id].msg.nodeID == k;
        assert CallOK(c, c.calls[id]);
      }
    }
    assert senders == c.msgs.Keys && |c.msgs| == |c.msgs.Keys|;
    SentIffQuorum(c);
    if c.sent {
      var id :| id in Winners(c);
      assert ReturnsNewView(c, id, c.calls[id].pc.certificate.value);
    } else {
      assert Winners(c) == {};
      assert forall id, m :: ReturnsNewView(c, id, m) ==> id in Winners(c);
    }
  }

  /** A call that nothing interleaves with. */
  function Alone(c: Shared, id: nat, msg: ViewChangeMsg): Shared {
    var step := Advance(id);
    Apply(Apply(Apply(Apply(Apply(c, Begin(id, msg)), step), step), step), step)
  }

  /** Such a call, made when all earlier ones have returned, returns a NEW-VIEW message exactly when
      its sender is the (2f + 1)-th distinct one, and then with all messages so far. */
  lemma AloneReturns(f: nat, es: seq<Event>, id: nat, msg: ViewChangeMsg)
    requires id !in Run(f, es).calls
    requires forall j :: j in Run(f, es).calls ==> Run(f, es).calls[j].pc.Returned?
    ensures var c := Run(f, es);
            var d := Alone(c, id, msg);
            && d.msgs == (if msg.nodeID in c.msgs then c.msgs else c.msgs[msg.nodeID := msg])
            && d.calls == c.calls[id := Call(msg, Returned(
                 if msg.nodeID !in c.msgs && |d.msgs| == 2 * f + 1 then Some(d.msgs) else None))]
  {
    var c := Run(f, es);
    RunKeeps(f, es);
    assert Uncounted(c) == {};
    SentIffQuorum(c);
    AloneFrom(c, id, msg);
  }

  lemma AloneFrom(c: Shared, id: nat, msg: ViewChangeMsg)
    requires id !in c.calls && c.total == |c.msgs| && (c.sent <==> |c.msgs| >= 2 * c.f + 1)
    ensures var d := Alone(c, id, msg);
            && d.msgs == (if msg.nodeID in c.msgs then c.msgs else c.msgs[msg.nodeID := msg])
            && d.calls == c.calls[id := Call(msg, Returned(
                 if msg.nodeID !in c.msgs && |d.msgs| == 2 * c.f + 1 then Some(d.msgs) else None))]
  {
    var step := Advance(id);
    var c1 := Apply(c, Begin(id, msg));
    var c2 := Apply(c1, step);
    if msg.nodeID in c.msgs {
      assert c2.calls[id].pc == Returned(None);
      assert c2 == Alone(c, id, msg);
    } else {
      NewKey(c.msgs, msg.nodeID, msg);
      var c3 := Apply(c2, step);
      var c4 := Apply(c3, step);
      var c5 := Apply(c4, step);
      assert c3.calls[id].pc == Counted(|c2.msgs|);
      assert c5 == Alone(c, id, msg);
    }
  }

  lemma SentIffQuorum(c: Shared)
    requires Inv(c) && forall j :: j in c.calls ==> c.calls[j].pc.Returned?
    ensures c.sent <==> |c.msgs| >= 2 * c.f + 1
  {
    assert Uncounted(c) == {};
    if c.sent {
      var id :| id in Winners(c);
      assert CallOK(c, c.calls[id]);
      var m := c.calls[id].pc.certificate.value;
      SubsetCardinality(m.Keys, c.msgs.Keys);
      assert |m| == |m.Keys| && |c.msgs| == |c.msgs.Keys|;
    }
  }
}
