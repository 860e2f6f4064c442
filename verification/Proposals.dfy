/** Where proposals come from. When only the first number is proposed from outside, each further
    proposal is made by the one primary that its predecessor's number selects, whenever this replica
    handles a PREPARE message for that predecessor. */
module Proposals {
  import opened Messages
  import opened VoteSpec
  import opened ExecutorSpec
  import opened NodeSpec
  import opened Executor
  import opened System
  import opened Agreement
  import opened StateRuns

  /** Only one proposal comes from outside, for number 1. */
  predicate OneFromOutside(es: seq<Event>) {
    forall t, u :: 0 <= t < |es| && 0 <= u < |es| && es[t].Propose? && es[u].Propose? ==>
      es[t].p == es[u].p && es[t].p.sequenceID == 1
  }

  /** Replica i handles a PREPARE message for number k. */
  predicate Handles(e: Event, i: nat, k: int) {
    e.DeliverPrepare? && e.i == i && e.p.sequenceID == k
  }

  function Handlings(es: seq<Event>, i: nat, k: int): nat {
    if es == [] then 0 else Handlings(es[..|es| - 1], i, k) + if Handles(es[|es| - 1], i, k) then 1 else 0
  }

  /** No replica handles more than m PREPARE messages for the same number. */
  ghost predicate HandledUpTo(es: seq<Event>, m: nat) {
    forall i: nat, k :: Handlings(es, i, k) <= m
  }

  lemma {:induction false} HandledBy(es: seq<Event>, t: nat, i: nat, k: int)
    requires t < |es| && Handles(es[t], i, k)
    ensures Handlings(es, i, k) >= 1
  {
    if t < |es| - 1 {
      HandledBy(es[..|es| - 1], t, i, k);
    }
  }

  lemma {:induction false} HandledTwice(es: seq<Event>, t: nat, u: nat, i: nat, k: int)
    requires t < u < |es| && Handles(es[t], i, k) && Handles(es[u], i, k)
    ensures Handlings(es, i, k) >= 2
  {
    var front := es[..|es| - 1];
    if u < |front| {
      HandledTwice(front, t, u, i, k);
    } else {
      HandledBy(front, t, i, k);
    }
  }

  // The origin of each proposal

  /** The proposal p was made in the t-th event: from outside, or by the primary that the number before
      selects, when it handled a PREPARE message for this number. */
  ghost predicate MadeAt(s: System, es: seq<Event>, p: PrepareMsg, t: nat) {
    && t < |es|
    && if es[t].Propose? then es[t].p == p
       else
         && ValidRun(s, es[..t]) && Enabled(Run(s, es[..t]), es[t])
         && Handles(es[t], (p.sequenceID - 1) % VIEWS, p.sequenceID - 1) && p.sequenceID >= 2
         && OutPrepare(p) in Reaction(Run(s, es[..t]), es[t]).1
  }

  predicate Distinct(table: seq<NodeInfo>) {
    forall a, b :: 0 <= a < b < |table| ==> table[a].nodeID != table[b].nodeID
  }

  lemma AnnouncedProposes(v: Replica, p: PrepareMsg, vote: VoteMsg, nextDigest: string, o: Out)
    requires Slot(p.sequenceID) && o in Announced(v, p, vote, nextDigest).1 && o.OutPrepare?
    ensures o in NextProposed(v, p.sequenceID + 1, nextDigest).1
  {}

  /** A replica that handles a PREPARE message proposes the next number only if it is the primary. */
  lemma HandlingProposes(v: Replica, i: nat, p: PrepareMsg, req: Option<RequestMsg>, digest: Option<string>,
                         nextDigest: string, q: PrepareMsg)
    requires Distinct(v.table) && i < |v.table| && v.me == v.table[i] && InRange(p.sequenceID)
    requires OutPrepare(q) in PrepareHandled(v, p, req, digest, nextDigest).1
    ensures q.sequenceID == p.sequenceID + 1 && i == p.sequenceID % VIEWS
  {
    var v0 := Started(v, p.sequenceID);
    var (s, vote) := PrepareNext(v0.states[p.sequenceID], p, req, digest);
    var w := v0.(states := v0.states[p.sequenceID := s]);
    AnnouncedProposes(w, p, vote, nextDigest, OutPrepare(q));
    OneProposer(w, p.sequenceID, i, nextDigest);
  }

  /** Only the handling of a PREPARE message sends proposals. */
  lemma OnlyHandlingProposes(c: System, e: Event, q: PrepareMsg)
    requires Enabled(c, e) && !e.Propose? && OutPrepare(q) in Reaction(c, e).1
    ensures e.DeliverPrepare?
  {}

  lemma NewProposal(c: System, e: Event, table: seq<NodeInfo>, q: PrepareMsg)
    requires Enabled(c, e) && !e.Propose? && OutPrepare(q) in Reaction(c, e).1 && Distinct(table)
    requires e.i < |table| && c.nodes[e.i].me == table[e.i] && c.nodes[e.i].table == table
    ensures Handles(e, (q.sequenceID - 1) % VIEWS, q.sequenceID - 1) && q.sequenceID >= 2
  {
    OnlyHandlingProposes(c, e, q);
    HandlingProposes(c.nodes[e.i], e.i, e.p, e.req, e.digest, e.nextDigest, q);
  }

  /** In every run without a view change, each proposal was made in one of its events. */
  lemma {:induction false} ProposalIsMade(s: System, table: seq<NodeInfo>, viewID: nat, es: seq<Event>, p: PrepareMsg)
      returns (t: nat)
    requires Initial(s, table, viewID) && Distinct(table) && ValidRun(s, es) && Steady(es)
    requires p in Run(s, es).net.prepares
    ensures MadeAt(s, es, p, t)
  {
    var last := |es| - 1;
    var front, e := es[..last], es[last];
    if p in Run(s, front).net.prepares {
      t := ProposalIsMade(s, table, viewID, front, p);
      assert front[..t] == es[..t];
    } else {
      t := last;
      if !e.Propose? {
        StepParts(Run(s, front), e);
        GoodRun(s, table, viewID, front);
        StatesAreRuns(s, table, viewID, front, e.i, 1);
        NewProposal(Run(s, front), e, table, p);
      }
    }
  }

  lemma SentTogether(v: Replica, p: PrepareMsg, req: Option<RequestMsg>, digest: Option<string>,
                     nextDigest: string, a: PrepareMsg, b: PrepareMsg)
    requires Slot(p.sequenceID)
    requires OutPrepare(a) in PrepareHandled(v, p, req, digest, nextDigest).1
    requires OutPrepare(b) in PrepareHandled(v, p, req, digest, nextDigest).1
    ensures a == b
  {
    var v0 := Started(v, p.sequenceID);
    var (s, vote) := PrepareNext(v0.states[p.sequenceID], p, req, digest);
    var w := v0.(states := v0.states[p.sequenceID := s]);
    AnnouncedProposes(w, p, vote, nextDigest, OutPrepare(a));
    AnnouncedProposes(w, p, vote, nextDigest, OutPrepare(b));
  }

  /** Two proposals for one number are the same. */
  lemma MadeOnce(s: System, es: seq<Event>, p: PrepareMsg, t: nat, q: PrepareMsg, u: nat)
    requires MadeAt(s, es, p, t) && MadeAt(s, es, q, u) && p.sequenceID == q.sequenceID
    requires OneFromOutside(es) && HandledUpTo(es, 1)
    ensures p == q
  {
    if !es[t].Propose? && !es[u].Propose? {
      HandledAtOnce(es, t, u, (p.sequenceID - 1) % VIEWS, p.sequenceID - 1);
      MadeTogether(s, es, p, q, t);
    }
  }

  lemma HandledAtOnce(es: seq<Event>, t: nat, u: nat, i: nat, k: int)
    requires t < |es| && u < |es| && Handles(es[t], i, k) && Handles(es[u], i, k) && HandledUpTo(es, 1)
    ensures t == u
  {
    assert Handlings(es, i, k) <= 1;
    if t < u {
      HandledTwice(es, t, u, i, k);
    } else if u < t {
      HandledTwice(es, u, t, i, k);
    }
  }

  lemma MadeTogether(s: System, es: seq<Event>, p: PrepareMsg, q: PrepareMsg, t: nat)
    requires MadeAt(s, es, p, t) && MadeAt(s, es, q, t)
    ensures p == q
  {
    var e := es[t];
    if !e.Propose? {
      SentTogether(Run(s, es[..t]).nodes[e.i], e.p, e.req, e.digest, e.nextDigest, p, q);
    }
  }

  /** One proposal per number: in every run without a view change in which only number 1 is proposed
      from outside and no replica handles two PREPARE messages for one number. */
  lemma OneProposalHolds(s: System, table: seq<NodeInfo>, viewID: nat, es: seq<Event>)
    requires Initial(s, table, viewID) && Distinct(table) && ValidRun(s, es) && Steady(es)
    requires OneFromOutside(es) && HandledUpTo(es, 1)
    ensures OneProposal(Run(s, es).net.prepares)
  {
    var sent := Run(s, es).net.prepares;
    forall p, q | p in sent && q in sent && p.sequenceID == q.sequenceID ensures p == q {
      var t := ProposalIsMade(s, table, viewID, es, p);
      var u := ProposalIsMade(s, table, viewID, es, q);
      MadeOnce(s, es, p, t, q, u);
    }
  }

  /** So the logs of such a run agree, any two of them at any two moments, unless a Prepare timer fires. */
  lemma PrimariesKeepAgreement(s: System, table: seq<NodeInfo>, viewID: nat, es: seq<Event>,
                               t: nat, i: nat, u: nat, j: nat)
    requires Initial(s, table, viewID) && Distinct(table) && ValidRun(s, es) && Steady(es)
    requires OneFromOutside(es) && HandledUpTo(es, 1) && Run(s, es).expired == {}
    requires t <= |es| && u <= |es| && i < |s.nodes| && j < |s.nodes|
    ensures ValidRun(s, es[..t]) && |Run(s, es[..t]).nodes| == |s.nodes|
    ensures ValidRun(s, es[..u]) && |Run(s, es[..u]).nodes| == |s.nodes|
    ensures var a, b := Run(s, es[..t]).nodes[i].log, Run(s, es[..u]).nodes[j].log;
            Dense(a) && Dense(b) && if |a| <= |b| then Extends(a, b) else Extends(b, a)
  {
    OneProposalHolds(s, table, viewID, es);
    PrefixAgreement(s, table, viewID, es, t, i, u, j);
  }

  // A PREPARE message handled twice

  const FIRST: PrepareMsg := PrepareMsg(0, 1, "", 0, "", -1)

  /** Replica 1, the primary of number 2, handles the proposal for number 1. */
  function Handling(nextDigest: string): Event {
    DeliverPrepare(1, FIRST, Some(RequestMsg(0, "client", "operation", "data", 1)), Some(""), nextDigest)
  }

  /** What it proposes then. */
  function Second(v: Replica, nextDigest: string): PrepareMsg {
    PrepareMsg(1, 2, nextDigest, v.epochID, v.me.nodeID, -1)
  }

  lemma HandlingSends(v: Replica, nextDigest: string)
    requires v.me == v.table[1]
    ensures var (u, out) := PrepareHandled(v, FIRST, Handling(nextDigest).req, Some(""), nextDigest);
            OutPrepare(Second(v, nextDigest)) in out && u.me == v.me && u.table == v.table
  {
    var v0 := Started(v, 1);
    var (s, vote) := PrepareNext(v0.states[1], FIRST, Handling(nextDigest).req, Some(""));
    var w := v0.(states := v0.states[1 := s]);
    var proposes := NextProposed(w, 2, nextDigest).1;
    assert proposes == [OutPrepare(Second(v, nextDigest))];
    assert Announced(w, FIRST, vote, nextDigest).1[0] == proposes[0];
  }

  lemma Handled(c: System, nextDigest: string) returns (d: System)
    requires |c.nodes| >= 2 && c.nodes[1].me == c.nodes[1].table[1] && FIRST in c.net.prepares
    ensures Enabled(c, Handling(nextDigest)) && d == Step(c, Handling(nextDigest))
    ensures |d.nodes| == |c.nodes| && d.nodes[1].me == d.nodes[1].table[1] && d.expired == c.expired
    ensures c.net.prepares <= d.net.prepares && Second(c.nodes[1], nextDigest) in d.net.prepares
  {
    var e := Handling(nextDigest);
    assert InRange(FIRST.sequenceID);
    HandlingSends(c.nodes[1], nextDigest);
    StepParts(c, e);
    d := Step(c, e);
    assert OutPrepare(Second(c.nodes[1], nextDigest)) in Reaction(c, e).1;
  }

  lemma HandledAgain(a: System) returns (first: Event, b: System, again: Event, c: System)
    requires |a.nodes| >= 2 && a.nodes[1].me == a.nodes[1].table[1] && FIRST in a.net.prepares
    ensures first.DeliverPrepare? && again.DeliverPrepare?
    ensures Enabled(a, first) && b == Step(a, first) && Enabled(b, again) && c == Step(b, again)
    ensures c.expired == a.expired && !OneProposal(c.net.prepares)
  {
    first, again := Handling("a"), Handling("b");
    b := Handled(a, "a");
    c := Handled(b, "b");
    var p, q := Second(a.nodes[1], "a"), Second(b.nodes[1], "b");
    assert p in c.net.prepares && q in c.net.prepares && p.digest != q.digest;
  }

  lemma {:induction false} FewHandlings(es: seq<Event>, i: nat, k: int)
    ensures Handlings(es, i, k) <= |es|
    ensures |es| >= 1 && es[0].Propose? ==> Handlings(es, i, k) <= |es| - 1
  {
    if es != [] {
      FewHandlings(es[..|es| - 1], i, k);
    }
  }

  lemma AtMostTwice(es: seq<Event>)
    requires |es| == 3 && es[0].Propose?
    ensures HandledUpTo(es, 2)
  {
    forall i: nat, k ensures Handlings(es, i, k) <= 2 {
      FewHandlings(es, i, k);
    }
  }

  lemma OneIsOutside(es: seq<Event>)
    requires |es| == 3 && es[0] == Propose(FIRST) && es[1].DeliverPrepare? && es[2].DeliverPrepare?
    ensures Steady(es) && OneFromOutside(es)
  {}

  lemma ThreeSteps(s: System, es: seq<Event>, a: System, b: System, c: System)
    requires |es| == 3 && Enabled(s, es[0]) && a == Step(s, es[0]) && Enabled(a, es[1]) && b == Step(a, es[1])
    requires Enabled(b, es[2]) && c == Step(b, es[2])
    ensures ValidRun(s, es) && Run(s, es) == c
  {
    assert es[..2][..1] == es[..1] && es[..1][..0] == [];
    assert ValidRun(s, []) && Run(s, []) == s;
    assert ValidRun(s, es[..1]) && Run(s, es[..1]) == a;
    assert ValidRun(s, es[..2]) && Run(s, es[..2]) == b;
  }

  /** The primary that handles the first proposal twice, with other digests each time, proposes number 2
      twice. */
  lemma TwiceProposed(s: System, table: seq<NodeInfo>, viewID: nat) returns (es: seq<Event>)
    requires Initial(s, table, viewID)
    ensures ValidRun(s, es) && Steady(es) && OneFromOutside(es) && HandledUpTo(es, 2)
    ensures Run(s, es).expired == {} && !OneProposal(Run(s, es).net.prepares)
  {
    var e := Propose(FIRST);
    var a := FirstProposed(s, table, viewID, e);
    var first, b, again, c := HandledAgain(a);
    es := Joined(s, e, first, again, a, b, c);
    AtMostTwice(es);
    OneIsOutside(es);
  }

  lemma Joined(s: System, e: Event, first: Event, again: Event, a: System, b: System, c: System)
      returns (es: seq<Event>)
    requires Enabled(s, e) && a == Step(s, e) && Enabled(a, first) && b == Step(a, first)
    requires Enabled(b, again) && c == Step(b, again)
    ensures ValidRun(s, es) && Run(s, es) == c && |es| == 3 && es[0] == e && es[1] == first && es[2] == again
  {
    es := [e, first, again];
    ThreeSteps(s, es, a, b, c);
  }

  lemma FirstProposed(s: System, table: seq<NodeInfo>, viewID: nat, e: Event) returns (a: System)
    requires Initial(s, table, viewID) && e == Propose(FIRST)
    ensures Enabled(s, e) && a == Step(s, e)
    ensures |a.nodes| >= 2 && a.nodes[1].me == a.nodes[1].table[1] && FIRST in a.net.prepares && a.expired == {}
  {
    assert s.nodes[1] == NewNode(table[1], table, viewID);
    a := Step(s, e);
  }

  /** A run whose only proposal from outside is the first, in which no replica handles more than m
      PREPARE messages for one number. */
  ghost predicate Modest(s: System, es: seq<Event>, m: nat) {
    ValidRun(s, es) && Steady(es) && OneFromOutside(es) && HandledUpTo(es, m)
  }

  /** The exact condition: all such runs have one proposal per number if and only if m is at most 1. */
  lemma OneProposalIff(s: System, table: seq<NodeInfo>, viewID: nat, m: nat)
    requires Initial(s, table, viewID) && Distinct(table)
    ensures (forall es :: Modest(s, es, m) ==> OneProposal(Run(s, es).net.prepares)) <==> m <= 1
  {
    if m <= 1 {
      forall es | Modest(s, es, m) ensures OneProposal(Run(s, es).net.prepares) {
        OneProposalHolds(s, table, viewID, es);
      }
    } else {
      var es := TwiceProposed(s, table, viewID);
      assert Modest(s, es, m);
    }
  }
}
