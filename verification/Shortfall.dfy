/** Which runs decide on quorums of voters. What fills credit to a VOTE counter is exactly what a
    decision can lack in voters, up to all 2f + 1 of them. */
module Shortfall {
  import opened Messages
  import opened Quorum
  import opened VoteSpec
  import opened System
  import opened Agreement
  import opened StateRuns
  import opened Validity
  import opened Rounds
  import opened Echoes
  import opened Recast
  import opened Members
  import V = VoteRuns

  /** What fills have credited to replica i's VOTE counter of number k in the run. */
  ghost function CreditOf(s: System, es: seq<Event>, i: nat, k: int): nat
    requires ValidRun(s, es) && i < |Run(s, es).nodes| && k in Run(s, es).nodes[i].states
  {
    var v := Run(s, es).nodes[i];
    V.Credits(Origin(v, k), CallsIn(s, es, i, k), |v.table|)
  }

  /** No counter of the run is credited more than c. */
  ghost predicate CreditsUpTo(s: System, es: seq<Event>, c: int)
    requires ValidRun(s, es)
  {
    forall i: nat, k :: i < |Run(s, es).nodes| && k in Run(s, es).nodes[i].states ==> CreditOf(s, es, i, k) <= c
  }

  /** A run without a view change or a Prepare timeout, with one proposal per number and at most c
      credits for each counter. */
  ghost predicate Calm(s: System, es: seq<Event>, c: int) {
    && ValidRun(s, es) && Steady(es) && OneProposal(Run(s, es).net.prepares) && Run(s, es).expired == {}
    && CreditsUpTo(s, es, c)
  }

  /** The t-th event of the run decides number k. */
  ghost predicate DecidesAt(s: System, es: seq<Event>, t: nat, k: int) {
    && t < |es| && ValidRun(s, es[..t]) && Enabled(Run(s, es[..t]), es[t])
    && k in DecidesNow(Run(s, es[..t]), es[t])
  }

  /** The OK voters of the replica that has decided number k in the event e, which led to c, are at most
      d fewer than the quorum. */
  ghost predicate ShortBy(c: System, e: Event, k: int, n: nat, d: int) {
    && !e.Propose? && e.i < |c.nodes| && k in c.nodes[e.i].states
    && var t := c.nodes[e.i].states[k]; |OKVoters(t.votes)| + d >= Needed(e, t, n)
  }

  /** All decisions of the run are within d voters of a quorum. */
  ghost predicate AllWithin(s: System, es: seq<Event>, n: nat, d: int) {
    forall t: nat, k :: DecidesAt(s, es, t, k) ==> ShortBy(Step(Run(s, es[..t]), es[t]), es[t], k, n, d)
  }

  // No decision lacks more than the credits

  lemma {:induction false} CreditsGrow(f: Snapshot, a: seq<V.Op>, b: seq<V.Op>, n: int)
    ensures V.Credits(f, a, n) <= V.Credits(f, a + b, n)
  {
    if b == [] {
      assert a + b == a;
    } else {
      CreditsGrow(f, a, b[..|b| - 1], n);
      assert (a + b)[..|a + b| - 1] == a + b[..|b| - 1];
    }
  }

  /** A step keeps the state of number k, and the fresh state that it has come from. */
  lemma StateStays(c: System, e: Event, i: nat, k: int)
    requires Enabled(c, e) && !e.IsViewChange() && i < |c.nodes| && k in c.nodes[i].states
    ensures |Step(c, e).nodes| == |c.nodes| && k in Step(c, e).nodes[i].states
    ensures Origin(Step(c, e).nodes[i], k) == Origin(c.nodes[i], k)
    ensures |Step(c, e).nodes[i].table| == |c.nodes[i].table|
  {
    if !e.Propose? {
      StepParts(c, e);
      if e.i == i {
        ReactionCalls(c, e, k);
        RunKeepsView(c.nodes[i].states[k], Calls(c, e, i, k), |c.nodes[i].table|);
      }
    }
  }

  lemma {:induction false} CreditStays(s: System, part: seq<Event>, es: seq<Event>, i: nat, k: int)
    requires ValidRun(s, es) && Steady(es) && part <= es && ValidRun(s, part)
    requires i < |Run(s, part).nodes| && k in Run(s, part).nodes[i].states
    ensures i < |Run(s, es).nodes| && k in Run(s, es).nodes[i].states
    ensures CreditOf(s, part, i, k) <= CreditOf(s, es, i, k)
  {
    if part != es {
      var front, e := es[..|es| - 1], es[|es| - 1];
      CreditStays(s, part, front, i, k);
      StateStays(Run(s, front), e, i, k);
      var v := Run(s, front).nodes[i];
      CreditsGrow(Origin(v, k), CallsIn(s, front, i, k), Calls(Run(s, front), e, i, k), |v.table|);
    }
  }

  /** In every run without a view change, a decision lacks at most as many voters as fills have credited
      to the decider. */
  lemma CreditsCoverShortfall(s: System, table: seq<NodeInfo>, viewID: nat, es: seq<Event>, c: int)
    requires Initial(s, table, viewID) && ValidRun(s, es) && Steady(es) && CreditsUpTo(s, es, c)
    ensures AllWithin(s, es, |table|, c)
  {
    forall t: nat, k | DecidesAt(s, es, t, k)
      ensures ShortBy(Step(Run(s, es[..t]), es[t]), es[t], k, |table|, c)
    {
      var front, e := es[..t], es[t];
      var more := UpTo(s, es, t);
      DecisionIsCovered(s, table, viewID, es, front, e, more, k, c);
    }
  }

  lemma DecisionIsCovered(s: System, table: seq<NodeInfo>, viewID: nat, es: seq<Event>, front: seq<Event>, e: Event,
                          more: seq<Event>, k: int, c: int)
    requires Initial(s, table, viewID) && ValidRun(s, es) && Steady(es) && CreditsUpTo(s, es, c)
    requires more == front + [e] && more <= es && ValidRun(s, front) && Enabled(Run(s, front), e)
    requires ValidRun(s, more) && Run(s, more) == Step(Run(s, front), e) && k in DecidesNow(Run(s, front), e)
    ensures ShortBy(Run(s, more), e, k, |table|, c)
  {
    SteadyUpTo(more, es);
    var credit := LacksItsCredit(s, table, viewID, front, e, more, k);
    CreditIsBounded(s, es, more, e.i, k, c);
    ShortByMore(Run(s, more), e, k, |table|, credit, c);
  }

  /** A decision lacks at most what fills have credited to the decider until then. */
  lemma LacksItsCredit(s: System, table: seq<NodeInfo>, viewID: nat, front: seq<Event>, e: Event, more: seq<Event>,
                       k: int) returns (credit: nat)
    requires Initial(s, table, viewID) && ValidRun(s, more) && Steady(more) && more == front + [e]
    requires ValidRun(s, front) && Enabled(Run(s, front), e) && Run(s, more) == Step(Run(s, front), e)
    requires k in DecidesNow(Run(s, front), e)
    ensures ShortBy(Run(s, more), e, k, |table|, credit) && credit == CreditOf(s, more, e.i, k)
  {
    DecisionIsFounded(s, table, viewID, front, e, more, k);
    TableStays(s, table, viewID, more, e.i, k);
    credit := CreditOf(s, more, e.i, k);
  }

  lemma TableStays(s: System, table: seq<NodeInfo>, viewID: nat, es: seq<Event>, i: nat, k: int)
    requires Initial(s, table, viewID) && ValidRun(s, es) && Steady(es) && i < |Run(s, es).nodes|
    ensures Run(s, es).nodes[i].table == table
  {
    GoodRun(s, table, viewID, es);
    StatesAreRuns(s, table, viewID, es, i, k);
  }

  lemma CreditIsBounded(s: System, es: seq<Event>, part: seq<Event>, i: nat, k: int, c: int)
    requires ValidRun(s, es) && Steady(es) && CreditsUpTo(s, es, c) && part <= es && ValidRun(s, part)
    requires i < |Run(s, part).nodes| && k in Run(s, part).nodes[i].states
    ensures CreditOf(s, part, i, k) <= c
  {
    CreditStays(s, part, es, i, k);
  }

  lemma ShortByMore(c: System, e: Event, k: int, n: nat, d: int, more: int)
    requires ShortBy(c, e, k, n, d) && d <= more
    ensures ShortBy(c, e, k, n, more)
  {}

  lemma SteadyUpTo(part: seq<Event>, es: seq<Event>)
    requires Steady(es) && part <= es
    ensures Steady(part)
  {}

  // A run for each number of credits

  /** No call of these is a fill. */
  predicate NoFills(ops: seq<V.Op>) {
    forall x :: 0 <= x < |ops| ==> !ops[x].Fill?
  }

  lemma {:induction false} OthersGetNoFills(s: System, es: seq<Event>, i: nat, k: int)
    requires ValidRun(s, es) && Obeyed(CollatesToLeader, es) && (i != 0 || k != 1)
    ensures NoFills(CallsIn(s, es, i, k))
  {
    if es != [] {
      var front, e := es[..|es| - 1], es[|es| - 1];
      OthersGetNoFills(s, front, i, k);
      assert Obeys(CollatesToLeader, e);
      NoFillNow(Run(s, front), e, i, k);
    }
  }

  lemma NoFillNow(c: System, e: Event, i: nat, k: int)
    requires Enabled(c, e) && Obeys(CollatesToLeader, e) && (i != 0 || k != 1)
    ensures NoFills(Calls(c, e, i, k))
  {}

  /** The credits of a run to a decision on these votes, when collates go to replica 0 only. */
  lemma CreditsOfRun(g: Group, s: System, es: seq<Event>, votes: map<NodeID, VoteMsg>, lack: int)
    requires Proper(g) && Initial(s, g.table, g.viewID) && ValidRun(s, es) && Obeyed(CollatesToLeader, es)
    requires |Run(s, es).nodes| == |g.table| && HasDecided(g, Run(s, es).nodes[0], votes)
    requires lack == Follower(g) - |OKVoters(votes)| >= 0
    ensures CreditsUpTo(s, es, lack)
  {
    var c := Run(s, es);
    forall i: nat, k | i < |c.nodes| && k in c.nodes[i].states ensures CreditOf(s, es, i, k) <= lack {
      CountersOfStates(s, g.table, g.viewID, es, i, k);
      if i != 0 || k != 1 {
        OthersGetNoFills(s, es, i, k);
        V.NoFillNoCredit(Origin(c.nodes[i], k), CallsIn(s, es, i, k), |c.nodes[i].table|);
      }
    }
  }

  /** The last echo decides, on these votes. */
  lemma LastEchoDecides(g: Group, s: System, c: System, votes: map<NodeID, VoteMsg>, lag: nat, last: nat, d: System)
    requires OnTheBrink(g, s, c, votes, lag, last) && Enabled(c, Hear(g, last)) && d == Step(c, Hear(g, last))
    requires HasDecided(g, d.nodes[0], votes) && |d.nodes| == |g.table|
    ensures 1 in DecidesNow(c, Hear(g, last))
    ensures !ShortBy(d, Hear(g, last), 1, |g.table|, Follower(g) - |OKVoters(votes)| - 1)
  {
    LastEchoCounted(g, c.nodes[0], votes, lag, last);
  }

  lemma EndsWith(g: Group, s: System, b: System, votes: map<NodeID, VoteMsg>, lag: nat, last: nat, d: System)
      returns (es: seq<Event>)
    requires OnTheBrink(g, s, b, votes, lag, last) && Enabled(b, Hear(g, last)) && d == Step(b, Hear(g, last))
    requires |d.nodes| == |g.table| && HasDecided(g, d.nodes[0], votes)
    ensures ValidRun(s, es) && Run(s, es) == d && Obeyed(CollatesToLeader, es)
    ensures !AllWithin(s, es, |g.table|, Follower(g) - |OKVoters(votes)| - 1)
  {
    var before :| Leads(s, before, b, CollatesToLeader);
    es := OneMore(s, before, b, Hear(g, last));
    LastEchoDecides(g, s, b, votes, lag, last, d);
    LacksMore(s, es, |before|, 1, |g.table|, Follower(g) - |OKVoters(votes)| - 1);
  }

  lemma IsPeaceful(g: Group, s: System, es: seq<Event>)
    requires ValidRun(s, es) && Obeyed(CollatesToLeader, es) && Proper(g) && Orderly(g, Run(s, es))
    ensures Steady(es) && OneProposal(Run(s, es).net.prepares) && Run(s, es).expired == {}
  {}

  lemma LacksMore(s: System, es: seq<Event>, t: nat, k: int, n: nat, d: int)
    requires DecidesAt(s, es, t, k) && !ShortBy(Step(Run(s, es[..t]), es[t]), es[t], k, n, d)
    ensures !AllWithin(s, es, n, d)
  {}

  lemma OneMore(s: System, before: seq<Event>, b: System, e: Event) returns (es: seq<Event>)
    requires Leads(s, before, b, CollatesToLeader) && Enabled(b, e) && Obeys(CollatesToLeader, e)
    ensures ValidRun(s, es) && Run(s, es) == Step(b, e) && Obeyed(CollatesToLeader, es)
    ensures |es| == |before| + 1 && es[..|before|] == before && es[|before|] == e
  {
    es := before + [e];
    assert es[..|es| - 1] == before;
  }

  /** From where replica 0 holds these votes, echoes lead to its decision on them. */
  lemma EchoesDecide(g: Group, s: System, c: System, votes: map<NodeID, VoteMsg>, lag: nat, m: nat, lack: int)
      returns (es: seq<Event>)
    requires Echoed(g, s, c, votes, lag, m) && Initial(s, g.table, g.viewID)
    requires lack == Follower(g) - |OKVoters(votes)| >= 0
    ensures Calm(s, es, lack) && !AllWithin(s, es, |g.table|, lack - 1)
  {
    var last: nat :| last + 1 == Follower(g) + lag;
    var b := Brink(g, s, c, votes, lag, m, last);
    var d := LastEcho(g, s, b, votes, lag, last);
    es := EndsWith(g, s, b, votes, lag, last, d);
    IsPeaceful(g, s, es);
    CreditsOfRun(g, s, es, votes, lack);
  }

  /** In every group, for each number a of voters below the quorum, none included, a run that decides on
      a voters, and in which fills credit no counter with more than what these lack. */
  lemma DecidesOn(g: Group, s: System, a: nat) returns (es: seq<Event>)
    requires Proper(g) && Initial(s, g.table, g.viewID) && a < Follower(g)
    ensures Calm(s, es, Follower(g) - a) && !AllWithin(s, es, |g.table|, Follower(g) - a - 1)
  {
    if a == 0 {
      var c := NoVoters(g, s);
      NullVotesFacts(g);
      es := EchoesDecide(g, s, c, NullVotes(g), 1, 1, Follower(g));
    } else {
      var c := FirstVoters(g, s, a);
      VotersFacts(g, a);
      es := EchoesDecide(g, s, c, Voters(g, a), 0, a, Follower(g) - a);
    }
  }

  // The exact bounds

  /** No decision can lack more than 2f + 1 voters: no more members are silent than there are. */
  lemma QuorumCoversShortfall(s: System, table: seq<NodeInfo>, viewID: nat, es: seq<Event>)
    requires Initial(s, table, viewID) && ValidRun(s, es) && Steady(es)
    ensures AllWithin(s, es, |table|, 2 * FaultBound(|table|) + 1)
  {
    forall t: nat, k | DecidesAt(s, es, t, k)
      ensures ShortBy(Step(Run(s, es[..t]), es[t]), es[t], k, |table|, 2 * FaultBound(|table|) + 1)
    {
      var front, e := es[..t], es[t];
      var more := UpTo(s, es, t);
      SteadyUpTo(more, es);
      NeedsAtMost(s, table, viewID, front, e, more, k);
    }
  }

  lemma NeedsAtMost(s: System, table: seq<NodeInfo>, viewID: nat, front: seq<Event>, e: Event, more: seq<Event>, k: int)
    requires Initial(s, table, viewID) && ValidRun(s, more) && Steady(more) && more == front + [e]
    requires ValidRun(s, front) && Enabled(Run(s, front), e) && Run(s, more) == Step(Run(s, front), e)
    requires k in DecidesNow(Run(s, front), e)
    ensures ShortBy(Run(s, more), e, k, |table|, 2 * FaultBound(|table|) + 1)
  {
    var credit := LacksItsCredit(s, table, viewID, front, e, more, k);
    GoodRun(s, table, viewID, more);
    StoresMembersOnly(s, table, viewID, more, e.i, k);
    CountersOfStates(s, table, viewID, more, e.i, k);
  }

  /** Fewer credits, or more allowed shortfall, is a weaker demand. */
  lemma Loosen(s: System, es: seq<Event>, n: nat, c: int, more: int)
    requires c <= more
    ensures Calm(s, es, c) ==> Calm(s, es, more)
    ensures AllWithin(s, es, n, c) ==> AllWithin(s, es, n, more)
  {}

  /** All such runs keep their decisions within d voters of a quorum. */
  ghost predicate AlwaysWithin(s: System, n: nat, c: int, d: int) {
    forall es :: Calm(s, es, c) ==> AllWithin(s, es, n, d)
  }

  lemma Covered(g: Group, s: System, es: seq<Event>, c: nat, d: nat)
    requires Proper(g) && Initial(s, g.table, g.viewID) && Calm(s, es, c) && (d >= c || d >= Follower(g))
    ensures AllWithin(s, es, |g.table|, d)
  {
    if d >= c {
      CreditsCoverShortfall(s, g.table, g.viewID, es, c);
      Loosen(s, es, |g.table|, c, d);
    } else {
      QuorumCoversShortfall(s, g.table, g.viewID, es);
      Loosen(s, es, |g.table|, Follower(g), d);
    }
  }

  /** The exact bound on what decisions lack: over the runs in which fills credit at most c to a counter,
      every decision is within d voters of a quorum if and only if d is at least c, or 2f + 1. */
  lemma ShortfallIff(g: Group, s: System, c: nat, d: nat)
    requires Proper(g) && Initial(s, g.table, g.viewID)
    ensures AlwaysWithin(s, |g.table|, c, d) <==> d >= c || d >= 2 * FaultBound(|g.table|) + 1
  {
    if d >= c || d >= Follower(g) {
      forall es | Calm(s, es, c) ensures AllWithin(s, es, |g.table|, d) {
        Covered(g, s, es, c, d);
      }
    } else {
      var es := DecidesOn(g, s, Follower(g) - (d + 1));
      Loosen(s, es, |g.table|, d + 1, c);
    }
  }

  /** The exact condition for decisions on quorums: over the runs in which fills credit at most c to a
      counter, every decision has a quorum of voters if and only if c is 0. */
  lemma QuorumsOnlyIff(g: Group, s: System, c: nat)
    requires Proper(g) && Initial(s, g.table, g.viewID)
    ensures AlwaysWithin(s, |g.table|, c, 0) <==> c == 0
  {
    ShortfallIff(g, s, c, 0);
  }
}
