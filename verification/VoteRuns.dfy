/** What every run of one consensus state keeps, and what its decisions mean. */
module VoteRuns {
  import opened Messages
  import opened Quorum
  import opened VoteSpec

  /** A call on a consensus state. */
  datatype Op =
    | Cast(vote: VoteMsg)
    | NilVote
    | Fill(collate: CollateMsg)
    | AddCollate(collate: CollateMsg)
    | DoPrepare(prepare: PrepareMsg, req: Option<RequestMsg>, digest: Option<string>)

  function Next(s: Snapshot, op: Op, n: int): Snapshot {
    match op
    case Cast(v) => VoteNext(s, Some(v), n).0
    case NilVote => VoteNext(s, None, n).0
    case Fill(c) => FillNext(s, c)
    case AddCollate(c) => CollateNext(s, c).0
    case DoPrepare(p, req, digest) => PrepareNext(s, p, req, digest).0
  }

  function Run(s: Snapshot, ops: seq<Op>, n: int): Snapshot {
    if ops == [] then s else Next(Run(s, ops[..|ops| - 1], n), ops[|ops| - 1], n)
  }

  /** What the k-th call of a run answers, for a call that casts a vote. */
  function Answer(s: Snapshot, ops: seq<Op>, k: nat, n: int): MsgType
    requires k < |ops| && ops[k].Cast?
  {
    VoteNext(Run(s, ops[..k], n), Some(ops[k].vote), n).1.collate.msgType
  }

  /** How often `Vote` answers COMMITTED in a run. */
  function Commits(s: Snapshot, ops: seq<Op>, n: int): nat {
    if ops == [] then 0
    else
      var k := |ops| - 1;
      Commits(s, ops[..k], n) + if ops[k].Cast? && Answer(s, ops, k, n) == COMMITTED then 1 else 0
  }

  /** What the fills of a run add to the count of VOTE messages. */
  function Credits(s: Snapshot, ops: seq<Op>, n: int): nat {
    if ops == [] then 0
    else
      var k := |ops| - 1;
      Credits(s, ops[..k], n) +
      if ops[k].Fill? then |Credited(Run(s, ops[..k], n).votes, ops[k].collate.receivedVoteMsg)| else 0
  }

  function Fills(ops: seq<Op>): nat {
    if ops == [] then 0 else Fills(ops[..|ops| - 1]) + if ops[|ops| - 1].Fill? then 1 else 0
  }

  predicate IsFresh(s: Snapshot, n: nat) {
    && n >= 1
    && s == Fresh(s.viewID, s.nodeID, n, s.sequenceID)
  }

  // The counters

  lemma TallyKeepsExact(s: Snapshot, v: VoteMsg)
    requires v.nodeID !in s.votes
    ensures |Tally(s, v).votes| == |s.votes| + 1
    ensures |OKVoters(Tally(s, v).votes)| == |OKVoters(s.votes)| + if v.msgType == VOTE then 1 else 0
  {
    NewKey(s.votes, v.nodeID, v);
    OneMoreVoter(s.votes, v);
  }

  lemma OneMoreVoter(votes: map<NodeID, VoteMsg>, v: VoteMsg)
    requires v.nodeID !in votes
    ensures |OKVoters(votes[v.nodeID := v])| == |OKVoters(votes)| + if v.msgType == VOTE then 1 else 0
  {
    var after := votes[v.nodeID := v];
    if v.msgType == VOTE {
      assert OKVoters(after) == OKVoters(votes) + {v.nodeID};
    } else {
      assert OKVoters(after) == OKVoters(votes);
    }
  }

  /** The ledger: what each counter holds after any run. Fills alone keep the count of VOTE
      messages from being the number of OK voters. */
  lemma {:induction false} Ledger(s: Snapshot, ops: seq<Op>, n: nat)
    requires IsFresh(s, n)
    ensures var t := Run(s, ops, n);
            && t.totalVote == |t.votes|
            && t.totalCollate == |t.collates|
            && t.totalOK == |OKVoters(t.votes)| + Credits(s, ops, n)
            && t.f == FaultBound(n) && t.viewID == s.viewID
  {
    if ops == [] {
      assert OKVoters(s.votes) == {};
    } else {
      var k := |ops| - 1;
      Ledger(s, ops[..k], n);
      LedgerStep(Run(s, ops[..k], n), ops[k], n);
    }
  }

  /** What one call adds to each counter, and to what it counts. */
  lemma LedgerStep(t: Snapshot, op: Op, n: nat)
    ensures var u := Next(t, op, n);
            && u.totalVote - |u.votes| == t.totalVote - |t.votes|
            && u.totalCollate - |u.collates| == t.totalCollate - |t.collates|
            && u.totalOK - |OKVoters(u.votes)| == t.totalOK - |OKVoters(t.votes)| +
                 (if op.Fill? then |Credited(t.votes, op.collate.receivedVoteMsg)| else 0)
            && u.f == t.f && u.viewID == t.viewID
  {
    match op {
      case Cast(v) =>
        if v.nodeID !in t.votes {
          NewVoteIsTallied(t, v, n);
          TallyKeepsExact(t, v);
        }
      case AddCollate(c) => if c.nodeID !in t.collates { NewKey(t.collates, c.nodeID, c); }
      case _ => assert Next(t, op, n).votes == t.votes;
    }
  }

  lemma NextGrows(s: Snapshot, op: Op, n: int)
    ensures s.votes.Keys <= Next(s, op, n).votes.Keys
    ensures s.totalOK <= Next(s, op, n).totalOK
  {
    match op
    case Cast(v) =>
    case _ =>
  }

  lemma {:induction false} VotesGrow(s: Snapshot, ops: seq<Op>, k: nat, n: nat)
    requires k <= |ops|
    ensures Run(s, ops[..k], n).votes.Keys <= Run(s, ops, n).votes.Keys
    ensures Run(s, ops[..k], n).totalOK <= Run(s, ops, n).totalOK
  {
    if k == |ops| {
      assert ops[..k] == ops;
    } else {
      var last := |ops| - 1;
      VotesGrow(s, ops[..last], k, n);
      assert ops[..last][..k] == ops[..k];
      NextGrows(Run(s, ops[..last], n), ops[last], n);
    }
  }

  lemma {:induction false} CreditsBound(s: Snapshot, ops: seq<Op>, n: nat)
    ensures Credits(s, ops, n) <= |Run(s, ops, n).votes| * Fills(ops)
  {
    if ops != [] {
      var k := |ops| - 1;
      CreditsBound(s, ops[..k], n);
      VotesGrow(s, ops, k, n);
      var before, after := Run(s, ops[..k], n).votes, Run(s, ops, n).votes;
      FewerKeys(before, after);
      MulMonotone(|before|, |after|, Fills(ops[..k]));
      if ops[k].Fill? {
        CreditedAreVoters(before, ops[k].collate.receivedVoteMsg);
        MulSucc(|after|, Fills(ops[..k]));
      }
    }
  }

  lemma FewerKeys<V>(a: map<NodeID, V>, b: map<NodeID, V>)
    requires a.Keys <= b.Keys
    ensures |a| <= |b|
  {
    SubsetCardinality(a.Keys, b.Keys);
    assert |a| == |a.Keys| && |b| == |b.Keys|;
  }

  lemma CreditedAreVoters(votes: map<NodeID, VoteMsg>, received: map<NodeID, VoteMsg>)
    ensures |Credited(votes, received)| <= |votes|
  {
    SubsetCardinality(Credited(votes, received), votes.Keys);
    assert |votes| == |votes.Keys|;
  }

  lemma MulMonotone(a: nat, b: nat, c: nat)
    requires a <= b
    ensures a * c <= b * c
  {}

  lemma MulSucc(a: nat, c: nat)
    ensures a * (c + 1) == a * c + a
  {}

  /** The count of VOTE messages lies between the OK voters and voters * (1 + fills). Together
      with the bound 2^31 this says when the 32-bit counters cannot wrap around. */
  lemma CounterBound(s: Snapshot, ops: seq<Op>, n: nat)
    requires IsFresh(s, n)
    ensures var t := Run(s, ops, n);
            |OKVoters(t.votes)| <= t.totalOK <= |t.votes| * (1 + Fills(ops))
  {
    Ledger(s, ops, n);
    CreditsBound(s, ops, n);
    var t := Run(s, ops, n);
    SubsetCardinality(OKVoters(t.votes), t.votes.Keys);
    MulSucc(|t.votes|, Fills(ops));
  }

  /** The k-th call is no fill, or one that credits nobody. */
  predicate CreditsNobody(s: Snapshot, ops: seq<Op>, k: nat, n: int)
    requires k < |ops|
  {
    ops[k].Fill? ==> Credited(Run(s, ops[..k], n).votes, ops[k].collate.receivedVoteMsg) == {}
  }

  /** The count of VOTE messages is the number of OK voters exactly when no fill of the run met an
      own voter for whom the sender held another VOTE message. */
  lemma {:induction false} ExactIffNoCredit(s: Snapshot, ops: seq<Op>, n: nat)
    requires IsFresh(s, n)
    ensures Run(s, ops, n).totalOK == |OKVoters(Run(s, ops, n).votes)|
            <==> forall k :: 0 <= k < |ops| ==> CreditsNobody(s, ops, k, n)
  {
    Ledger(s, ops, n);
    NoCredits(s, ops, n);
  }

  lemma {:induction false} NoCredits(s: Snapshot, ops: seq<Op>, n: nat)
    ensures Credits(s, ops, n) == 0
            <==> forall k :: 0 <= k < |ops| ==> CreditsNobody(s, ops, k, n)
  {
    if ops != [] {
      var last := |ops| - 1;
      NoCredits(s, ops[..last], n);
      forall k | 0 <= k < last ensures CreditsNobody(s, ops[..last], k, n) <==> CreditsNobody(s, ops, k, n) {
        assert ops[..last][..k] == ops[..k];
      }
      assert Credits(s, ops, n) == 0 <==> Credits(s, ops[..last], n) == 0 && CreditsNobody(s, ops, last, n);
    }
  }

  /** In any run, fills included, `Vote` answers COMMITTED at most once, and afterwards the count of
      VOTE messages stays at 2f + 1 or more. */
  lemma {:induction false} CommitsAtMostOnce(s: Snapshot, ops: seq<Op>, n: nat)
    requires IsFresh(s, n)
    ensures Commits(s, ops, n) <= 1
    ensures Commits(s, ops, n) == 1 ==> Run(s, ops, n).totalOK >= 2 * FaultBound(n) + 1
  {
    if ops != [] {
      var k := |ops| - 1;
      CommitsAtMostOnce(s, ops[..k], n);
      Ledger(s, ops[..k], n);
      VotesGrow(s, ops, k, n);
    }
  }

  // Feeding votes in any order

  function Casts(votes: seq<VoteMsg>): (ops: seq<Op>)
    ensures |ops| == |votes| && forall k :: 0 <= k < |votes| ==> ops[k] == Cast(votes[k])
  {
    seq(|votes|, i requires 0 <= i < |votes| => Cast(votes[i]))
  }

  function CountOK(votes: seq<VoteMsg>): nat {
    if votes == [] then 0
    else CountOK(votes[..|votes| - 1]) + if votes[|votes| - 1].msgType == VOTE then 1 else 0
  }

  predicate DistinctVoters(votes: seq<VoteMsg>) {
    forall i, j :: 0 <= i < j < |votes| ==> votes[i].nodeID != votes[j].nodeID
  }

  /** The vote is for the view and the number of the state. */
  predicate Accepts(s: Snapshot, v: VoteMsg) {
    v.viewID == s.viewID && v.sequenceID == s.sequenceID
  }

  /** Votes of distinct voters that the state accepts. */
  predicate ValidVotes(s: Snapshot, votes: seq<VoteMsg>) {
    DistinctVoters(votes) && forall i :: 0 <= i < |votes| ==> Accepts(s, votes[i])
  }

  lemma NewVoteIsTallied(t: Snapshot, v: VoteMsg, n: nat)
    requires v.nodeID !in t.votes
    ensures VoteNext(t, Some(v), n).0 == Tally(t, v)
  {}

  lemma NotYetVoted(t: Snapshot, votes: seq<VoteMsg>, k: nat)
    requires k < |votes|
    requires forall i, j :: 0 <= i < j < |votes| ==> votes[i].nodeID != votes[j].nodeID
    requires forall id :: id in t.votes ==> exists v :: v in votes[..k] && v.nodeID == id
    ensures votes[k].nodeID !in t.votes
  {
    assert forall v :: v in votes[..k] ==> v.nodeID != votes[k].nodeID;
  }

  /** Feeding votes of distinct voters, of whatever view and number, stores exactly these and counts them. */
  lemma {:induction false} FeedState(s: Snapshot, votes: seq<VoteMsg>, n: nat)
    requires IsFresh(s, n) && DistinctVoters(votes)
    ensures var t := Run(s, Casts(votes), n);
            && t == s.(votes := t.votes, totalVote := |votes|, totalOK := CountOK(votes))
            && (forall v :: v in votes ==> v.nodeID in t.votes && t.votes[v.nodeID] == v)
            && (forall id :: id in t.votes ==> exists v :: v in votes && v.nodeID == id)
  {
    if votes != [] {
      var k := |votes| - 1;
      FeedState(s, votes[..k], n);
      assert Casts(votes)[..k] == Casts(votes[..k]);
      var t := Run(s, Casts(votes[..k]), n);
      NotYetVoted(t, votes, k);
      NewVoteIsTallied(t, votes[k], n);
      var u := Tally(t, votes[k]);
      assert Run(s, Casts(votes), n) == u;
      forall v | v in votes ensures v.nodeID in u.votes && u.votes[v.nodeID] == v {
        if v != votes[k] {
          assert v in votes[..k];
        }
      }
      forall id | id in u.votes ensures exists v :: v in votes && v.nodeID == id {
        if id == votes[k].nodeID {
          assert votes[k] in votes;
        } else {
          var v :| v in votes[..k] && v.nodeID == id;
          assert v in votes;
        }
      }
    }
  }

  /** What `Vote` answers at each point, from the votes alone: COMMITTED at the vote that makes 2f + 1,
      UNCOMMITTED at the n-th vote only, when it is not a VOTE or the VOTEs are at most 2f; and neither
      to a vote of another view or number, although it has been counted. */
  lemma AnswerAt(s: Snapshot, votes: seq<VoteMsg>, k: nat, n: nat)
    requires IsFresh(s, n) && DistinctVoters(votes) && k < |votes|
    ensures var answer, ok := Answer(s, Casts(votes), k, n), CountOK(votes[..k + 1]);
            && (answer == COMMITTED <==>
                Accepts(s, votes[k]) && votes[k].msgType == VOTE && ok == 2 * FaultBound(n) + 1)
            && (answer == UNCOMMITTED <==>
                Accepts(s, votes[k]) && k + 1 == n && (votes[k].msgType != VOTE || ok <= 2 * FaultBound(n)))
  {
    FeedState(s, votes[..k], n);
    assert Casts(votes)[..k] == Casts(votes[..k]);
    assert votes[..k + 1][..k] == votes[..k];
    var t := Run(s, Casts(votes[..k]), n);
    NotYetVoted(t, votes, k);
    AnswerToNew(t, votes[k], n);
  }

  lemma AnswerToNew(t: Snapshot, v: VoteMsg, n: nat)
    requires v.nodeID !in t.votes
    ensures var answer, ok := VoteNext(t, Some(v), n).1.collate.msgType, Tally(t, v).totalOK;
            && (answer == COMMITTED <==> Accepts(t, v) && v.msgType == VOTE && ok == 2 * t.f + 1)
            && (answer == UNCOMMITTED <==>
                Accepts(t, v) && t.totalVote + 1 == n && (v.msgType != VOTE || (ok < 2 * t.f + 1)))
  {}

  /** COMMITTED is answered exactly once when 2f + 1 of the votes are VOTE, and never otherwise. */
  lemma {:induction false} CommitsIffQuorum(s: Snapshot, votes: seq<VoteMsg>, n: nat)
    requires IsFresh(s, n) && ValidVotes(s, votes)
    ensures Commits(s, Casts(votes), n) == if CountOK(votes) >= 2 * FaultBound(n) + 1 then 1 else 0
  {
    if votes != [] {
      var k := |votes| - 1;
      CommitsIffQuorum(s, votes[..k], n);
      assert Casts(votes)[..k] == Casts(votes[..k]);
      AnswerAt(s, votes, k, n);
      assert votes[..k + 1] == votes;
    }
  }

  lemma SameElements<T>(a: seq<T>, b: seq<T>)
    requires multiset(a) == multiset(b)
    ensures |a| == |b| && forall x :: x in a <==> x in b
  {
    assert |a| == |multiset(a)| == |multiset(b)| == |b|;
    forall x ensures x in a <==> x in b {
      assert x in a <==> x in multiset(a);
      assert x in b <==> x in multiset(b);
    }
  }

  lemma StoredAlike(m1: map<NodeID, VoteMsg>, m2: map<NodeID, VoteMsg>, a: seq<VoteMsg>, b: seq<VoteMsg>)
    requires forall v :: v in a <==> v in b
    requires forall v :: v in a ==> v.nodeID in m1 && m1[v.nodeID] == v
    requires forall v :: v in b ==> v.nodeID in m2 && m2[v.nodeID] == v
    requires forall id :: id in m1 ==> exists v :: v in a && v.nodeID == id
    requires forall id :: id in m2 ==> exists v :: v in b && v.nodeID == id
    ensures m1 == m2
  {}

  lemma CastsAreExact(s: Snapshot, votes: seq<VoteMsg>, n: nat)
    requires IsFresh(s, n) && DistinctVoters(votes)
    ensures CountOK(votes) == |OKVoters(Run(s, Casts(votes), n).votes)|
  {
    FeedState(s, votes, n);
    Ledger(s, Casts(votes), n);
    NoFillNoCredit(s, Casts(votes), n);
  }

  /** Feeding the same votes in another order leads to the same state and to the same number of
      COMMITTED answers. */
  lemma VoteOrderIndependence(s: Snapshot, votes: seq<VoteMsg>, other: seq<VoteMsg>, n: nat)
    requires IsFresh(s, n) && ValidVotes(s, votes) && ValidVotes(s, other)
    requires multiset(votes) == multiset(other)
    ensures Run(s, Casts(votes), n) == Run(s, Casts(other), n)
    ensures Commits(s, Casts(votes), n) == Commits(s, Casts(other), n)
  {
    FeedState(s, votes, n);
    FeedState(s, other, n);
    var t, u := Run(s, Casts(votes), n), Run(s, Casts(other), n);
    SameElements(votes, other);
    StoredAlike(t.votes, u.votes, votes, other);
    CastsAreExact(s, votes, n);
    CastsAreExact(s, other, n);
    CommitsIffQuorum(s, votes, n);
    CommitsIffQuorum(s, other, n);
  }

  lemma {:induction false} NoFillNoCredit(s: Snapshot, ops: seq<Op>, n: nat)
    requires forall k :: 0 <= k < |ops| ==> !ops[k].Fill?
    ensures Credits(s, ops, n) == 0
  {
    if ops != [] {
      NoFillNoCredit(s, ops[..|ops| - 1], n);
    }
  }

  // Adaptive decisions

  /** The counters match the stored votes, and all voters are members. */
  ghost predicate Exact(s: Snapshot, members: set<NodeID>) {
    && |members| >= 1
    && s.f == FaultBound(|members|)
    && s.votes.Keys <= members
    && s.totalVote == |s.votes|
    && s.totalOK == |OKVoters(s.votes)|
  }

  /** The adaptive verdict in terms of the voters: enough votes were received, and few enough of
      them are not VOTE. */
  lemma VerdictMeaning(s: Snapshot, members: set<NodeID>)
    requires Exact(s, members)
    ensures var n, f := |members|, s.f;
            VoteVerdict(s, n) == COMMITTED
            <==> |s.votes.Keys - OKVoters(s.votes)| <= n - 2 * f - 1 && |s.votes| >= n - 2 * f
    ensures VoteVerdict(s, |members|) == COMMITTED
            <==> AdaptiveQuorum(members, members - s.votes.Keys, OKVoters(s.votes))
  {
    SubsetCardinality(OKVoters(s.votes), s.votes.Keys);
    SubsetCardinality(s.votes.Keys, members);
    assert OKVoters(s.votes) <= members - (members - s.votes.Keys);
  }

  /** Progress: members that are silent or do not answer VOTE cannot keep the rest from committing
      as long as they number at most f. */
  lemma AdaptiveProgress(s: Snapshot, members: set<NodeID>)
    requires Exact(s, members)
    requires |members - OKVoters(s.votes)| <= s.f
    ensures VoteVerdict(s, |members|) == COMMITTED
  {
    var ok := OKVoters(s.votes);
    SubsetCardinality(ok, members);
    SubsetCardinality(ok, s.votes.Keys);
    SubsetCardinality(s.votes.Keys, members);
  }

  /** A VOTE that arrives later keeps a COMMITTED verdict, valid or not. */
  lemma VerdictKept(s: Snapshot, members: set<NodeID>, v: VoteMsg)
    requires Exact(s, members) && VoteVerdict(s, |members|) == COMMITTED
    requires v.msgType == VOTE && v.nodeID in members
    ensures VoteVerdict(VoteNext(s, Some(v), |members|).0, |members|) == COMMITTED
    ensures Exact(VoteNext(s, Some(v), |members|).0, members)
  {
    if v.nodeID !in s.votes {
      TallyKeepsExact(s, v);
      assert Tally(s, v).votes.Keys == s.votes.Keys + {v.nodeID};
    }
  }

  /** A run that only members vote in and whose fills credit nobody. */
  ghost predicate ExactRun(s: Snapshot, ops: seq<Op>, members: set<NodeID>) {
    && IsFresh(s, |members|)
    && (forall k :: 0 <= k < |ops| && ops[k].Cast? ==> ops[k].vote.nodeID in members)
    && Credits(s, ops, |members|) == 0
  }

  lemma {:induction false} VotersAreMembers(s: Snapshot, ops: seq<Op>, members: set<NodeID>)
    requires IsFresh(s, |members|)
    requires forall k :: 0 <= k < |ops| && ops[k].Cast? ==> ops[k].vote.nodeID in members
    ensures Run(s, ops, |members|).votes.Keys <= members
  {
    if ops != [] {
      VotersAreMembers(s, ops[..|ops| - 1], members);
    }
  }

  lemma ExactRunIsExact(s: Snapshot, ops: seq<Op>, members: set<NodeID>)
    requires ExactRun(s, ops, members)
    ensures Exact(Run(s, ops, |members|), members)
  {
    Ledger(s, ops, |members|);
    VotersAreMembers(s, ops, members);
  }

  /** In every run in which `Vote` has answered COMMITTED, the adaptive verdict is COMMITTED too. */
  ghost predicate FastImpliesAdaptive(s: Snapshot, members: set<NodeID>) {
    forall ops :: ExactRun(s, ops, members) && Commits(s, ops, |members|) >= 1 ==>
      VoteVerdict(Run(s, ops, |members|), |members|) == COMMITTED
  }

  /** The fast path implies the adaptive path exactly when n <= 4f + 1: for every n but 2, 3 and 6,
      and so for every n = 3f + 1. */
  lemma FastImpliesAdaptiveIff(s: Snapshot, members: set<NodeID>)
    requires IsFresh(s, |members|)
    ensures FastImpliesAdaptive(s, members) <==> |members| <= 4 * FaultBound(|members|) + 1
    ensures FastImpliesAdaptive(s, members) <==> |members| !in {2, 3, 6}
  {
    var n, f := |members|, FaultBound(|members|);
    if n <= 4 * f + 1 {
      forall ops | ExactRun(s, ops, members) && Commits(s, ops, n) >= 1
        ensures VoteVerdict(Run(s, ops, n), n) == COMMITTED
      {
        CommitsAtMostOnce(s, ops, n);
        ExactRunIsExact(s, ops, members);
        var t := Run(s, ops, n);
        SubsetCardinality(OKVoters(t.votes), t.votes.Keys);
        SubsetCardinality(t.votes.Keys, members);
      }
    } else {
      var votes := JustEnoughVotes(s, members, 2 * f + 1);
      var ops := Casts(votes);
      FeedState(s, votes, n);
      NoFillNoCredit(s, ops, n);
      CommitsIffQuorum(s, votes, n);
      assert ExactRun(s, ops, members) && Commits(s, ops, n) >= 1;
      assert VoteVerdict(Run(s, ops, n), n) == UNCOMMITTED;
    }
  }

  lemma {:induction false} JustEnoughVotes(s: Snapshot, members: set<NodeID>, k: nat) returns (votes: seq<VoteMsg>)
    requires k <= |members|
    ensures |votes| == k == CountOK(votes) && ValidVotes(s, votes)
    ensures forall i :: 0 <= i < k ==> votes[i].nodeID in members
  {
    if k == 0 {
      votes := [];
    } else {
      var id :| id in members;
      var rest := JustEnoughVotes(s, members - {id}, k - 1);
      votes := rest + [VoteMsg(0, s.viewID, s.sequenceID, None, "", id, VOTE)];
      assert votes[..k - 1] == rest;
    }
  }

  /** A run that only members vote in. */
  ghost predicate MemberRun(s: Snapshot, ops: seq<Op>, members: set<NodeID>) {
    && IsFresh(s, |members|)
    && forall k :: 0 <= k < |ops| && ops[k].Cast? ==> ops[k].vote.nodeID in members
  }

  /** A verdict of `CollateAQ` that the votes heard support: at least n - 2f votes were received, and
      no more of them than collates. */
  predicate CollateDecision(t: Snapshot, n: nat) {
    CollateVerdict(t, n) == COMMITTED && n - 2 * t.f <= |t.votes| <= |t.collates|
  }

  /** `s` has decided COMMITTED: with a VOTE count of 2f + 1, as `Vote` and an UNCOMMITTED collate do
      (nobody counts as silent), by `VoteAQ`, or by a supported `CollateAQ`. Nothing is assumed about
      fills. */
  ghost predicate Decided(s: Snapshot, ops: seq<Op>, members: set<NodeID>, silent: set<NodeID>) {
    && MemberRun(s, ops, members)
    && var t, n := Run(s, ops, |members|), |members|;
       || (t.totalOK >= 2 * t.f + 1 && silent == {})
       || ((VoteVerdict(t, n) == COMMITTED || CollateDecision(t, n)) && silent == members - t.votes.Keys)
  }

  /** The voters that the state holds after the run and counts as OK. */
  function OKAfter(s: Snapshot, ops: seq<Op>, n: int): set<NodeID> {
    OKVoters(Run(s, ops, n).votes)
  }

  lemma DecidedIsQuorum(s: Snapshot, ops: seq<Op>, members: set<NodeID>, silent: set<NodeID>)
    requires Decided(s, ops, members, silent)
    ensures CreditedQuorum(members, silent, OKAfter(s, ops, |members|), Credits(s, ops, |members|))
  {
    Ledger(s, ops, |members|);
    VotersAreMembers(s, ops, members);
    CountsAreQuorum(Run(s, ops, |members|), members, silent, Credits(s, ops, |members|));
  }

  lemma CountsAreQuorum(t: Snapshot, members: set<NodeID>, silent: set<NodeID>, credit: nat)
    requires |members| >= 1 && t.votes.Keys <= members && t.f == FaultBound(|members|)
    requires t.totalVote == |t.votes| && t.totalCollate == |t.collates|
    requires t.totalOK == |OKVoters(t.votes)| + credit
    requires var n := |members|;
             || (t.totalOK >= 2 * t.f + 1 && silent == {})
             || ((VoteVerdict(t, n) == COMMITTED || CollateDecision(t, n)) && silent == members - t.votes.Keys)
    ensures CreditedQuorum(members, silent, OKVoters(t.votes), credit)
  {
    SubsetCardinality(t.votes.Keys, members);
    assert |t.votes| == |t.votes.Keys|;
    assert OKVoters(t.votes) <= t.votes.Keys;
    assert t.votes.Keys == members - (members - t.votes.Keys);
  }

  /** Adaptive quorum safety. Whatever two deciders have been through, their OK voters overlap in at
      least 4f + 2 - n less the members silent to either and the credits of their fills, and they
      share a voter outside `faulty` when the silent, the faulty and the credits number at most
      4f + 1 - n together (for n = 3f + 1: f + 1 less these, and f). */
  lemma AdaptiveSafety(s1: Snapshot, ops1: seq<Op>, silent1: set<NodeID>,
                       s2: Snapshot, ops2: seq<Op>, silent2: set<NodeID>,
                       members: set<NodeID>, faulty: set<NodeID>)
    requires Decided(s1, ops1, members, silent1) && Decided(s2, ops2, members, silent2)
    requires faulty <= members
    ensures var f, n := FaultBound(|members|), |members|;
            var shared, credits := OKAfter(s1, ops1, n) * OKAfter(s2, ops2, n),
                                   Credits(s1, ops1, n) + Credits(s2, ops2, n);
            && |shared| >= 4 * f + 2 - n - |silent1 + silent2| - credits
            && (|silent1 + silent2 + faulty| + credits <= 4 * f + 1 - n ==> shared - faulty != {})
  {
    var n := |members|;
    var ok1, ok2, c1, c2 := OKAfter(s1, ops1, n), OKAfter(s2, ops2, n), Credits(s1, ops1, n), Credits(s2, ops2, n);
    DecidedIsQuorum(s1, ops1, members, silent1);
    DecidedIsQuorum(s2, ops2, members, silent2);
    QuorumsShare(members, silent1, silent2, faulty, ok1, ok2, c1, c2);
  }

  lemma QuorumsShare(members: set<NodeID>, silent1: set<NodeID>, silent2: set<NodeID>, faulty: set<NodeID>,
                     ok1: set<NodeID>, ok2: set<NodeID>, c1: nat, c2: nat)
    requires CreditedQuorum(members, silent1, ok1, c1) && CreditedQuorum(members, silent2, ok2, c2)
    requires faulty <= members
    ensures var f, n := FaultBound(|members|), |members|;
            && |ok1 * ok2| >= 4 * f + 2 - n - |silent1 + silent2| - (c1 + c2)
            && (|silent1 + silent2 + faulty| + (c1 + c2) <= 4 * f + 1 - n ==> ok1 * ok2 - faulty != {})
  {
    AdaptiveOverlap(members, silent1, silent2, ok1, ok2, c1, c2);
    if |silent1 + silent2 + faulty| + c1 + c2 + |members| <= 4 * FaultBound(|members|) + 1 {
      SharedCorrectVoter(members, silent1, silent2, faulty, ok1, ok2, c1, c2);
    }
  }

  /** The documented safety argument fails beyond that bound: every choice of at most 2f members
      silent to each of two deciders and of credits that exceeds it can be realised by two runs that
      both decide and whose OK voters share faulty members only. */
  lemma AdaptiveSafetyFailsBeyond(s1: Snapshot, s2: Snapshot, members: set<NodeID>, silent1: set<NodeID>,
                                  silent2: set<NodeID>, faulty: set<NodeID>, c1: nat, c2: nat)
      returns (ops1: seq<Op>, ops2: seq<Op>)
    requires IsFresh(s1, |members|) && IsFresh(s2, |members|)
    requires silent1 <= members && silent2 <= members && faulty <= members
    requires |silent1| <= 2 * FaultBound(|members|) && |silent2| <= 2 * FaultBound(|members|)
    requires |silent1 + silent2 + faulty| + c1 + c2 > 4 * FaultBound(|members|) + 1 - |members|
    ensures Decided(s1, ops1, members, silent1) && Credits(s1, ops1, |members|) == c1
    ensures Decided(s2, ops2, members, silent2) && Credits(s2, ops2, |members|) == c2
    ensures OKAfter(s1, ops1, |members|) * OKAfter(s2, ops2, |members|) <= faulty
  {
    var ok1, ok2 := DisjointAdaptiveQuorums(members, silent1, silent2, faulty, c1, c2);
    ops1 := Realise(s1, members, silent1, ok1, c1);
    ops2 := Realise(s2, members, silent2, ok2, c2);
  }

  /** A run in which the OK voters are `ok`, the silent are `silent`, all others REJECT, and fills
      credit `credit`. */
  lemma Realise(s: Snapshot, members: set<NodeID>, silent: set<NodeID>, ok: set<NodeID>, credit: nat)
      returns (ops: seq<Op>)
    requires IsFresh(s, |members|) && CreditedQuorum(members, silent, ok, credit)
    ensures Decided(s, ops, members, silent)
    ensures OKAfter(s, ops, |members|) == ok && Credits(s, ops, |members|) == credit
  {
    var n := |members|;
    SubsetCardinality(silent, members);
    var polled := Poll(s, members, members - silent, ok);
    ops := GetCredit(s, polled, credit, n);
    Ledger(s, ops, n);
    var t := Run(s, ops, n);
    assert |t.votes| == |t.votes.Keys| && members - t.votes.Keys == silent;
  }

  /** Fills that credit `credit` on top of a run in which somebody voted. */
  lemma {:induction false} GetCredit(s: Snapshot, ops: seq<Op>, credit: nat, n: nat) returns (more: seq<Op>)
    requires Run(s, ops, n).votes.Keys != {}
    ensures forall k :: 0 <= k < |more| && more[k].Cast? ==> more[k] in ops
    ensures Credits(s, more, n) == Credits(s, ops, n) + credit
    ensures Run(s, more, n).votes == Run(s, ops, n).votes
  {
    if credit == 0 {
      more := ops;
    } else {
      var before := GetCredit(s, ops, credit - 1, n);
      var votes := Run(s, before, n).votes;
      var id :| id in votes.Keys;
      var c := NO_COLLATE.(receivedVoteMsg := map[id := votes[id].(addr := votes[id].addr + 1, msgType := VOTE)]);
      more := before + [Fill(c)];
      RunSnoc(s, before, Fill(c), n);
      assert Credited(votes, c.receivedVoteMsg) == {id};
    }
  }

  /** A run in which `voters` vote, `ok` of them VOTE. */
  lemma Poll(s: Snapshot, members: set<NodeID>, voters: set<NodeID>, ok: set<NodeID>) returns (ops: seq<Op>)
    requires IsFresh(s, |members|) && ok <= voters <= members
    ensures ExactRun(s, ops, members)
    ensures var t := Run(s, ops, |members|);
            t.votes.Keys == voters && OKVoters(t.votes) == ok && t.collates == map[]
  {
    var votes := Ballots(s, voters, ok);
    ops := Casts(votes);
    FeedState(s, votes, |members|);
    NoFillNoCredit(s, ops, |members|);
    BallotsStored(Run(s, ops, |members|).votes, votes, voters, ok);
  }

  lemma {:induction false} Ballots(s: Snapshot, voters: set<NodeID>, ok: set<NodeID>) returns (votes: seq<VoteMsg>)
    ensures ValidVotes(s, votes)
    ensures forall v :: v in votes ==> v.nodeID in voters && (v.msgType == VOTE <==> v.nodeID in ok)
    ensures forall id :: id in voters ==> exists v :: v in votes && v.nodeID == id
  {
    if voters == {} {
      votes := [];
    } else {
      var id :| id in voters;
      var rest := Ballots(s, voters - {id}, ok);
      var v := VoteMsg(0, s.viewID, s.sequenceID, None, "", id, if id in ok then VOTE else REJECT);
      votes := [v] + rest;
      forall i | 0 <= i < |rest| ensures rest[i].nodeID != id { assert rest[i] in rest; }
      forall x | x in voters ensures exists v :: v in votes && v.nodeID == x {
        if x == id {
          assert votes[0].nodeID == x;
        } else {
          assert x in voters - {id};
          var w :| w in rest && w.nodeID == x;
          assert w in votes;
        }
      }
    }
  }

  lemma BallotsStored(stored: map<NodeID, VoteMsg>, votes: seq<VoteMsg>, voters: set<NodeID>, ok: set<NodeID>)
    requires forall v :: v in votes ==> v.nodeID in voters && (v.msgType == VOTE <==> v.nodeID in ok)
    requires forall id :: id in voters ==> exists v :: v in votes && v.nodeID == id
    requires forall v :: v in votes ==> v.nodeID in stored && stored[v.nodeID] == v
    requires forall id :: id in stored ==> exists v :: v in votes && v.nodeID == id
    requires ok <= voters
    ensures stored.Keys == voters && OKVoters(stored) == ok
  {}

  // The collate quorum

  /** Letting `senders` send UNCOMMITTED collates without votes leaves the votes alone. */
  lemma {:induction false} HearCollates(s: Snapshot, ops: seq<Op>, senders: set<NodeID>, n: nat)
      returns (more: seq<Op>)
    requires IsFresh(s, n) && Run(s, ops, n).collates == map[]
    ensures forall k :: 0 <= k < |more| && more[k].Cast? ==> more[k] in ops
    ensures Credits(s, more, n) == Credits(s, ops, n)
    ensures var t, u := Run(s, ops, n), Run(s, more, n);
            u.votes == t.votes && u.collates.Keys == senders
  {
    if senders == {} {
      more := ops;
    } else {
      var id :| id in senders;
      var rest := HearCollates(s, ops, senders - {id}, n);
      more := HearOne(s, rest, id, n);
      assert senders == senders - {id} + {id};
    }
  }

  lemma RunSnoc(s: Snapshot, ops: seq<Op>, op: Op, n: nat)
    ensures Run(s, ops + [op], n) == Next(Run(s, ops, n), op, n)
    ensures Credits(s, ops + [op], n) == Credits(s, ops, n) +
              if op.Fill? then |Credited(Run(s, ops, n).votes, op.collate.receivedVoteMsg)| else 0
  {
    assert (ops + [op])[..|ops|] == ops;
  }

  lemma HearOne(s: Snapshot, ops: seq<Op>, id: NodeID, n: nat) returns (more: seq<Op>)
    requires id !in Run(s, ops, n).collates
    ensures forall k :: 0 <= k < |more| && more[k].Cast? ==> more[k] in ops
    ensures Credits(s, more, n) == Credits(s, ops, n)
    ensures Run(s, more, n).votes == Run(s, ops, n).votes
    ensures Run(s, more, n).collates.Keys == Run(s, ops, n).collates.Keys + {id}
  {
    var c := NO_COLLATE.(msgType := UNCOMMITTED, nodeID := id);
    var filled := ops + [Fill(c)];
    more := filled + [AddCollate(c)];
    RunSnoc(s, ops, Fill(c), n);
    RunSnoc(s, filled, AddCollate(c), n);
    assert Credited(Run(s, ops, n).votes, c.receivedVoteMsg) == {};
  }

  /** A run without credits that hears votes from `heard` and collates from `senders`, and in which
      `CollateAQ` commits. */
  ghost predicate CollateCommits(s: Snapshot, ops: seq<Op>, members: set<NodeID>,
                                 heard: set<NodeID>, senders: set<NodeID>) {
    && ExactRun(s, ops, members)
    && var t := Run(s, ops, |members|);
       t.votes.Keys == heard && t.collates.Keys == senders && CollateVerdict(t, |members|) == COMMITTED
  }

  /** Every such run has an adaptive quorum of OK voters. */
  ghost predicate CollateBacked(s: Snapshot, members: set<NodeID>, heard: set<NodeID>, senders: set<NodeID>) {
    forall ops :: CollateCommits(s, ops, members, heard, senders) ==>
      AdaptiveQuorum(members, members - heard, OKAfter(s, ops, |members|))
  }

  /** The second adaptive quorum compares the VOTE count with a threshold computed from the collates
      received. It commits on an adaptive quorum of voters if and only if it cannot commit at all (too
      few collates, or too few votes for that many collates), or at least n - 2f votes were received
      and no more votes than collates. */
  lemma CollateBackedIff(s: Snapshot, members: set<NodeID>, heard: set<NodeID>, senders: set<NodeID>)
    requires IsFresh(s, |members|) && heard <= members
    ensures var q := |members| - 2 * FaultBound(|members|);
            CollateBacked(s, members, heard, senders)
            <==> |senders| < q || |heard| <= |senders| - q || q <= |heard| <= |senders|
  {
    var q := |members| - 2 * FaultBound(|members|);
    SubsetCardinality(heard, members);
    if |senders| < q || |heard| <= |senders| - q || q <= |heard| <= |senders| {
      forall ops | CollateCommits(s, ops, members, heard, senders)
        ensures AdaptiveQuorum(members, members - heard, OKAfter(s, ops, |members|))
      {
        Ledger(s, ops, |members|);
        BackedVerdict(Run(s, ops, |members|), members, heard, senders);
      }
    } else {
      var ops := WeakRun(s, members, heard, senders);
    }
  }

  lemma BackedVerdict(t: Snapshot, members: set<NodeID>, heard: set<NodeID>, senders: set<NodeID>)
    requires |members| >= 1 && heard <= members && t.f == FaultBound(|members|)
    requires t.votes.Keys == heard && t.collates.Keys == senders
    requires t.totalCollate == |t.collates| && t.totalOK == |OKVoters(t.votes)|
    requires CollateVerdict(t, |members|) == COMMITTED
    requires var q := |members| - 2 * t.f;
             |senders| < q || |heard| <= |senders| - q || q <= |heard| <= |senders|
    ensures AdaptiveQuorum(members, members - heard, OKVoters(t.votes))
  {
    assert |t.collates| == |t.collates.Keys|;
    SubsetCardinality(OKVoters(t.votes), heard);
    SubsetCardinality(heard, members);
    assert heard == members - (members - heard);
  }

  /** Just enough VOTEs for the collates received. */
  lemma WeakRun(s: Snapshot, members: set<NodeID>, heard: set<NodeID>, senders: set<NodeID>) returns (ops: seq<Op>)
    requires IsFresh(s, |members|) && heard <= members
    requires var q := |members| - 2 * FaultBound(|members|);
             |senders| >= q && |heard| > |senders| - q && !(q <= |heard| <= |senders|)
    ensures CollateCommits(s, ops, members, heard, senders)
    ensures !AdaptiveQuorum(members, members - heard, OKAfter(s, ops, |members|))
  {
    var n, q := |members|, |members| - 2 * FaultBound(|members|);
    SubsetCardinality(heard, members);
    var ok := SubsetOfSize(heard, |senders| - q + 1);
    var polled := Poll(s, members, heard, ok);
    ops := HearCollates(s, polled, senders, n);
    Ledger(s, ops, n);
    var t := Run(s, ops, n);
    assert |t.collates| == |t.collates.Keys|;
  }

  /** So it commits on a single VOTE although every member voted and all others rejected, once n - 2f
      members have sent a collate. Two states can so commit on disjoint voters. */
  lemma CollateQuorumTooWeak(s: Snapshot, members: set<NodeID>, id: NodeID) returns (ops: seq<Op>)
    requires IsFresh(s, |members|) && |members| >= 4 && id in members
    ensures ExactRun(s, ops, members)
    ensures var t := Run(s, ops, |members|);
            && t.votes.Keys == members && OKVoters(t.votes) == {id}
            && VoteVerdict(t, |members|) == UNCOMMITTED
            && CollateVerdict(t, |members|) == COMMITTED
  {
    var n, f := |members|, FaultBound(|members|);
    var polled := Poll(s, members, members, {id});
    var senders := SubsetOfSize(members, n - 2 * f);
    ops := HearCollates(s, polled, senders, n);
    Ledger(s, ops, n);
    OneVote(Run(s, ops, n), id, n);
  }

  /** One VOTE, all votes, and just enough collates. */
  lemma OneVote(t: Snapshot, id: NodeID, n: nat)
    requires n >= 4 && t.f == FaultBound(n) && OKVoters(t.votes) == {id} && |t.votes.Keys| == n
    requires |t.collates.Keys| == n - 2 * t.f
    requires t.totalVote == |t.votes| && t.totalCollate == |t.collates| && t.totalOK == |OKVoters(t.votes)|
    ensures VoteVerdict(t, n) == UNCOMMITTED && CollateVerdict(t, n) == COMMITTED
  {
    assert |t.votes| == |t.votes.Keys| && |t.collates| == |t.collates.Keys|;
  }
}
