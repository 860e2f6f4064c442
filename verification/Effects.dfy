/** What each handler does, said of messages, stored fields and numbers alone: exactly when it answers,
    executes, sends or ignores, and what it leaves as it was. */
module Effects {
  import opened Messages
  import opened Quorum
  import opened VoteSpec
  import opened ExecutorSpec
  import opened NodeSpec
  import opened System

  // The consensus state of one number

  /** A state is created for the view that its replica is in, with no messages and nothing counted. */
  lemma NewState(viewID: int, nodeID: NodeID, n: nat, k: int)
    requires n >= 1
    ensures var t := Fresh(viewID, nodeID, n, k);
            && t.viewID == viewID && t.nodeID == nodeID && t.sequenceID == k && 3 * t.f + 1 <= n <= 3 * t.f + 3
            && t.prepare == None && t.sent == None && t.req == None && t.digest == ""
            && t.votes == map[] && t.collates == map[] && t.totalVote == t.totalOK == t.totalCollate == 0
  {}

  /** The collate says what the state holds, and leaves out who sends it. */
  predicate Describes(c: CollateMsg, t: Snapshot) {
    && c.receivedVoteMsg == t.votes && c.sentVoteMsg == t.sent
    && c.viewID == t.viewID && c.sequenceID == t.sequenceID && c.digest == t.digest && c.nodeID == ""
  }

  /** A vote of a sender that has voted is ignored; any other is stored and counted before it is looked at.
      One of another view, or else of another number, is an error and has no answer; COMMITTED is answered
      exactly to the VOTE that makes 2f + 1, UNCOMMITTED exactly to the last of all n votes otherwise. */
  lemma VoteEffect(t: Snapshot, v: VoteMsg, n: int)
    ensures var (u, o) := VoteNext(t, Some(v), n);
            var ok := t.totalOK + if v.msgType == VOTE then 1 else 0;
            var accepted := v.viewID == t.viewID && v.sequenceID == t.sequenceID;
            if v.nodeID in t.votes then u == t && o == Outcome(NO_COLLATE, None)
            else
              && u == t.(votes := t.votes[v.nodeID := v], totalVote := t.totalVote + 1, totalOK := ok)
              && (o.error == Some(WrongView) <==> v.viewID != t.viewID)
              && (o.error == Some(WrongSequence) <==> v.viewID == t.viewID && v.sequenceID != t.sequenceID)
              && (o.collate.msgType == COMMITTED <==> accepted && v.msgType == VOTE && ok == 2 * t.f + 1)
              && (o.collate.msgType == UNCOMMITTED <==>
                  accepted && t.totalVote + 1 == n && (v.msgType != VOTE || ok < 2 * t.f + 1))
              && if o.collate.msgType in {COMMITTED, UNCOMMITTED}
                 then Describes(o.collate, u) && o.collate.receivedPrepare == t.prepare
                 else o.collate == NO_COLLATE
  {}

  /** Without a vote, the state answers with an UNCOMMITTED collate about itself. */
  lemma NoVoteEffect(t: Snapshot, n: int)
    ensures var (u, o) := VoteNext(t, None, n);
            && u == t && o.error == None && o.collate.msgType == UNCOMMITTED
            && Describes(o.collate, t) && o.collate.receivedPrepare == t.prepare
  {}

  /** A collate of a sender that has sent one is ignored; any other is stored and counted before it is looked
      at. COMMITTED is answered in kind; UNCOMMITTED with COMMITTED exactly when 2f + 1 VOTE messages have
      been counted, and then without the PREPARE message. */
  lemma CollateEffect(t: Snapshot, c: CollateMsg)
    ensures var (u, o) := CollateNext(t, c);
            var accepted := c.viewID == t.viewID && c.sequenceID == t.sequenceID;
            if c.nodeID in t.collates then u == t && o == Outcome(NO_COLLATE, None)
            else
              && u == t.(collates := t.collates[c.nodeID := c], totalCollate := t.totalCollate + 1)
              && (o.error == Some(WrongView) <==> c.viewID != t.viewID)
              && (o.error == Some(WrongSequence) <==> c.viewID == t.viewID && c.sequenceID != t.sequenceID)
              && (o.collate.msgType == COMMITTED <==>
                  accepted && (c.msgType == COMMITTED || (c.msgType == UNCOMMITTED && t.totalOK >= 2 * t.f + 1)))
              && (o.collate.msgType == UNCOMMITTED <==>
                  accepted && c.msgType == UNCOMMITTED && t.totalOK < 2 * t.f + 1)
              && (o.collate.msgType in {COMMITTED, UNCOMMITTED} ==>
                  Describes(o.collate, u) &&
                  o.collate.receivedPrepare == if c.msgType == COMMITTED then t.prepare else None)
              && (o.collate.msgType !in {COMMITTED, UNCOMMITTED} ==> o.collate == NO_COLLATE)
  {}

  /** What a proposal does to its state: nothing when the request does not hash; else it replaces the one
      before, with its request and digest, and the vote says NULL without a request, VOTE for the state's
      own view and REJECT for another. Votes, collates and counters stay. */
  lemma PrepareEffect(t: Snapshot, p: PrepareMsg, req: Option<RequestMsg>, digest: Option<string>)
    ensures var (u, vote) := PrepareNext(t, p, req, digest);
            if req.Some? && digest.None? then u == t && vote.sequenceID == 0
            else
              && u == t.(digest := vote.digest, req := req, prepare := Some(p), sent := Some(vote),
                         sequenceID := vote.sequenceID)
              && vote.prepareMsg == Some(p) && vote.viewID == t.viewID && vote.nodeID == ""
              && (req.None? ==> vote.msgType == NULLMSG && vote.digest == "NULL" && vote.sequenceID == t.sequenceID)
              && (req.Some? ==> vote.digest == digest.value && vote.sequenceID == p.sequenceID)
              && (vote.msgType == VOTE <==> req.Some? && p.viewID == t.viewID)
              && (vote.msgType == REJECT <==> req.Some? && p.viewID != t.viewID)
  {}

  /** The adaptive verdict on what h of n members sent: COMMITTED exactly when the counted VOTE messages reach
      2f + 1 less those not heard, and this is at least 1. */
  lemma VerdictEffect(t: Snapshot, n: nat)
    requires n >= 1 && t.f == FaultBound(n)
    ensures VoteVerdict(t, n) == COMMITTED <==> t.totalOK >= CodeQuorum(n, n - t.totalVote) >= 1
    ensures CollateVerdict(t, n) == COMMITTED <==> t.totalOK >= CodeQuorum(n, n - t.totalCollate) >= 1
    ensures VoteVerdict(t, n) in {COMMITTED, UNCOMMITTED} && CollateVerdict(t, n) in {COMMITTED, UNCOMMITTED}
  {}

  // Filling holes, entry by entry

  /** A collate with this single vote. */
  function With1(c: CollateMsg, id: NodeID, w: VoteMsg): CollateMsg {
    c.(receivedVoteMsg := map[id := w])
  }

  /** One received vote counts once more, exactly when it is a VOTE and another message than the one that is
      held for the same voter. */
  lemma OneFilled(t: Snapshot, c: CollateMsg, id: NodeID, w: VoteMsg)
    ensures FillNext(t, With1(c, id, w)) ==
              t.(totalOK := t.totalOK + if id in t.votes && t.votes[id] != w && w.msgType == VOTE then 1 else 0)
  {
    var credited := Credited(t.votes, map[id := w]);
    assert id in credited <==> id in t.votes && t.votes[id] != w && w.msgType == VOTE;
    assert credited == if id in t.votes && t.votes[id] != w && w.msgType == VOTE then {id} else {};
  }

  /** Each entry counts on its own: filling from a collate is filling from one entry and then the rest. */
  lemma FilledOneByOne(t: Snapshot, c: CollateMsg, id: NodeID)
    requires id in c.receivedVoteMsg
    ensures var rest := c.(receivedVoteMsg := c.receivedVoteMsg - {id});
            FillNext(t, c) == FillNext(FillNext(t, With1(c, id, c.receivedVoteMsg[id])), rest)
  {
    var all, rest, w := c.receivedVoteMsg, c.receivedVoteMsg - {id}, c.receivedVoteMsg[id];
    OneFilled(t, c, id, w);
    CreditedRest(t.votes, all, id);
    var others := Credited(t.votes, rest);
    if id in Credited(t.votes, all) {
      assert |{id} + others| == 1 + |others|;
    }
  }

  lemma CreditedRest(votes: map<NodeID, VoteMsg>, all: map<NodeID, VoteMsg>, id: NodeID)
    requires id in all
    ensures var others := Credited(votes, all - {id});
            && id !in others
            && Credited(votes, all) == if id in Credited(votes, all) then {id} + others else others
  {
    var others := Credited(votes, all - {id});
    forall x ensures x in Credited(votes, all) && x != id <==> x in others {
    }
  }

  lemma NothingFilled(t: Snapshot, c: CollateMsg)
    requires c.receivedVoteMsg == map[]
    ensures FillNext(t, c) == t
  {
    assert Credited(t.votes, c.receivedVoteMsg) == {};
  }

  // The replica

  /** A replica as it is created. */
  lemma NewReplica(me: NodeInfo, table: seq<NodeInfo>, viewID: nat)
    requires |table| >= VIEWS
    ensures var v := NewNode(me, table, viewID);
            && v.me == me && v.table == table && v.viewID == viewID % 10 && v.primary == table[viewID % 10]
            && v.epochID == 0 && v.stable == 0 && v.candidate == 10 && !v.changing && v.total == 0
            && v.states == map[] && v.log == map[] && v.pairs == map[] && v.exec == [] && v.history == []
            && forall i :: 0 <= i < 1000 ==> v.committed[i] == 0 && v.prepared[i] == 0
  {}

  /** A number that has no state gets one, and is counted; otherwise nothing happens. */
  lemma StartEffect(v: Replica, k: int)
    ensures var u := Started(v, k);
            && k in u.states && u == v.(states := u.states, total := u.total)
            && (forall x :: x in u.states <==> x in v.states || x == k)
            && (forall x :: x in v.states ==> u.states[x] == v.states[x])
            && (k in v.states ==> u.total == v.total)
            && (k !in v.states ==>
                u.total == v.total + 1 && u.states[k] == Fresh(v.viewID, v.me.nodeID, |v.table|, k))
  {}

  /** Going on to number k + 1: the view is k modulo 10, the epoch changes with every tenth number, and the
      view's primary proposes. */
  lemma ProposeEffect(v: Replica, k: nat, nextDigest: string)
    ensures var (u, out) := NextProposed(v, k + 1, nextDigest);
            && u == v.(viewID := k % 10, primary := v.table[k % 10], epochID := u.epochID)
            && u.epochID == (if k % 10 == 0 then k / 10 else v.epochID)
            && out == if v.table[k % 10].nodeID == v.me.nodeID
                      then [OutPrepare(PrepareMsg(k % 10, k + 1, nextDigest, u.epochID, v.me.nodeID, -1))] else []
  {}

  /** Of two replicas only what a proposal, vote or collate of number k can change differs. */
  predicate SameBut(v: Replica, u: Replica, k: int) {
    && u.me == v.me && u.table == v.table && u.log == v.log && u.pairs == v.pairs && u.committed == v.committed
    && u.stable == v.stable && u.candidate == v.candidate && u.changing == v.changing && u.history == v.history
    && (forall x :: x in v.states && x != k ==> x in u.states && u.states[x] == v.states[x])
    && forall x :: 0 <= x < SLOTS && x != k ==> u.prepared[x] == v.prepared[x]
  }

  /** After its vote the replica goes on: the number is prepared, the next one gets a state and its proposal,
      the vote is sent, and a number that is committed already goes to the executor again. */
  ghost predicate GoesOn(v: Replica, p: PrepareMsg, vote: VoteMsg, nextDigest: string, u: Replica, out: seq<Out>)
    requires InRange(p.sequenceID)
  {
    var k := p.sequenceID;
    var (w, proposes) := NextProposed(v, k + 1, nextDigest);
    && u.viewID == w.viewID && u.primary == w.primary && u.epochID == w.epochID
    && k + 1 in u.states
    && (k + 1 !in v.states ==> u.states[k + 1] == Fresh(w.viewID, v.me.nodeID, |v.table|, k + 1))
    && u.total == v.total + (if k + 1 in v.states then 0 else 1)
    && u.prepared[k] == (if v.prepared[k] == 0 then 1 else v.prepared[k])
    && u.exec == v.exec + (if v.committed[k] == 1 then [Some(p)] else [])
    && out == proposes + [OutVote(vote.(nodeID := v.me.nodeID))]
  }

  lemma AnnounceEffect(v: Replica, p: PrepareMsg, vote: VoteMsg, nextDigest: string)
    requires InRange(p.sequenceID) && p.sequenceID in v.states
    ensures var (u, out) := Announced(v, p, vote, nextDigest);
            && GoesOn(v, p, vote, nextDigest, u, out) && SameBut(v, u, p.sequenceID)
            && p.sequenceID in u.states && u.states[p.sequenceID] == v.states[p.sequenceID]
  {
    AnnouncedFrame(v, p, vote, nextDigest);
  }

  /** A proposal whose request does not hash only creates the state of its number. */
  lemma ProposalRefused(v: Replica, p: PrepareMsg, req: Option<RequestMsg>, digest: Option<string>, nextDigest: string)
    requires InRange(p.sequenceID) && req.Some? && digest.None?
    ensures PrepareHandled(v, p, req, digest, nextDigest) == (Started(v, p.sequenceID), [])
  {
    var v0 := Started(v, p.sequenceID);
    assert v0.states[p.sequenceID := v0.states[p.sequenceID]] == v0.states;
  }

  /** Any other is handled by the state of its number, which is created for it, and the replica goes on. */
  lemma ProposalEffect(v: Replica, p: PrepareMsg, req: Option<RequestMsg>, digest: Option<string>, nextDigest: string)
    requires InRange(p.sequenceID) && RoutedTo(v, p.sequenceID) && (req.None? || digest.Some?)
    ensures var k, v0 := p.sequenceID, Started(v, p.sequenceID);
            var (t, vote) := PrepareNext(v0.states[k], p, req, digest);
            var (u, out) := PrepareHandled(v, p, req, digest, nextDigest);
            && SameBut(v, u, k) && k in u.states && u.states[k] == t
            && GoesOn(v0.(states := v0.states[k := t]), p, vote, nextDigest, u, out)
  {
    var k, v0 := p.sequenceID, Started(v, p.sequenceID);
    var (t, vote) := PrepareNext(v0.states[k], p, req, digest);
    var w := v0.(states := v0.states[k := t]);
    ProposalIs(v, p, req, digest, nextDigest, w, vote);
    AnnounceEffect(w, p, vote, nextDigest);
    SameButAfter(v, w, Announced(w, p, vote, nextDigest).0, k);
  }

  lemma ProposalIs(v: Replica, p: PrepareMsg, req: Option<RequestMsg>, digest: Option<string>, nextDigest: string,
                   w: Replica, vote: VoteMsg)
    requires InRange(p.sequenceID) && RoutedTo(v, p.sequenceID) && (req.None? || digest.Some?)
    requires var v0 := Started(v, p.sequenceID);
             var r := PrepareNext(v0.states[p.sequenceID], p, req, digest);
             w == v0.(states := v0.states[p.sequenceID := r.0]) && vote == r.1
    ensures PrepareHandled(v, p, req, digest, nextDigest) == Announced(w, p, vote, nextDigest)
  {}

  lemma SameButAfter(v: Replica, w: Replica, u: Replica, k: int)
    requires SameBut(w, u, k) && w == Started(v, k).(states := w.states)
    requires forall x :: x in v.states && x != k ==> x in w.states && w.states[x] == v.states[x]
    ensures SameBut(v, u, k)
  {}

  predicate RoutedTo(v: Replica, k: int) {
    k in v.states ==> v.states[k].sequenceID == k
  }

  /** What a commit on this state executes: the PREPARE that the state holds, or that of one of its votes. */
  predicate IsExecuted(t: Snapshot, pick: NodeID, notices: seq<Option<PrepareMsg>>) {
    if t.prepare.Some? then notices == [t.prepare]
    else if t.votes == map[] then notices == []
    else pick in t.votes && notices == [t.votes[pick].prepareMsg]
  }

  /** The notices, when there are any, come after those that wait already. */
  predicate Adds(v: Replica, u: Replica, t: Snapshot, pick: NodeID) {
    v.exec <= u.exec && IsExecuted(t, pick, u.exec[|v.exec|..])
  }

  lemma AddsNotices(v: Replica, t: Snapshot, votes: map<NodeID, VoteMsg>, pick: NodeID, u: Replica)
    requires votes == t.votes && Picks(votes, pick) && u.exec == v.exec + Notices(t.prepare, votes, pick)
    ensures Adds(v, u, t, pick)
  {
    assert u.exec[|v.exec|..] == Notices(t.prepare, votes, pick);
  }

  /** A vote is ignored exactly when its number is committed, or is number 1 and has no state yet. Otherwise
      the state of its number handles it, created if there is none; the replica executes exactly when the
      state answers COMMITTED, and sends the answer when there is one. */
  lemma VoteReceived(v: Replica, m: VoteMsg, pick: NodeID)
    requires InRange(m.sequenceID) && RoutedTo(v, m.sequenceID)
    requires !Dropped(v, m.sequenceID) ==> Picks(VoteAnswer(Started(v, m.sequenceID), m).0.votes, pick)
    ensures var k := m.sequenceID;
            var (u, out) := VoteHandled(v, m, pick);
            if v.committed[k] == 1 || (k == 1 && 1 !in v.states) then u == v && out == []
            else
              var v0 := Started(v, k);
              var (t, o) := VoteNext(v0.states[k], Some(m), |v.table|);
              && u == v0.(states := v0.states[k := t], exec := u.exec)
              && (if o.collate.msgType == COMMITTED then Adds(v, u, t, pick) else u.exec == v.exec)
              && out == if o.collate.msgType in {COMMITTED, UNCOMMITTED}
                        then [OutCollate(o.collate.(nodeID := v.me.nodeID))] else []
  {
    var k := m.sequenceID;
    if !(v.committed[k] == 1 || (k == 1 && 1 !in v.states)) {
      var v0 := Started(v, k);
      var (t, o) := VoteNext(v0.states[k], Some(m), |v.table|);
      VoteEffect(v0.states[k], m, |v.table|);
      if o.collate.msgType == COMMITTED {
        AddsNotices(v, t, t.votes, pick, VoteHandled(v, m, pick).0);
      }
    }
  }

  /** A vote for a number above 1 that is not committed is never lost: its state is there afterwards, and
      holds a vote of the sender. */
  lemma VoteIsKept(v: Replica, m: VoteMsg, pick: NodeID)
    requires InRange(m.sequenceID) && RoutedTo(v, m.sequenceID) && m.sequenceID > 1 && v.committed[m.sequenceID] != 1
    requires !Dropped(v, m.sequenceID) ==> Picks(VoteAnswer(Started(v, m.sequenceID), m).0.votes, pick)
    ensures var (u, out) := VoteHandled(v, m, pick);
            m.sequenceID in u.states && m.nodeID in u.states[m.sequenceID].votes
  {
    VoteReceived(v, m, pick);
    VoteEffect(Started(v, m.sequenceID).states[m.sequenceID], m, |v.table|);
  }

  /** The number that an answered collate is about; an ignored or mistaken one is about number 0. */
  function About(o: Outcome, k: int): int {
    if o.collate.msgType in {COMMITTED, UNCOMMITTED} then k else 0
  }

  /** A collate is ignored exactly when its number is committed, or is number 1 and has no state yet, or when
      it is neither COMMITTED nor UNCOMMITTED. Otherwise the state of its number fills holes from it and
      handles it. The replica executes exactly when the collate or the state's answer says COMMITTED, and the
      number that the answer is about is prepared here and not committed. */
  lemma CollateReceived(v: Replica, c: CollateMsg, pick: NodeID)
    requires InRange(c.sequenceID) && RoutedTo(v, c.sequenceID)
    requires Dropped(v, c.sequenceID) || Slot(CollateAnswer(Started(v, c.sequenceID), c).1.collate.sequenceID)
    requires Dropped(v, c.sequenceID) ||
             Picks(CollateAnswer(Started(v, c.sequenceID), c).1.collate.receivedVoteMsg, pick)
    ensures var k, u := c.sequenceID, CollateHandled(v, c, pick);
            if v.committed[k] == 1 || (k == 1 && 1 !in v.states) then u == v
            else if c.msgType !in {COMMITTED, UNCOMMITTED} then u == Started(v, k)
            else
              var v0 := Started(v, k);
              var (t, o) := CollateNext(FillNext(v0.states[k], c), c);
              && u == v0.(states := v0.states[k := t], exec := u.exec)
              && if (c.msgType == COMMITTED || o.collate.msgType == COMMITTED)
                    && v.prepared[About(o, k)] == 1 && v.committed[About(o, k)] == 0
                 then Adds(v, u, t.(votes := o.collate.receivedVoteMsg), pick) else u.exec == v.exec
  {
    var k := c.sequenceID;
    if !Dropped(v, k) && c.msgType in {COMMITTED, UNCOMMITTED} {
      CollateIsCounted(Started(v, k), c, pick);
    }
  }

  lemma CollateIsCounted(v: Replica, c: CollateMsg, pick: NodeID)
    requires InRange(c.sequenceID) && c.sequenceID in v.states && v.states[c.sequenceID].sequenceID == c.sequenceID
    requires c.msgType in {COMMITTED, UNCOMMITTED}
    requires Slot(CollateAnswer(v, c).1.collate.sequenceID)
    requires Picks(CollateAnswer(v, c).1.collate.receivedVoteMsg, pick)
    ensures var k, u := c.sequenceID, CollateCounted(v, c, pick);
            var (t, o) := CollateNext(FillNext(v.states[k], c), c);
            && u == v.(states := v.states[k := t], exec := u.exec)
            && if (c.msgType == COMMITTED || o.collate.msgType == COMMITTED)
                  && v.prepared[About(o, k)] == 1 && v.committed[About(o, k)] == 0
               then Adds(v, u, t.(votes := o.collate.receivedVoteMsg), pick) else u.exec == v.exec
  {
    var k, u := c.sequenceID, CollateCounted(v, c, pick);
    var (t, o) := CollateNext(FillNext(v.states[k], c), c);
    CollateEffect(FillNext(v.states[k], c), c);
    if (c.msgType == COMMITTED || o.collate.msgType == COMMITTED)
       && v.prepared[About(o, k)] == 1 && v.committed[About(o, k)] == 0 {
      AddsNotices(v, t.(votes := o.collate.receivedVoteMsg), o.collate.receivedVoteMsg, pick, u);
    }
  }

  // Timers

  /** When no proposal has come in time, the replica prepares the empty one, and votes NULL for it. */
  lemma PrepareTimeout(v: Replica, k: int)
    requires k in v.states && InRange(k) && RoutedTo(v, k)
    ensures var (u, out) := PrepareExpired(v, k);
            && SameBut(v, u, k) && u.exec == v.exec && u.total == v.total && u.viewID == v.viewID
            && u.epochID == v.epochID && u.primary == v.primary && u.states.Keys == v.states.Keys
            && u.states[k].prepare == Some(PrepareMsg(0, k, "", 0, "", 0)) && u.states[k].req == None
            && u.states[k].votes == v.states[k].votes && u.states[k].totalOK == v.states[k].totalOK
            && u.prepared[k] == (if v.prepared[k] == 0 then 1 else v.prepared[k])
            && out == [OutVote(VoteMsg(0, v.states[k].viewID, k, Some(PrepareMsg(0, k, "", 0, "", 0)), "NULL",
                                       v.me.nodeID, NULLMSG))]
  {}

  /** What both other timers do when they commit: the replica executes and tells the others, unless the number
      is committed. */
  predicate Commits(v: Replica, k: int, pick: NodeID, u: Replica, out: seq<Out>)
    requires k in v.states && InRange(k)
  {
    && u == v.(exec := u.exec)
    && if v.committed[k] != 0 then u.exec == v.exec && out == []
       else
         && Adds(v, u, v.states[k], pick)
         && |out| == 1 && out[0].OutCollate? && out[0].collate.msgType == COMMITTED
         && Describes(out[0].collate.(nodeID := ""), v.states[k]) && out[0].collate.nodeID == v.me.nodeID
         && out[0].collate.receivedPrepare == v.states[k].prepare
  }

  lemma CommitEffect(v: Replica, k: int, pick: NodeID)
    requires k in v.states && InRange(k) && RoutedTo(v, k) && Picks(v.states[k].votes, pick)
    ensures var (u, out) := Committing(v, v.states[k], pick); Commits(v, k, pick, u, out)
  {
    if v.committed[k] == 0 {
      AddsNotices(v, v.states[k], v.states[k].votes, pick, Committing(v, v.states[k], pick).0);
    }
  }

  /** The Vote timer commits exactly when the counted VOTE messages reach 2f + 1 less the members whose votes
      are missing, and this is at least 1; otherwise it tells the others what it holds. */
  lemma VoteTimeout(v: Replica, k: int, pick: NodeID)
    requires k in v.states && InRange(k) && RoutedTo(v, k) && Picks(v.states[k].votes, pick)
    requires v.states[k].f == FaultBound(|v.table|)
    ensures var (u, out), t := VoteExpired(v, k, pick), v.states[k];
            if t.totalOK >= CodeQuorum(|v.table|, |v.table| - t.totalVote) >= 1 then Commits(v, k, pick, u, out)
            else
              && u == v && |out| == 1 && out[0].OutCollate? && out[0].collate.msgType == UNCOMMITTED
              && Describes(out[0].collate.(nodeID := ""), t) && out[0].collate.nodeID == v.me.nodeID
              && out[0].collate.receivedPrepare == t.prepare
  {
    VerdictEffect(v.states[k], |v.table|);
    CommitEffect(v, k, pick);
  }

  /** The Collate timer commits by the same rule on the members whose collates are missing; otherwise it does
      nothing. */
  lemma CollateTimeout(v: Replica, k: int, pick: NodeID)
    requires k in v.states && InRange(k) && RoutedTo(v, k) && Picks(v.states[k].votes, pick)
    requires v.states[k].f == FaultBound(|v.table|)
    ensures var (u, out), t := CollateExpired(v, k, pick), v.states[k];
            if t.totalOK >= CodeQuorum(|v.table|, |v.table| - t.totalCollate) >= 1 then Commits(v, k, pick, u, out)
            else u == v && out == []
  {
    VerdictEffect(v.states[k], |v.table|);
    CommitEffect(v, k, pick);
  }

  // The executor and the view change

  /** What the executor changes besides log, buffer and flags: nothing when the next number is not there, and
      otherwise checkpoint, view and epoch follow the number executed last. */
  lemma ExecutionEffect(v: Replica, p: PrepareMsg)
    ensures var u := ArrivalHandled(v, p);
            && u.me == v.me && u.table == v.table && u.states == v.states && u.prepared == v.prepared
            && u.total == v.total && u.changing == v.changing && u.exec == v.exec
            && if |v.log| + 1 !in v.pairs && p.sequenceID != |v.log| + 1 then u == v.(pairs := u.pairs)
               else
                 && u.stable == Ready(v.pairs[p.sequenceID := p], |v.log|) >= |v.log| + 1
                 && u.viewID == u.stable % 10 && u.primary == v.table[u.stable % 10] && u.epochID == u.stable / 10
                 && u.candidate == if |v.log| / 10 < u.stable / 10 then 10 else v.candidate
  {
    var w := v.(pairs := v.pairs[p.sequenceID := p]);
    assert |v.log| + 1 in w.pairs <==> |v.log| + 1 in v.pairs || p.sequenceID == |v.log| + 1;
    if |v.log| + 1 in w.pairs {
      NextIsReady(w.pairs, |v.log|);
    }
  }

  /** The candidate for the next view change starts at 10 again whenever a multiple of ten is executed. */
  lemma CandidateAfter(v: Replica, p: PrepareMsg)
    ensures var u, n, end := ArrivalHandled(v, p), |v.log|, Ready(v.pairs[p.sequenceID := p], |v.log|);
            u.candidate == if exists i :: n < i <= end && i % 10 == 0 then 10 else v.candidate
  {
    ExecutionEffect(v, p);
    TenthBetween(|v.log|, Ready(v.pairs[p.sequenceID := p], |v.log|));
  }

  lemma NextIsReady(pairs: Log, n: nat)
    requires n + 1 in pairs
    ensures Ready(pairs, n) >= n + 1
  {}

  /** A multiple of ten lies between n and end exactly when the epoch changes. */
  lemma TenthBetween(n: nat, end: nat)
    requires n <= end
    ensures n / 10 < end / 10 <==> exists i :: n < i <= end && i % 10 == 0
  {
    if n / 10 < end / 10 {
      var i := (n / 10 + 1) * 10;
      assert n < i <= end && i % 10 == 0;
    } else {
      forall i | n < i <= end ensures i % 10 != 0 {
        assert n / 10 == i / 10;
      }
    }
  }

  /** A rollback to before s drops log entries, states and flags of numbers s to the counter, and these only,
      and sets the counter to s - 1 when it is not below that already. */
  lemma RollbackEffect(v: Replica, s: int)
    ensures var u := Rolled(v, s);
            && u == v.(log := u.log, states := u.states, committed := u.committed, prepared := u.prepared,
                       total := u.total)
            && (forall k :: k in u.log <==> k in v.log && !(s <= k <= v.total))
            && (forall k :: k in u.log ==> u.log[k] == v.log[k])
            && (forall k :: k in u.states <==> k in v.states && !(s <= k <= v.total))
            && (forall k :: k in u.states ==> u.states[k] == v.states[k])
            && (forall k :: 0 <= k < 1000 ==>
                 u.committed[k] == (if s <= k <= v.total then 0 else v.committed[k]) &&
                 u.prepared[k] == if s <= k <= v.total then 0 else v.prepared[k])
            && u.total == if s <= v.total then s - 1 else v.total
  {}

  /** A VIEW-CHANGE message starts its number; when it completes a certificate the replica also rolls back
      and stops for the view change. */
  lemma ViewChangeEffect(v: Replica, s: int, completes: bool)
    ensures ViewChangeDelivered(v, s, completes) ==
              if completes then Rolled(Started(v, s), s).(changing := true) else Started(v, s)
  {}

  /** A NEW-VIEW message starts its number, rolls back to before it, and fills the log up to its checkpoint:
      with placeholders from the largest number on. */
  lemma NewViewLog(v: Replica, m: NewViewMsg)
    requires m.sequenceID >= 1
    ensures var u, w := NewViewDelivered(v, m), Rolled(Started(v, m.sequenceID), m.sequenceID);
            var top := MaxKey(w.log.Keys);
            && (forall k :: k in u.log <==> k in w.log || top <= k <= m.minS)
            && (forall k :: k in u.log ==>
                 u.log[k] == if top <= k <= m.minS then PrepareMsg(0, k, "", k / |v.table|, "", 0) else w.log[k])
            && u.committed == w.committed && u.prepared == w.prepared
  {}

  /** The placeholders of a view change are numbered by epochs of the size of the node table, and all others by
      epochs of ten: they agree exactly when the table has ten entries. */
  lemma PlaceholderEpochIff(n: nat)
    requires n >= VIEWS
    ensures (forall k: nat :: Placeholder(k, n).epochID == k / VIEWS) <==> n == 10
  {
    if n > 10 {
      assert Placeholder(10, n).epochID == 0;
    }
  }

  /** It adopts checkpoint, view, epoch and candidate; the number is started afresh, and what waits for
      execution stays. */
  lemma NewViewEffect(v: Replica, m: NewViewMsg)
    requires m.sequenceID >= 1
    ensures var s, u, w := m.sequenceID, NewViewDelivered(v, m), Rolled(Started(v, m.sequenceID), m.sequenceID);
            && u.stable == m.minS && !u.changing
            && u.viewID == (s - 1) % 10 && u.primary == v.table[(s - 1) % 10] && u.epochID == (s - 1) / 10
            && u.candidate == (if s % 10 == 0 then 7 else m.nextCandidateIdx + 1)
            && u.me == v.me && u.table == v.table && u.exec == v.exec && u.pairs == v.pairs && u.history == v.history
            && (s in w.states ==> u.states == w.states)
            && (s !in w.states ==> u.states == w.states[s := Fresh((s - 1) % 10, v.me.nodeID, |v.table|, s)])
            && u.total == (if w.total < m.minS then m.minS else w.total) + if s in w.states then 0 else 1
  {}
}
