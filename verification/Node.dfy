/** The replica (pbft/network/node.go, pbft/network/view.go). Every method is proved against the
    function of NodeSpec that says what happens to the replica's value. */
module Network {
  import opened Messages
  import opened VoteSpec
  import opened Consensus
  import opened ExecutorSpec
  import opened NodeSpec
  import opened Executor
  import opened Quorum
  import opened Certificate
  import opened Checkpoint
  import opened ViewState

  lemma Element<T>(s: set<T>) returns (x: T)
    requires s != {}
    ensures x in s
  {
    x :| x in s;
  }

  lemma OutsideIs(before: map<int, Snapshot>, after: map<int, Snapshot>, s: int, total: int)
    requires forall k :: k in after <==> k in before && !(s <= k <= total)
    requires forall k :: k in after ==> after[k] == before[k]
    ensures after == Outside(before, s, total)
  {
    var expected := Outside(before, s, total);
    assert forall k: int :: k in after.Keys <==> k in expected.Keys;
    assert after.Keys == expected.Keys;
  }

  class Node {
    const myInfo: NodeInfo
    const nodeTable: seq<NodeInfo>
    var viewID: int
    var primary: NodeInfo
    var epochID: int
    var states: map<int, State>
    var vcStates: map<int, VCState>
    var committedMsgs: Log
    const committed: array<int>
    const prepared: array<int>
    var totalConsensus: int
    var isViewChanging: bool
    var nextCandidateIdx: int
    var stableCheckPoint: int
    var msgExecution: seq<Option<PrepareMsg>>
    /** The executor's local reorder buffer. */
    var pairs: Log
    ghost var history: seq<Selection>

    /** The node table and the arrays are large enough. */
    ghost predicate Sized()
      reads this
    {
      && |nodeTable| >= VIEWS
      && committed.Length == SLOTS && prepared.Length == SLOTS && committed != prepared
    }

    ghost predicate Valid()
      reads this
    {
      && Sized()
      && forall j, k :: j in states && k in states && j != k ==> states[j] != states[k]
    }

    ghost function Value(): Replica
      requires Sized()
      reads this, committed, prepared, states.Values
    {
      NodeVal(myInfo, nodeTable, viewID, primary, epochID,
              map k | k in states :: states[k].Value(), committedMsgs, committed[..], prepared[..],
              totalConsensus, isViewChanging, nextCandidateIdx, stableCheckPoint,
              msgExecution, pairs, history)
    }

    constructor (myInfo: NodeInfo, nodeTable: seq<NodeInfo>, viewID: nat)
      requires |nodeTable| >= VIEWS
      ensures Valid() && fresh(committed) && fresh(prepared) && states == map[] && vcStates == map[]
      ensures Value() == NewNode(myInfo, nodeTable, viewID)
    {
      this.myInfo, this.nodeTable := myInfo, nodeTable;
      this.viewID, primary, epochID := viewID % VIEWS, nodeTable[viewID % VIEWS], 0;
      states, vcStates, committedMsgs := map[], map[], map[];
      committed := new int[SLOTS](_ => 0);
      prepared := new int[SLOTS](_ => 0);
      totalConsensus, isViewChanging, nextCandidateIdx, stableCheckPoint := 0, false, 10, 0;
      msgExecution, pairs, history := [], map[], [];
      new;
      assert committed[..] == seq(SLOTS, _ => 0);
      assert prepared[..] == seq(SLOTS, _ => 0);
    }

    method UpdateEpochID(sequenceID: nat)
      modifies this`epochID
      ensures epochID == sequenceID / VIEWS
    {
      epochID := sequenceID / 10;
    }

    method UpdateViewID(viewID: nat)
      requires |nodeTable| >= VIEWS
      modifies this`viewID, this`primary
      ensures this.viewID == viewID % VIEWS && primary == nodeTable[viewID % VIEWS]
    {
      var participant := 10;
      this.viewID := viewID % participant;
      primary := nodeTable[this.viewID];
    }

    method StartThreadIfNotExists(seqID: int) returns (state: State)
      requires Valid()
      modifies this`states, this`totalConsensus
      ensures Valid() && fresh(states.Values - old(states.Values))
      ensures Value() == Started(old(Value()), seqID)
      ensures seqID in states && state == states[seqID]
      ensures forall k :: k in old(states) ==> k in states && states[k] == old(states[k])
    {
      if seqID !in states {
        state := new State(viewID, myInfo.nodeID, |nodeTable|, seqID);
        states := states[seqID := state];
        totalConsensus := totalConsensus + 1;
      } else {
        state := states[seqID];
      }
    }

    // Messages

    /** The value's states change only where a state object changes. */
    twostate lemma OneStateChanged(k: int)
      requires old(Sized()) && Sized() && states == old(states) && k in states
      requires forall j :: j in states && j != k ==> states[j].Value() == old(states[j].Value())
      ensures Value().states == old(Value()).states[k := states[k].Value()]
    {
      var before, after := old(Value()).states, Value().states;
      assert before.Keys == states.Keys && after.Keys == states.Keys;
      assert forall j :: j in states ==> after[j] == states[j].Value() && before[j] == old(states[j].Value());
      assert forall j :: j in states && j != k ==> after[j] == before[j];
    }

    twostate lemma NoStateChanged()
      requires old(Sized()) && Sized() && states == old(states)
      requires forall j :: j in states ==> states[j].Value() == old(states[j].Value())
      ensures Value().states == old(Value()).states
    {
      var before, after := old(Value()).states, Value().states;
      assert before.Keys == states.Keys && after.Keys == states.Keys;
      assert forall j :: j in states ==> after[j] == states[j].Value() && before[j] == old(states[j].Value());
      assert forall j :: j in states ==> after[j] == before[j];
    }

    method BroadCastNextPrepareMsgIfPrimary(sequenceID: int, nextDigest: string) returns (out: seq<Out>)
      requires Valid() && sequenceID >= 1
      modifies this`viewID, this`primary, this`epochID
      ensures Valid()
      ensures (Value(), out) == NextProposed(old(Value()), sequenceID, nextDigest)
    {
      UpdateViewID(sequenceID - 1);
      if (sequenceID - 1) % 10 == 0 {
        UpdateEpochID(sequenceID - 1);
      }
      NoStateChanged();
      var primaryNode := nodeTable[viewID];
      if primaryNode.nodeID != myInfo.nodeID {
        return [];
      }
      return [OutPrepare(PrepareMsg(viewID, sequenceID, nextDigest, epochID, myInfo.nodeID, -1))];
    }

    /** Marks a sequence number as prepared, once. */
    method MarkPreparedOnce(k: int)
      requires Valid() && Slot(k)
      modifies prepared
      ensures Valid() && Value() == MarkPrepared(old(Value()), k)
    {
      if prepared[k] == 0 {
        prepared[k] := prepared[k] + 1;
      }
      NoStateChanged();
    }

    /** Sends notices to the executor. */
    method Execute(notices: seq<Option<PrepareMsg>>)
      requires Valid()
      modifies this`msgExecution
      ensures Valid() && Value() == old(Value()).(exec := old(msgExecution) + notices)
    {
      msgExecution := msgExecution + notices;
      NoStateChanged();
    }

    method PrepareState(state: State, k: int, prepareMsg: PrepareMsg, requestMsg: Option<RequestMsg>,
                        requestDigest: Option<string>) returns (voteMsg: VoteMsg)
      requires Valid() && k in states && states[k] == state
      modifies state
      ensures Valid()
      ensures var v, r := old(Value()), PrepareNext(old(Value().states[k]), prepareMsg, requestMsg, requestDigest);
              Value() == v.(states := v.states[k := r.0]) && voteMsg == r.1
    {
      voteMsg := state.Prepare(prepareMsg, requestMsg, requestDigest);
      OneStateChanged(k);
    }

    method GetPrepare(state: State, prepareMsg: PrepareMsg, requestMsg: Option<RequestMsg>,
                      requestDigest: Option<string>, nextDigest: string) returns (out: seq<Out>)
      requires Valid() && Slot(prepareMsg.sequenceID)
      requires prepareMsg.sequenceID in states && states[prepareMsg.sequenceID] == state
      modifies this`viewID, this`primary, this`epochID, this`states, this`totalConsensus, this`msgExecution
      modifies prepared, state
      ensures Valid() && fresh(states.Values - old(states.Values))
      ensures (Value(), out) == PrepareHandled(old(Value()), prepareMsg, requestMsg, requestDigest, nextDigest)
    {
      var k := prepareMsg.sequenceID;
      var voteMsg := PrepareState(state, k, prepareMsg, requestMsg, requestDigest);
      if voteMsg.sequenceID == 0 {
        return [];
      }
      out := Announce(prepareMsg, voteMsg, nextDigest);
    }

    /** Number k is prepared, and the next number gets its proposal and its state. */
    method Advance(k: int, nextDigest: string) returns (out: seq<Out>)
      requires Valid() && Slot(k)
      modifies this`viewID, this`primary, this`epochID, this`states, this`totalConsensus, prepared
      ensures Valid() && fresh(states.Values - old(states.Values))
      ensures (Value(), out) == Advanced(old(Value()), k, nextDigest)
    {
      out := BroadCastNextPrepareMsgIfPrimary(k + 1, nextDigest);
      MarkPreparedOnce(k);
      var next := StartThreadIfNotExists(k + 1);
    }

    method Announce(prepareMsg: PrepareMsg, voteMsg: VoteMsg, nextDigest: string) returns (out: seq<Out>)
      requires Valid() && Slot(prepareMsg.sequenceID)
      modifies this`viewID, this`primary, this`epochID, this`states, this`totalConsensus, this`msgExecution, prepared
      ensures Valid() && fresh(states.Values - old(states.Values))
      ensures (Value(), out) == Announced(old(Value()), prepareMsg, voteMsg, nextDigest)
    {
      out := Advance(prepareMsg.sequenceID, nextDigest);
      out := out + [OutVote(voteMsg.(nodeID := myInfo.nodeID))];
      ExecuteAgain(prepareMsg);
    }

    /** A number that is committed already is executed again. */
    method ExecuteAgain(prepareMsg: PrepareMsg)
      requires Valid() && Slot(prepareMsg.sequenceID)
      modifies this`msgExecution
      ensures Valid() && Value() == Repeated(old(Value()), prepareMsg)
    {
      if committed[prepareMsg.sequenceID] == 1 {
        Execute([Some(prepareMsg)]);
      }
      NoStateChanged();
    }

    /** Delivery of a PREPARE message. */
    method ResolvePrepare(prepareMsg: PrepareMsg, requestMsg: Option<RequestMsg>,
                          requestDigest: Option<string>, nextDigest: string) returns (out: seq<Out>)
      requires Valid() && Slot(prepareMsg.sequenceID)
      modifies this, prepared, states.Values
      ensures Valid() && fresh(states.Values - old(states.Values))
      ensures (Value(), out) == PrepareHandled(old(Value()), prepareMsg, requestMsg, requestDigest, nextDigest)
    {
      var state := StartThreadIfNotExists(prepareMsg.sequenceID);
      out := GetPrepare(state, prepareMsg, requestMsg, requestDigest, nextDigest);
    }

    method VoteState(state: State, k: int, voteMsg: VoteMsg) returns (collateMsg: CollateMsg)
      requires Valid() && k in states && states[k] == state
      modifies state
      ensures Valid()
      ensures var v, r := old(Value()), VoteNext(old(Value().states[k]), Some(voteMsg), |nodeTable|);
              && Value() == v.(states := v.states[k := r.0]) && collateMsg == r.1.collate
              && state.Value() == r.0
    {
      var err;
      collateMsg, err := state.Vote(Some(voteMsg), |nodeTable|);
      OneStateChanged(k);
    }

    /** The PREPARE message to execute on a commit: the own one, or that of some vote. */
    method Commit(state: State, votes: map<NodeID, VoteMsg>, pick: NodeID)
      requires Valid() && Picks(votes, pick)
      modifies this`msgExecution
      ensures Valid()
      ensures Value() == old(Value()).(exec := old(msgExecution) + Notices(state.prepareMsg, votes, pick))
    {
      if state.prepareMsg.None? {
        if votes != map[] {
          Execute([votes[pick].prepareMsg]);
        }
      } else {
        Execute([state.prepareMsg]);
      }
      NoStateChanged();
    }

    method GetVote(state: State, voteMsg: VoteMsg, pick: NodeID) returns (out: seq<Out>)
      requires Valid() && voteMsg.sequenceID in states && states[voteMsg.sequenceID] == state
      requires Picks(VoteAnswer(Value(), voteMsg).0.votes, pick)
      modifies this`msgExecution, state
      ensures Valid()
      ensures (Value(), out) == VoteCounted(old(Value()), voteMsg, pick)
    {
      var collateMsg := VoteState(state, voteMsg.sequenceID, voteMsg);
      if collateMsg.sequenceID == 0 {
        return [];
      }
      out := [];
      match collateMsg.msgType {
        case COMMITTED =>
          Commit(state, collateMsg.receivedVoteMsg, pick);
          out := [OutCollate(collateMsg.(nodeID := myInfo.nodeID))];
        case UNCOMMITTED =>
          out := [OutCollate(collateMsg.(nodeID := myInfo.nodeID))];
        case _ =>
      }
    }

    /** Delivery of a VOTE message. */
    method ResolveVote(voteMsg: VoteMsg, pick: NodeID) returns (out: seq<Out>)
      requires Valid() && Slot(voteMsg.sequenceID)
      requires Dropped(Value(), voteMsg.sequenceID) ||
               Picks(VoteAnswer(Started(Value(), voteMsg.sequenceID), voteMsg).0.votes, pick)
      modifies this`states, this`totalConsensus, this`msgExecution, states.Values
      ensures Valid() && fresh(states.Values - old(states.Values))
      ensures (Value(), out) == VoteHandled(old(Value()), voteMsg, pick)
    {
      var k := voteMsg.sequenceID;
      if committed[k] == 1 {
        return [];
      }
      if k !in states && k == 1 {
        // The genesis message has not come in: the vote is delivered again later.
        return [];
      }
      var state := StartThreadIfNotExists(k);
      out := GetVote(state, voteMsg, pick);
    }

    method CollateState(state: State, k: int, collateMsg: CollateMsg) returns (newCollateMsg: CollateMsg)
      requires Valid() && k in states && states[k] == state
      modifies state
      ensures Valid()
      ensures var v, r := old(Value()), CollateNext(FillNext(old(Value().states[k]), collateMsg), collateMsg);
              && Value() == v.(states := v.states[k := r.0]) && newCollateMsg == r.1.collate
              && state.Value() == r.0
    {
      state.FillHoleVoteMsgs(collateMsg);
      var err;
      newCollateMsg, err := state.Collate(collateMsg);
      OneStateChanged(k);
    }

    /** Executing on a collate needs the number to be prepared here, and not yet committed. */
    method CommitIfPrepared(state: State, newCollateMsg: CollateMsg, pick: NodeID)
      requires Valid() && Slot(newCollateMsg.sequenceID) && Picks(newCollateMsg.receivedVoteMsg, pick)
      modifies this`msgExecution
      ensures Valid()
      ensures Value() == IfPrepared(old(Value()), newCollateMsg.sequenceID,
                                    Notices(state.prepareMsg, newCollateMsg.receivedVoteMsg, pick))
    {
      if prepared[newCollateMsg.sequenceID] == 1 {
        if committed[newCollateMsg.sequenceID] == 0 {
          Commit(state, newCollateMsg.receivedVoteMsg, pick);
        }
      }
    }

    method GetCollate(state: State, collateMsg: CollateMsg, pick: NodeID)
      requires Valid() && collateMsg.sequenceID in states && states[collateMsg.sequenceID] == state
      requires Slot(CollateAnswer(Value(), collateMsg).1.collate.sequenceID)
      requires Picks(CollateAnswer(Value(), collateMsg).1.collate.receivedVoteMsg, pick)
      modifies this`msgExecution, state
      ensures Valid()
      ensures Value() == CollateCounted(old(Value()), collateMsg, pick)
    {
      match collateMsg.msgType {
        case UNCOMMITTED =>
          var newCollateMsg := CollateState(state, collateMsg.sequenceID, collateMsg);
          if newCollateMsg.sequenceID == 0 {
            return;
          }
          if newCollateMsg.msgType == COMMITTED {
            CommitIfPrepared(state, newCollateMsg, pick);
          }
        case COMMITTED =>
          var newCollateMsg := CollateState(state, collateMsg.sequenceID, collateMsg);
          CommitIfPrepared(state, newCollateMsg, pick);
        case _ =>
      }
    }

    /** Delivery of a COLLATE message. */
    method ResolveCollate(collateMsg: CollateMsg, pick: NodeID)
      requires Valid() && Slot(collateMsg.sequenceID)
      requires Dropped(Value(), collateMsg.sequenceID) ||
               (var o := CollateAnswer(Started(Value(), collateMsg.sequenceID), collateMsg).1;
                Slot(o.collate.sequenceID) && Picks(o.collate.receivedVoteMsg, pick))
      modifies this`states, this`totalConsensus, this`msgExecution, states.Values
      ensures Valid() && fresh(states.Values - old(states.Values))
      ensures Value() == CollateHandled(old(Value()), collateMsg, pick)
    {
      var k := collateMsg.sequenceID;
      if committed[k] == 1 {
        return;
      }
      if k !in states && k == 1 {
        return;
      }
      var state := StartThreadIfNotExists(k);
      GetCollate(state, collateMsg, pick);
    }

    // Timers

    method PrepareTimerExpired(state: State, seqID: int) returns (out: seq<Out>)
      requires Valid() && Slot(seqID) && seqID in states && states[seqID] == state
      modifies prepared, state
      ensures Valid()
      ensures (Value(), out) == PrepareExpired(old(Value()), seqID)
    {
      var voteMsg := PrepareState(state, seqID, NullPrepare(seqID), None, None);
      MarkPreparedOnce(seqID);
      out := [OutVote(voteMsg.(nodeID := myInfo.nodeID))];
    }

    /** What both adaptive commits do. */
    method CommitAdaptively(state: State, collateMsg: CollateMsg, pick: NodeID) returns (out: seq<Out>)
      requires Valid() && Slot(state.sequenceID) && Picks(state.voteMsgs, pick)
      requires collateMsg == MakeCollate(state.Value(), COMMITTED)
      modifies this`msgExecution
      ensures Valid()
      ensures (Value(), out) == Committing(old(Value()), state.Value(), pick)
    {
      if committed[collateMsg.sequenceID] == 0 {
        Commit(state, collateMsg.receivedVoteMsg, pick);
        return [OutCollate(collateMsg.(nodeID := myInfo.nodeID))];
      }
      return [];
    }

    method VoteTimerExpired(state: State, seqID: int, pick: NodeID) returns (out: seq<Out>)
      requires Valid() && seqID in states && states[seqID] == state
      requires Slot(state.sequenceID) && Picks(state.voteMsgs, pick)
      modifies this`msgExecution
      ensures Valid()
      ensures (Value(), out) == VoteExpired(old(Value()), seqID, pick)
    {
      var collateMsg := state.VoteAQ(|nodeTable|);
      match collateMsg.msgType {
        case UNCOMMITTED => out := [OutCollate(collateMsg.(nodeID := myInfo.nodeID))];
        case COMMITTED => out := CommitAdaptively(state, collateMsg, pick);
      }
    }

    method CollateTimerExpired(state: State, seqID: int, pick: NodeID) returns (out: seq<Out>)
      requires Valid() && seqID in states && states[seqID] == state
      requires Slot(state.sequenceID) && Picks(state.voteMsgs, pick)
      modifies this`msgExecution
      ensures Valid()
      ensures (Value(), out) == CollateExpired(old(Value()), seqID, pick)
    {
      var collateMsg := state.CollateAQ(|nodeTable|);
      match collateMsg.msgType {
        case UNCOMMITTED => out := [];
        case COMMITTED => out := CommitAdaptively(state, collateMsg, pick);
      }
    }

    // The executor

    /** The number executed last, looked up at the length of the log. */
    method LastSequenceID() returns (lastSequenceID: int)
      requires Dense(committedMsgs)
      ensures lastSequenceID == |committedMsgs|
    {
      lastSequenceID := 0;
      var msgTotalCnt := |committedMsgs|;
      if msgTotalCnt > 0 {
        var lastCommittedMsg := committedMsgs[msgTotalCnt];
        lastSequenceID := lastCommittedMsg.sequenceID;
      }
    }

    method AppendNext(k: int)
      requires Sized() && KeyedBySequence(pairs)
      requires k == |committedMsgs| + 1 && k in pairs && Slot(k) && k in states
      modifies this`committedMsgs, this`stableCheckPoint, this`pairs, committed
      ensures Sized() && Value() == Appended(old(Value()))
    {
      var p := pairs[k];
      // The state of the executed number is told to stop.
      assert p.sequenceID in states;
      committedMsgs := committedMsgs[k := p];
      committed[k] := committed[k] + 1;
      pairs := pairs - {k};
      stableCheckPoint := k;
      NoStateChanged();
    }

    method SelectNext()
      requires Sized() && stableCheckPoint >= 0
      modifies this`viewID, this`primary, this`epochID, this`nextCandidateIdx, this`history
      ensures Sized() && Value() == Selected(old(Value()))
      ensures 10 * epochID + viewID == stableCheckPoint
    {
      UpdateViewID(stableCheckPoint);
      UpdateEpochID(stableCheckPoint);
      if stableCheckPoint % 10 == 0 {
        nextCandidateIdx := 10;
      }
      history := history + [Selection(stableCheckPoint, epochID, viewID, primary)];
      NoStateChanged();
    }

    /** The log is dense, and all that is ready has a slot and a state. */
    ghost predicate CanExecute()
      reads this
    {
      && Dense(committedMsgs) && KeyedBySequence(pairs)
      && Ready(pairs, |committedMsgs|) < SLOTS
      && forall i :: |committedMsgs| < i <= Ready(pairs, |committedMsgs|) ==> i in states
    }

    /** What is left to drain stays the same when the next number is executed, and the buffer shrinks. */
    method ExecuteNumber(k: int)
      requires Sized() && CanExecute() && k == |committedMsgs| + 1 && k in pairs
      modifies this`committedMsgs, this`stableCheckPoint, this`pairs, this`viewID, this`primary, this`epochID
      modifies this`nextCandidateIdx, this`history, committed
      ensures Sized() && CanExecute() && Drain(Value()) == Drain(old(Value()))
      ensures Value() == ExecutedOne(old(Value())) && |pairs| < old(|pairs|)
    {
      DrainStep(Value());
      BufferShrinks(pairs, k);
      AppendNext(k);
      SelectNext();
    }

    /** The inner loop. */
    method ExecuteReady()
      requires Sized() && CanExecute()
      modifies this`committedMsgs, this`stableCheckPoint, this`pairs, this`viewID, this`primary, this`epochID
      modifies this`nextCandidateIdx, this`history, committed
      ensures Sized() && Value() == Drain(old(Value()))
    {
      ghost var goal := Drain(Value());
      while true
        invariant Sized() && CanExecute() && Drain(Value()) == goal
        decreases |pairs|
      {
        var lastSequenceID := LastSequenceID();
        if lastSequenceID + 1 !in pairs {
          assert Drain(Value()) == Value() by { NothingReady(Value()); }
          break;
        }
        ExecuteNumber(lastSequenceID + 1);
      }
    }

    method BufferArrival(prepareMsg: PrepareMsg)
      requires Sized()
      modifies this`pairs
      ensures Sized() && pairs == old(pairs)[prepareMsg.sequenceID := prepareMsg]
      ensures Value() == old(Value()).(pairs := pairs)
    {
      pairs := pairs[prepareMsg.sequenceID := prepareMsg];
      NoStateChanged();
    }

    /** One arrival: it is buffered, and the buffer is drained as far as it goes. */
    method ExecuteArrival(prepareMsg: PrepareMsg)
      requires Sized() && Fits(Value(), prepareMsg)
      modifies this`committedMsgs, this`stableCheckPoint, this`pairs, this`viewID, this`primary, this`epochID
      modifies this`nextCandidateIdx, this`history, committed
      ensures Sized() && Value() == ArrivalHandled(old(Value()), prepareMsg)
    {
      BufferArrival(prepareMsg);
      ExecuteReady();
    }

    /** The outer loop over the notices received so far, from a replica that has executed nothing. */
    method ExecuteMsg(stream: seq<PrepareMsg>)
      requires Sized() && Unexecuted(Value())
      requires Length(stream) < SLOTS && forall i :: 1 <= i <= Length(stream) ==> i in states
      modifies this`committedMsgs, this`stableCheckPoint, this`pairs, this`viewID, this`primary, this`epochID
      modifies this`nextCandidateIdx, this`history, committed
      ensures Sized() && Value() == Arrivals(old(Value()), stream)
      ensures HasExecuted(Value(), stream)
    {
      ghost var v := Value();
      for t := 0 to |stream|
        invariant Sized() && Value() == Arrivals(v, stream[..t])
      {
        ArrivalFits(v, stream, t);
        ExecuteArrival(stream[t]);
      }
      assert stream[..|stream|] == stream;
      ExecutorRefines(v, stream);
    }

    // View change

    /** Everything about number i is dropped. */
    method DropNumber(i: int)
      requires Valid() && Slot(i)
      modifies this`committedMsgs, this`states, this`totalConsensus, committed, prepared
      ensures Valid() && totalConsensus == old(totalConsensus) - 1
      ensures committedMsgs == old(committedMsgs) - {i} && states == old(states) - {i}
      ensures committed[..] == old(committed[..])[i := 0] && prepared[..] == old(prepared[..])[i := 0]
    {
      committedMsgs := committedMsgs - {i};
      if committed[i] != 0 {
        committed[i] := 0;
      }
      if prepared[i] != 0 {
        prepared[i] := 0;
      }
      states := states - {i};
      totalConsensus := totalConsensus - 1;
    }

    /** The rollback loop of both view change handlers, field by field. */
    method DropNumbersFrom(s: int)
      requires Valid() && s >= 0
      requires s <= totalConsensus ==> totalConsensus < SLOTS
      modifies this`committedMsgs, this`states, this`totalConsensus, committed, prepared
      ensures Valid()
      ensures committedMsgs == Outside(old(committedMsgs), s, old(totalConsensus))
      ensures states == Outside(old(states), s, old(totalConsensus))
      ensures committed[..] == Zeroed(old(committed[..]), s, old(totalConsensus))
      ensures prepared[..] == Zeroed(old(prepared[..]), s, old(totalConsensus))
      ensures totalConsensus == if s <= old(totalConsensus) then s - 1 else old(totalConsensus)
    {
      var totalcon := totalConsensus;
      ghost var log, oldStates, slots, prep := committedMsgs, states, committed[..], prepared[..];
      var i := s;
      while i <= totalcon
        invariant Valid()
        invariant s <= i
        invariant i <= totalcon + 1 || i == s
        invariant committedMsgs == Outside(log, s, i - 1)
        invariant states == Outside(oldStates, s, i - 1)
        invariant committed[..] == Zeroed(slots, s, i - 1)
        invariant prepared[..] == Zeroed(prep, s, i - 1)
        invariant totalConsensus == totalcon - (i - s)
      {
        DropNumber(i);
        i := i + 1;
      }
    }

    /** The rollback: log entries, states and flags of the sequence numbers from s on are dropped. */
    method RollBack(s: int)
      requires Valid() && s >= 0
      requires s <= totalConsensus ==> totalConsensus < SLOTS
      modifies this`committedMsgs, this`states, this`totalConsensus, committed, prepared
      ensures Valid() && Value() == Rolled(old(Value()), s)
    {
      ghost var before, total := Value().states, totalConsensus;
      DropNumbersFrom(s);
      ghost var after := Value().states;
      assert after.Keys == states.Keys && before.Keys == old(states).Keys;
      forall j | j in states ensures after[j] == before[j] {
        assert after[j] == states[j].Value() && before[j] == old(states[j].Value());
      }
      OutsideIs(before, after, s, total);
    }

    /** The running maximum over the checkpoints of a certificate, in any order. */
    method FindStableCheckpoint(newViewMsg: NewViewMsg) returns (minS: int)
      ensures IsMinS(newViewMsg.setViewChangeMsgs, minS)
    {
      minS := 0;
      var msgs := newViewMsg.setViewChangeMsgs;
      var rest := msgs.Keys;
      while rest != {}
        invariant rest <= msgs.Keys && minS >= 0
        invariant forall k :: k in msgs && k !in rest ==> msgs[k].stableCheckPoint <= minS
        invariant minS == 0 || exists k :: k in msgs && msgs[k].stableCheckPoint == minS
        decreases rest
      {
        var k :| k in rest;
        if minS < msgs[k].stableCheckPoint {
          minS := msgs[k].stableCheckPoint;
        }
        rest := rest - {k};
      }
    }

    /** The largest committed number, over the keys in any order. */
    method CommittedMax() returns (committedMax: int)
      ensures committedMax == MaxKey(committedMsgs.Keys)
    {
      committedMax := 0;
      var rest := committedMsgs.Keys;
      while rest != {}
        invariant rest <= committedMsgs.Keys && committedMax >= 0
        invariant forall k :: k in committedMsgs && k !in rest ==> k <= committedMax
        invariant committedMax == 0 || committedMax in committedMsgs
        decreases rest
      {
        ghost var some := Element(rest);
        var seqID :| seqID in rest;
        if committedMax <= seqID {
          committedMax := seqID;
        }
        rest := rest - {seqID};
      }
    }

    /** Placeholders are written from the largest committed number itself up to minS. */
    method FillLog(minS: int)
      requires Sized()
      modifies this`committedMsgs
      ensures Sized() && Value() == old(Value()).(log := Filled(old(Value()), minS).log)
    {
      var committedMax := CommittedMax();
      WritePlaceholders(committedMax, minS);
      NoStateChanged();
    }

    method WritePlaceholders(first: int, minS: int)
      requires |nodeTable| > 0
      modifies this`committedMsgs
      ensures committedMsgs == old(committedMsgs) + map i | first <= i <= minS :: Placeholder(i, |nodeTable|)
    {
      var committedMax := first;
      while committedMax <= minS
        invariant first <= committedMax && (committedMax == first || committedMax <= minS + 1)
        invariant committedMsgs == old(committedMsgs) + map i | first <= i < committedMax :: Placeholder(i, |nodeTable|)
      {
        var prepare := PrepareMsg(0, committedMax, "", committedMax / |nodeTable|, "", 0);
        committedMsgs := committedMsgs[committedMax := prepare];
        committedMax := committedMax + 1;
      }
    }

    method FillHole(newViewMsg: NewViewMsg)
      requires Sized()
      modifies this`committedMsgs, this`totalConsensus
      ensures Sized() && Value() == Filled(old(Value()), newViewMsg.minS)
    {
      FillLog(newViewMsg.minS);
      RaiseTotal(newViewMsg.minS);
    }

    method RaiseTotal(minS: int)
      requires Sized()
      modifies this`totalConsensus
      ensures Sized()
      ensures Value() == old(Value()).(total := if old(totalConsensus) < minS then minS else old(totalConsensus))
    {
      while totalConsensus < minS
        invariant totalConsensus == old(totalConsensus) || totalConsensus <= minS
        invariant totalConsensus >= old(totalConsensus)
      {
        totalConsensus := totalConsensus + 1;
      }
      NoStateChanged();
    }

    /** The states of view changes: one object per sequence number, with the node's fault bound. */
    ghost predicate ValidViewChanges()
      reads this, vcStates.Values
    {
      && |nodeTable| >= 1
      && (forall k :: k in vcStates ==>
           vcStates[k].Valid() && vcStates[k].f == FaultBound(|nodeTable|) && vcStates[k].sequenceID == k &&
           vcStates[k].nodeID == myInfo.nodeID)
      && forall j, k :: j in vcStates && k in vcStates && j != k ==> vcStates[j] != vcStates[k]
    }

    /** The VIEW-CHANGE messages logged for a sequence number. */
    ghost function Logged(k: int): map<NodeID, ViewChangeMsg>
      reads this, vcStates.Values
    {
      if k in vcStates then vcStates[k].viewChangeMsgs else map[]
    }

    /** The NEW-VIEW message kept for a sequence number. */
    ghost function NewViewFor(k: int): Option<NewViewMsg>
      reads this, vcStates.Values
    {
      if k in vcStates then vcStates[k].newViewMsg else None
    }

    /** The candidate that a view change to k names: that of the moment at which its state was created. */
    ghost function CandidateFor(k: int): int
      reads this
    {
      if k in vcStates then vcStates[k].nextCandidateIdx else nextCandidateIdx
    }

    method GetVCState(sequenceID: int) returns (vcs: VCState)
      requires ValidViewChanges()
      modifies this`vcStates
      ensures ValidViewChanges() && sequenceID in vcStates && vcs == vcStates[sequenceID]
      ensures fresh(vcStates.Values - old(vcStates.Values))
      ensures forall k :: Logged(k) == old(Logged(k)) && NewViewFor(k) == old(NewViewFor(k))
      ensures forall k :: CandidateFor(k) == old(CandidateFor(k))
    {
      if sequenceID !in vcStates {
        vcs := new VCState(myInfo.nodeID, |nodeTable|, nextCandidateIdx, stableCheckPoint, sequenceID);
        vcStates := vcStates[sequenceID := vcs];
      }
      vcs := vcStates[sequenceID];
    }

    /** Logs a VIEW-CHANGE message. A NEW-VIEW message comes back exactly when its sender is the
        (2f + 1)-th distinct one for its sequence number. */
    method CollectViewChange(msg: ViewChangeMsg) returns (newViewMsg: Option<NewViewMsg>)
      requires ValidViewChanges()
      modifies this`vcStates, vcStates.Values
      ensures ValidViewChanges() && fresh(vcStates.Values - old(vcStates.Values))
      ensures var k, before := msg.sequenceID, old(Logged(msg.sequenceID));
              && Logged(k) == (if msg.nodeID in before then before else before[msg.nodeID := msg])
              && (newViewMsg.Some? <==> msg.nodeID !in before && |before| == 2 * FaultBound(|nodeTable|))
              && (newViewMsg.Some? ==>
                  newViewMsg.value == NewViewMsg(myInfo.nodeID, k, old(CandidateFor(k)), 0, Logged(k), 0))
      ensures forall k :: k != msg.sequenceID ==> Logged(k) == old(Logged(k))
      ensures forall k :: NewViewFor(k) == old(NewViewFor(k))
      ensures forall k :: CandidateFor(k) == old(CandidateFor(k))
    {
      var vcs := GetVCState(msg.sequenceID);
      if msg.nodeID !in vcs.viewChangeMsgs { NewKey(vcs.viewChangeMsgs, msg.nodeID, msg); }
      newViewMsg := vcs.ViewChange(msg);
    }

    method GetViewChange(msg: ViewChangeMsg) returns (out: Option<NewViewMsg>)
      requires Valid() && ValidViewChanges() && msg.sequenceID >= 0
      requires msg.sequenceID <= totalConsensus ==> totalConsensus < SLOTS
      requires 0 <= nextCandidateIdx < |nodeTable|
      modifies this`vcStates, vcStates.Values
      modifies this`isViewChanging, this`committedMsgs, this`states, this`totalConsensus, committed, prepared
      ensures Valid() && ValidViewChanges()
      ensures var before := old(Logged(msg.sequenceID));
              var completes := msg.nodeID !in before && |before| == 2 * FaultBound(|nodeTable|);
              && Logged(msg.sequenceID) == (if msg.nodeID in before then before else before[msg.nodeID := msg])
              && Value() == (if completes then ViewChangeHandled(old(Value()), msg.sequenceID) else old(Value()))
              && (out.Some? <==> completes && nodeTable[nextCandidateIdx] == myInfo)
      ensures out.Some? ==>
                IsNewView(out.value, msg.sequenceID, old(CandidateFor(msg.sequenceID)), Logged(msg.sequenceID))
      ensures forall k :: k != msg.sequenceID ==> Logged(k) == old(Logged(k))
      ensures forall k :: NewViewFor(k) == old(NewViewFor(k))
    {
      var newViewMsg := CollectViewChange(msg);
      NoStateChanged();
      if newViewMsg.None? {
        return None;
      }
      out := ActOn(newViewMsg.value);
    }

    /** The certificate is complete: the view change begins here, and its leader announces it. */
    method ActOn(newViewMsg: NewViewMsg) returns (out: Option<NewViewMsg>)
      requires Valid() && ValidViewChanges() && newViewMsg.sequenceID >= 0
      requires newViewMsg.sequenceID <= totalConsensus ==> totalConsensus < SLOTS
      requires 0 <= nextCandidateIdx < |nodeTable| && newViewMsg.nodeID == myInfo.nodeID
      modifies this`isViewChanging, this`committedMsgs, this`states, this`totalConsensus, committed, prepared
      ensures Valid() && ValidViewChanges()
      ensures Value() == ViewChangeHandled(old(Value()), newViewMsg.sequenceID)
      ensures forall k :: Logged(k) == old(Logged(k)) && NewViewFor(k) == old(NewViewFor(k))
      ensures out.Some? <==> nodeTable[nextCandidateIdx] == myInfo
      ensures out.Some? ==> IsNewView(out.value, newViewMsg.sequenceID, newViewMsg.nextCandidateIdx,
                                      newViewMsg.setViewChangeMsgs)
    {
      BeginViewChange(newViewMsg.sequenceID);
      out := LeadNewView(newViewMsg);
    }

    /** The own NEW-VIEW message for s with this candidate, these VIEW-CHANGE messages and the
        checkpoint they prove. */
    ghost predicate IsNewView(m: NewViewMsg, s: int, candidate: int, msgs: Msgs) {
      && m.nodeID == myInfo.nodeID && m.sequenceID == s && m.nextCandidateIdx == candidate
      && m.setViewChangeMsgs == msgs && IsMinS(msgs, m.minS) && m.epochID == m.minS / 10
    }

    /** The next primary completes the NEW-VIEW message and sends it. */
    method LeadNewView(newViewMsg: NewViewMsg) returns (out: Option<NewViewMsg>)
      requires 0 <= nextCandidateIdx < |nodeTable| && newViewMsg.nodeID == myInfo.nodeID
      ensures out.Some? <==> nodeTable[nextCandidateIdx] == myInfo
      ensures out.Some? ==> IsNewView(out.value, newViewMsg.sequenceID, newViewMsg.nextCandidateIdx,
                                      newViewMsg.setViewChangeMsgs)
    {
      var nextPrimary := nodeTable[nextCandidateIdx];
      out := None;
      if myInfo == nextPrimary {
        var minS := FindStableCheckpoint(newViewMsg);
        out := Some(newViewMsg.(minS := minS, epochID := minS / 10));
      }
    }

    method BeginViewChange(s: int)
      requires Valid() && s >= 0
      requires s <= totalConsensus ==> totalConsensus < SLOTS
      modifies this`isViewChanging, this`committedMsgs, this`states, this`totalConsensus, committed, prepared
      ensures Valid() && Value() == ViewChangeHandled(old(Value()), s)
    {
      RollBack(s);
      label Rolled:
      isViewChanging := true;
      NoStateChanged@Rolled();
    }

    /** Changes checkpoint, view, epoch and candidate. */
    method Turn(msg: NewViewMsg)
      requires Sized() && msg.sequenceID >= 1 && nextCandidateIdx == msg.nextCandidateIdx
      modifies this`stableCheckPoint, this`epochID, this`viewID, this`primary, this`nextCandidateIdx
      modifies this`isViewChanging
      ensures Sized() && Value() == Turned(old(Value()), msg)
    {
      stableCheckPoint := msg.minS;
      epochID := msg.epochID;
      UpdateViewID(msg.sequenceID - 1);
      UpdateEpochID(msg.sequenceID - 1);
      nextCandidateIdx := nextCandidateIdx + 1;
      if msg.sequenceID % 10 == 0 {
        nextCandidateIdx := 7;
      }
      isViewChanging := false;
      NoStateChanged();
    }

    /** The candidate becomes that of the message, and the message is kept. */
    method RegisterNewView(msg: NewViewMsg)
      requires Sized() && ValidViewChanges()
      modifies this`nextCandidateIdx, this`vcStates, vcStates.Values
      ensures Sized() && ValidViewChanges()
      ensures Value() == old(Value()).(candidate := msg.nextCandidateIdx)
      ensures msg.sequenceID in vcStates && vcStates[msg.sequenceID].newViewMsg == Some(msg)
      ensures forall k :: Logged(k) == old(Logged(k)) && (k != msg.sequenceID ==> NewViewFor(k) == old(NewViewFor(k)))
    {
      nextCandidateIdx := msg.nextCandidateIdx;
      KeepNewView(msg);
      NoStateChanged();
    }

    method KeepNewView(msg: NewViewMsg)
      requires ValidViewChanges()
      modifies this`vcStates, vcStates.Values
      ensures ValidViewChanges()
      ensures msg.sequenceID in vcStates && vcStates[msg.sequenceID].newViewMsg == Some(msg)
      ensures forall k :: Logged(k) == old(Logged(k)) && (k != msg.sequenceID ==> NewViewFor(k) == old(NewViewFor(k)))
    {
      var vcs := GetVCState(msg.sequenceID);
      label Found:
      vcs.newViewMsg := Some(msg);
      assert forall k :: Logged(k) == old@Found(Logged(k));
    }

    method FillAndTurn(msg: NewViewMsg)
      requires Sized() && msg.sequenceID >= 1 && nextCandidateIdx == msg.nextCandidateIdx
      modifies this`committedMsgs, this`totalConsensus
      modifies this`stableCheckPoint, this`epochID, this`viewID, this`primary, this`nextCandidateIdx
      modifies this`isViewChanging
      ensures Sized() && Value() == Turned(Filled(old(Value()), msg.minS), msg)
    {
      FillHole(msg);
      Turn(msg);
    }

    /** The states of view changes are as they were. */
    twostate lemma ViewChangesKept()
      requires old(ValidViewChanges()) && vcStates == old(vcStates)
      requires forall k :: k in vcStates ==> unchanged(vcStates[k])
      ensures ValidViewChanges()
      ensures forall k :: Logged(k) == old(Logged(k)) && NewViewFor(k) == old(NewViewFor(k))
    {}

    method RollBackAndRegister(msg: NewViewMsg)
      requires Valid() && ValidViewChanges() && msg.sequenceID >= 1
      requires msg.sequenceID <= totalConsensus ==> totalConsensus < SLOTS
      modifies this`vcStates, vcStates.Values, this`nextCandidateIdx
      modifies this`committedMsgs, this`states, this`totalConsensus, committed, prepared
      ensures Valid() && ValidViewChanges() && nextCandidateIdx == msg.nextCandidateIdx
      ensures Value() == Rolled(old(Value()), msg.sequenceID).(candidate := msg.nextCandidateIdx)
      ensures msg.sequenceID in vcStates && vcStates[msg.sequenceID].newViewMsg == Some(msg)
      ensures forall k :: Logged(k) == old(Logged(k)) && (k != msg.sequenceID ==> NewViewFor(k) == old(NewViewFor(k)))
    {
      RollBack(msg.sequenceID);
      ViewChangesKept();
      RegisterNewView(msg);
    }

    method FillTurnAndStart(msg: NewViewMsg)
      requires Valid() && msg.sequenceID >= 1 && nextCandidateIdx == msg.nextCandidateIdx
      modifies this`isViewChanging, this`committedMsgs, this`states, this`totalConsensus
      modifies this`stableCheckPoint, this`epochID, this`viewID, this`primary, this`nextCandidateIdx
      ensures Valid() && fresh(states.Values - old(states.Values))
      ensures Value() == Started(Turned(Filled(old(Value()), msg.minS), msg), msg.sequenceID)
    {
      FillAndTurn(msg);
      var state := StartThreadIfNotExists(msg.sequenceID);
    }

    /** A NEW-VIEW message: rollback, filling holes, and going on; the new primary proposes. */
    method GetNewView(msg: NewViewMsg, nextDigest: string) returns (out: seq<Out>)
      requires Valid() && ValidViewChanges() && msg.sequenceID >= 1
      requires msg.sequenceID <= totalConsensus ==> totalConsensus < SLOTS
      requires 0 <= msg.nextCandidateIdx < |nodeTable|
      modifies this`vcStates, vcStates.Values
      modifies this`isViewChanging, this`committedMsgs, this`states, this`totalConsensus, committed, prepared
      modifies this`stableCheckPoint, this`epochID, this`viewID, this`primary, this`nextCandidateIdx
      ensures Valid() && Value() == NewViewHandled(old(Value()), msg)
      ensures ValidViewChanges()
      ensures forall k :: Logged(k) == old(Logged(k)) && (k != msg.sequenceID ==> NewViewFor(k) == old(NewViewFor(k)))
      ensures msg.sequenceID in vcStates && vcStates[msg.sequenceID].newViewMsg == Some(msg)
      ensures out == if nodeTable[msg.nextCandidateIdx].nodeID == myInfo.nodeID
                     then [OutPrepare(PrepareMsg(viewID, msg.sequenceID, nextDigest, epochID, myInfo.nodeID, -1))]
                     else []
    {
      RollBackAndRegister(msg);
      label Registered:
      FillTurnAndStart(msg);
      ViewChangesKept@Registered();
      var primaryNode := nodeTable[msg.nextCandidateIdx];
      out := [];
      if primaryNode.nodeID == myInfo.nodeID {
        out := [OutPrepare(PrepareMsg(viewID, msg.sequenceID, nextDigest, epochID, myInfo.nodeID, -1))];
      }
    }

    /** Delivery of a VIEW-CHANGE message. */
    method ResolveViewChange(msg: ViewChangeMsg) returns (out: Option<NewViewMsg>)
      requires Valid() && ValidViewChanges() && msg.sequenceID >= 0
      requires msg.sequenceID <= Started(Value(), msg.sequenceID).total ==>
                 Started(Value(), msg.sequenceID).total < SLOTS
      requires 0 <= nextCandidateIdx < |nodeTable|
      modifies this`vcStates, vcStates.Values
      modifies this`isViewChanging, this`committedMsgs, this`states, this`totalConsensus, committed, prepared
      ensures Valid() && ValidViewChanges()
      ensures var before := old(Logged(msg.sequenceID));
              var completes := msg.nodeID !in before && |before| == 2 * FaultBound(|nodeTable|);
              && Logged(msg.sequenceID) == (if msg.nodeID in before then before else before[msg.nodeID := msg])
              && Value() == ViewChangeDelivered(old(Value()), msg.sequenceID, completes)
              && (out.Some? <==> completes && nodeTable[nextCandidateIdx] == myInfo)
      ensures out.Some? ==>
                IsNewView(out.value, msg.sequenceID, old(CandidateFor(msg.sequenceID)), Logged(msg.sequenceID))
      ensures forall k :: k != msg.sequenceID ==> Logged(k) == old(Logged(k))
      ensures forall k :: NewViewFor(k) == old(NewViewFor(k))
    {
      var state := StartThreadIfNotExists(msg.sequenceID);
      ViewChangesKept();
      assert CandidateFor(msg.sequenceID) == old(CandidateFor(msg.sequenceID));
      out := GetViewChange(msg);
    }

    /** Delivery of a NEW-VIEW message. */
    method ResolveNewView(msg: NewViewMsg, nextDigest: string) returns (out: seq<Out>)
      requires Valid() && ValidViewChanges() && msg.sequenceID >= 1
      requires msg.sequenceID <= Started(Value(), msg.sequenceID).total ==>
                 Started(Value(), msg.sequenceID).total < SLOTS
      requires 0 <= msg.nextCandidateIdx < |nodeTable|
      modifies this`vcStates, vcStates.Values
      modifies this`isViewChanging, this`committedMsgs, this`states, this`totalConsensus, committed, prepared
      modifies this`stableCheckPoint, this`epochID, this`viewID, this`primary, this`nextCandidateIdx
      ensures Valid() && Value() == NewViewDelivered(old(Value()), msg)
      ensures ValidViewChanges()
      ensures forall k :: Logged(k) == old(Logged(k)) && (k != msg.sequenceID ==> NewViewFor(k) == old(NewViewFor(k)))
      ensures msg.sequenceID in vcStates && vcStates[msg.sequenceID].newViewMsg == Some(msg)
      ensures out == if nodeTable[msg.nextCandidateIdx].nodeID == myInfo.nodeID
                     then [OutPrepare(PrepareMsg(viewID, msg.sequenceID, nextDigest, epochID, myInfo.nodeID, -1))]
                     else []
    {
      var state := StartThreadIfNotExists(msg.sequenceID);
      ViewChangesKept();
      out := GetNewView(msg, nextDigest);
    }
  }
}
