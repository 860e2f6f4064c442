/** The consensus state of one sequence number (pbft/consensus/pbft_impl.go). */
module Consensus {
  import opened Messages
  import opened VoteSpec

  lemma DropOne<T>(all: set<T>, rest: set<T>, x: T)
    requires x in rest
    ensures |all - (rest - {x})| == |all - rest| + if x in all then 1 else 0
  {
    if x in all {
      assert all - (rest - {x}) == all - rest + {x};
    } else {
      assert all - (rest - {x}) == all - rest;
    }
  }

  class State {
    var viewID: int
    const nodeID: NodeID
    var sequenceID: int
    const f: nat

    var reqMsg: Option<RequestMsg>
    var digest: string
    var prepareMsg: Option<PrepareMsg>
    var sentVoteMsg: Option<VoteMsg>
    var voteMsgs: map<NodeID, VoteMsg>
    var collateMsgs: map<NodeID, CollateMsg>
    var totalVoteMsg: int
    var totalVoteOKMsg: int
    var totalCollateMsg: int

    ghost function Value(): Snapshot
      reads this
    {
      Snapshot(viewID, nodeID, sequenceID, f, digest, reqMsg, prepareMsg, sentVoteMsg,
               voteMsgs, collateMsgs, totalVoteMsg, totalVoteOKMsg, totalCollateMsg)
    }

    constructor (viewID: int, nodeID: NodeID, totNodes: nat, seqID: int)
      requires totNodes >= 1
      ensures Value() == Fresh(viewID, nodeID, totNodes, seqID)
    {
      this.viewID, this.nodeID, this.sequenceID := viewID, nodeID, seqID;
      f := (totNodes - 1) / 3;
      reqMsg, digest, prepareMsg, sentVoteMsg := None, "", None, None;
      voteMsgs, collateMsgs := map[], map[];
      totalVoteMsg, totalVoteOKMsg, totalCollateMsg := 0, 0, 0;
    }

    method VerifyMsg(viewID: int, sequenceID: int, digestGot: string) returns (err: Option<VerifyError>)
      ensures err == Verify(Value(), viewID, sequenceID)
      ensures err == Some(WrongSequence) ==> this.sequenceID != sequenceID
    {
      if this.viewID != viewID {
        return Some(WrongView);
      }
      if this.sequenceID != sequenceID {
        return Some(WrongSequence);
      }
      if digestGot != digest {
        // A mismatch is not reported.
      }
      return None;
    }

    method Prepare(prepareMsg: PrepareMsg, requestMsg: Option<RequestMsg>, requestDigest: Option<string>)
      returns (voteMsg: VoteMsg)
      modifies this
      ensures (Value(), voteMsg) == PrepareNext(old(Value()), prepareMsg, requestMsg, requestDigest)
    {
      if requestMsg.None? {
        voteMsg := VoteMsg(0, viewID, sequenceID, Some(prepareMsg), "NULL", "", NULLMSG);
        digest := "NULL";
        reqMsg := None;
        this.prepareMsg := Some(prepareMsg);
        sentVoteMsg := Some(voteMsg);
        return;
      }
      if requestDigest.None? {
        return NO_VOTE;
      }
      digest := requestDigest.value;
      reqMsg := requestMsg;
      this.prepareMsg := Some(prepareMsg);
      sequenceID := prepareMsg.sequenceID;
      voteMsg := VoteMsg(0, viewID, sequenceID, Some(prepareMsg), digest, "", VOTE);
      sentVoteMsg := Some(voteMsg);
      var err := VerifyMsg(prepareMsg.viewID, prepareMsg.sequenceID, prepareMsg.digest);
      if err.Some? {
        voteMsg := voteMsg.(msgType := REJECT);
        sentVoteMsg := Some(voteMsg);
      }
    }

    method Vote(voteMsg: Option<VoteMsg>, totNodes: int) returns (collate: CollateMsg, err: Option<VerifyError>)
      modifies this
      ensures (Value(), Outcome(collate, err)) == VoteNext(old(Value()), voteMsg, totNodes)
    {
      if voteMsg.None? {
        return NewCollate(UNCOMMITTED), None;
      }
      var v := voteMsg.value;
      if v.nodeID in voteMsgs {
        return NO_COLLATE, None;
      }
      var newTotalVoteOKMsg := 0;
      voteMsgs := voteMsgs[v.nodeID := v];
      totalVoteMsg := totalVoteMsg + 1;
      var newTotalVoteMsg := totalVoteMsg;
      if v.msgType == VOTE {
        totalVoteOKMsg := totalVoteOKMsg + 1;
        newTotalVoteOKMsg := totalVoteOKMsg;
      }
      err := VerifyMsg(v.viewID, v.sequenceID, v.digest);
      if err.Some? {
        return NO_COLLATE, err;
      }
      if newTotalVoteOKMsg == 2 * f + 1 {
        return NewCollate(COMMITTED), None;
      }
      if newTotalVoteMsg == totNodes && newTotalVoteOKMsg < 2 * f + 1 {
        return NewCollate(UNCOMMITTED), None;
      }
      return NO_COLLATE, None;
    }

    method VoteAQ(totalNode: int) returns (collate: CollateMsg)
      ensures collate == MakeCollate(Value(), VoteVerdict(Value(), totalNode))
    {
      var newTotalVoteOKMsg := totalVoteOKMsg;
      var newTotalVoteMsg := totalVoteMsg;
      var byzantine := totalNode - newTotalVoteMsg;
      collate := NewCollate(VOTE);
      if newTotalVoteOKMsg >= 2 * f - byzantine + 1 && 2 * f - byzantine + 1 >= 1 {
        collate := collate.(msgType := COMMITTED);
      } else {
        collate := collate.(msgType := UNCOMMITTED);
      }
    }

    method Collate(collateMsg: CollateMsg) returns (collate: CollateMsg, err: Option<VerifyError>)
      modifies this
      ensures (Value(), Outcome(collate, err)) == CollateNext(old(Value()), collateMsg)
    {
      if collateMsg.nodeID in collateMsgs {
        return NO_COLLATE, None;
      }
      collateMsgs := collateMsgs[collateMsg.nodeID := collateMsg];
      totalCollateMsg := totalCollateMsg + 1;
      err := VerifyMsg(collateMsg.viewID, collateMsg.sequenceID, collateMsg.digest);
      if err.Some? {
        return NO_COLLATE, err;
      }
      match collateMsg.msgType {
        case COMMITTED =>
          return NewCollate(COMMITTED), None;
        case UNCOMMITTED =>
          if totalVoteOKMsg >= 2 * f + 1 {
            return NewCollate(COMMITTED).(receivedPrepare := None), None;
          } else {
            return NewCollate(UNCOMMITTED).(receivedPrepare := None), None;
          }
        case _ =>
      }
      return NO_COLLATE, None;
    }

    method CollateAQ(totalNode: int) returns (collate: CollateMsg)
      ensures collate == MakeCollate(Value(), CollateVerdict(Value(), totalNode))
    {
      var newTotalCollateMsg := totalCollateMsg;
      var newTotalVoteOKMsg := totalVoteOKMsg;
      var byzantine := totalNode - newTotalCollateMsg;
      collate := NewCollate(VOTE);
      if newTotalVoteOKMsg >= 2 * f - byzantine + 1 && 2 * f - byzantine + 1 >= 1 {
        collate := collate.(msgType := COMMITTED);
      } else {
        collate := collate.(msgType := UNCOMMITTED);
      }
    }

    /** A COLLATE message about this state, with the sender left out. */
    function NewCollate(msgType: MsgType): CollateMsg
      reads this
    {
      CollateMsg(prepareMsg, voteMsgs, sentVoteMsg, viewID, sequenceID, digest, msgType, "")
    }

    /** A copy of the vote messages, entry by entry in any order. */
    method GetVoteMsgs() returns (newMap: map<NodeID, VoteMsg>)
      ensures newMap == voteMsgs
    {
      newMap := map[];
      var rest := voteMsgs.Keys;
      while rest != {}
        invariant rest <= voteMsgs.Keys
        invariant newMap == map id | id in voteMsgs && id !in rest :: voteMsgs[id]
        decreases rest
      {
        var id :| id in rest;
        newMap := newMap[id := voteMsgs[id]];
        rest := rest - {id};
      }
    }

    /** The received vote goes into a copy that is dropped; what stays is that it is counted. */
    method FillOneHole(id: NodeID, received: VoteMsg)
      modifies this`totalVoteOKMsg
      ensures totalVoteOKMsg == old(totalVoteOKMsg) + if received.msgType == VOTE then 1 else 0
    {
      var discarded := GetVoteMsgs();
      discarded := discarded[id := received];
      if received.msgType == VOTE {
        totalVoteOKMsg := totalVoteOKMsg + 1;
      }
    }

    /** Filling holes adds no vote, but it can raise the count of VOTE messages. */
    method FillHoleVoteMsgs(collateMsg: CollateMsg)
      modifies this`totalVoteOKMsg
      ensures Value() == FillNext(old(Value()), collateMsg)
    {
      var copy := GetVoteMsgs();
      FillHoles(copy, collateMsg.receivedVoteMsg);
    }

    /** The loop ranges over a copy of the own votes and writes into another copy, so it adds no
        vote: all it changes is the count of VOTE messages. */
    method FillHoles(copy: map<NodeID, VoteMsg>, received: map<NodeID, VoteMsg>)
      modifies this`totalVoteOKMsg
      ensures totalVoteOKMsg == old(totalVoteOKMsg) + |Credited(copy, received)|
    {
      ghost var credited := Credited(copy, received);
      var rest := copy.Keys;
      assert credited - rest == {};
      while rest != {}
        invariant rest <= copy.Keys
        invariant totalVoteOKMsg == old(totalVoteOKMsg) + |credited - rest|
        decreases rest
      {
        var id :| id in rest;
        DropOne(credited, rest, id);
        if id in received && copy[id] != received[id] {
          FillOneHole(id, received[id]);
        }
        rest := rest - {id};
      }
      assert credited - rest == credited;
    }
  }
}
