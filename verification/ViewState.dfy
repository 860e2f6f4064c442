/** The state of a view change to one sequence number, with its calls one after the other
    (pbft/consensus/pbft_view_impl.go). */
module ViewState {
  import opened Messages
  import opened Certificate
  import opened Quorum

  class VCState {
    const nextCandidateIdx: int
    const nodeID: NodeID
    const stableCheckPoint: int
    const sequenceID: int
    const f: nat
    var newViewMsg: Option<NewViewMsg>
    var viewChangeMsgs: Msgs
    var totalViewChangeMsg: int
    var msgSent: int

    ghost predicate Valid()
      reads this
    {
      && totalViewChangeMsg == |viewChangeMsgs|
      && (msgSent == 1 <==> |viewChangeMsgs| >= 2 * f + 1)
      && (msgSent == 0 <==> |viewChangeMsgs| < 2 * f + 1)
    }

    constructor (nodeID: NodeID, totNodes: nat, nextCandidateIdx: int, stableCheckPoint: int, sequenceID: int)
      requires totNodes >= 1
      ensures Valid() && viewChangeMsgs == map[] && newViewMsg == None
      ensures this.nodeID == nodeID && this.nextCandidateIdx == nextCandidateIdx && this.sequenceID == sequenceID
      ensures this.stableCheckPoint == stableCheckPoint && f == (totNodes - 1) / 3
    {
      this.nodeID, this.nextCandidateIdx, this.sequenceID := nodeID, nextCandidateIdx, sequenceID;
      this.stableCheckPoint := stableCheckPoint;
      f := (totNodes - 1) / 3;
      newViewMsg, viewChangeMsgs, totalViewChangeMsg, msgSent := None, map[], 0, 0;
    }

    /** A NEW-VIEW message is returned exactly for the (2f + 1)-th distinct sender, with all
        messages logged so far. */
    method ViewChange(msg: ViewChangeMsg) returns (newView: Option<NewViewMsg>)
      requires Valid()
      modifies this`viewChangeMsgs, this`totalViewChangeMsg, this`msgSent
      ensures Valid()
      ensures viewChangeMsgs == if msg.nodeID in old(viewChangeMsgs) then old(viewChangeMsgs)
                                else old(viewChangeMsgs)[msg.nodeID := msg]
      ensures newView ==
              if msg.nodeID !in old(viewChangeMsgs) && |viewChangeMsgs| == 2 * f + 1
              then Some(NewViewMsg(nodeID, sequenceID, nextCandidateIdx, 0, viewChangeMsgs, 0)) else None
    {
      if msg.nodeID in viewChangeMsgs {
        return None;
      }
      NewKey(viewChangeMsgs, msg.nodeID, msg);
      viewChangeMsgs := viewChangeMsgs[msg.nodeID := msg];
      totalViewChangeMsg := totalViewChangeMsg + 1;
      var newTotalViewchangeMsg := totalViewChangeMsg;
      if newTotalViewchangeMsg >= 2 * f + 1 && msgSent == 0 {
        msgSent := 1;
        var certificate := GetViewChangeMsgs();
        return Some(NewViewMsg(nodeID, sequenceID, nextCandidateIdx, 0, certificate, 0));
      }
      return None;
    }

    /** A copy of the messages, entry by entry in any order. */
    method GetViewChangeMsgs() returns (newMap: Msgs)
      ensures newMap == viewChangeMsgs
    {
      newMap := map[];
      var rest := viewChangeMsgs.Keys;
      while rest != {}
        invariant rest <= viewChangeMsgs.Keys
        invariant newMap == map id | id in viewChangeMsgs && id !in rest :: viewChangeMsgs[id]
        decreases rest
      {
        var id :| id in rest;
        newMap := newMap[id := viewChangeMsgs[id]];
        rest := rest - {id};
      }
    }
  }
}
