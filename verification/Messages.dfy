/** The messages that replicas exchange, as plain values (pbft/consensus/pbft_msg_types.go). */
module Messages {

  datatype Option<+T> = None | Some(value: T)

  type NodeID = string

  /** The kinds of message, in the order of the source's constants. VOTE is the zero value, so a
      COLLATE message that was never filled in carries VOTE. */
  datatype MsgType = VOTE | REJECT | NULLMSG | COMMITTED | UNCOMMITTED

  datatype RequestMsg = RequestMsg(timestamp: int, clientID: string, operation: string, data: string, sequenceID: int)

  datatype PrepareMsg =
    PrepareMsg(viewID: int, sequenceID: int, digest: string, epochID: int, nodeID: NodeID, seed: int)

  /** `addr` stands for the address of the message in memory. Two references to vote messages are
      the same reference exactly when the two values are equal, address included. */
  datatype VoteMsg =
    VoteMsg(addr: nat, viewID: int, sequenceID: int, prepareMsg: Option<PrepareMsg>, digest: string,
            nodeID: NodeID, msgType: MsgType)

  /** In `receivedVoteMsg` an absent key stands both for an absent key and for a nil entry: the
      source looks entries up and compares them with nil, which cannot tell the two apart. */
  datatype CollateMsg =
    CollateMsg(receivedPrepare: Option<PrepareMsg>, receivedVoteMsg: map<NodeID, VoteMsg>,
               sentVoteMsg: Option<VoteMsg>, viewID: int, sequenceID: int, digest: string,
               msgType: MsgType, nodeID: NodeID)

  /** The zero value that handlers recognise by its sequence number 0. */
  const NO_COLLATE := CollateMsg(None, map[], None, 0, 0, "", VOTE, "")

  const NO_VOTE := VoteMsg(0, 0, 0, None, "", "", VOTE)

  datatype ViewChangeMsg =
    ViewChangeMsg(nodeID: NodeID, sequenceID: int, nextCandidateIdx: int, stableCheckPoint: int)

  datatype NewViewMsg =
    NewViewMsg(nodeID: NodeID, sequenceID: int, nextCandidateIdx: int, epochID: int,
               setViewChangeMsgs: map<NodeID, ViewChangeMsg>, minS: int)

  datatype NodeInfo = NodeInfo(nodeID: NodeID, url: string)
}
