/** What one per-sequence consensus state does, as functions on the state's value
    (pbft/consensus/pbft_impl.go). The class State is proved against these functions. */
module VoteSpec {
  import opened Messages
  import opened Quorum

  datatype VerifyError = WrongView | WrongSequence

  /** A COLLATE message and an error, of which handlers inspect both. */
  datatype Outcome = Outcome(collate: CollateMsg, error: Option<VerifyError>)

  /** The value of a consensus state. */
  datatype Snapshot =
    Snapshot(viewID: int, nodeID: NodeID, sequenceID: int, f: nat,
             digest: string, req: Option<RequestMsg>, prepare: Option<PrepareMsg>, sent: Option<VoteMsg>,
             votes: map<NodeID, VoteMsg>, collates: map<NodeID, CollateMsg>,
             totalVote: int, totalOK: int, totalCollate: int)

  function Fresh(viewID: int, nodeID: NodeID, totNodes: nat, seqID: int): Snapshot
    requires totNodes >= 1
  {
    Snapshot(viewID, nodeID, seqID, FaultBound(totNodes), "", None, None, None, map[], map[], 0, 0, 0)
  }

  function MakeCollate(s: Snapshot, msgType: MsgType): CollateMsg {
    CollateMsg(s.prepare, s.votes, s.sent, s.viewID, s.sequenceID, s.digest, msgType, "")
  }

  /** The check of incoming messages. A digest that differs is not an error. */
  function Verify(s: Snapshot, viewID: int, sequenceID: int): Option<VerifyError> {
    if s.viewID != viewID then Some(WrongView)
    else if s.sequenceID != sequenceID then Some(WrongSequence)
    else None
  }

  /** `digest` is the digest of the request stored before the call, None when hashing fails. */
  function PrepareNext(s: Snapshot, p: PrepareMsg, req: Option<RequestMsg>, digest: Option<string>)
    : (r: (Snapshot, VoteMsg))
  {
    if req.None? then
      var vote := VoteMsg(0, s.viewID, s.sequenceID, Some(p), "NULL", "", NULLMSG);
      (s.(digest := "NULL", req := None, prepare := Some(p), sent := Some(vote)), vote)
    else if digest.None? then
      (s, NO_VOTE)
    else
      var msgType := if s.viewID == p.viewID then VOTE else REJECT;
      var vote := VoteMsg(0, s.viewID, p.sequenceID, Some(p), digest.value, "", msgType);
      (s.(digest := digest.value, req := req, prepare := Some(p), sequenceID := p.sequenceID, sent := Some(vote)),
       vote)
  }

  /** Storing a vote and counting it, which happens before the vote is verified. */
  function Tally(s: Snapshot, v: VoteMsg): Snapshot {
    s.(votes := s.votes[v.nodeID := v],
       totalVote := s.totalVote + 1,
       totalOK := s.totalOK + if v.msgType == VOTE then 1 else 0)
  }

  function VoteNext(s: Snapshot, m: Option<VoteMsg>, totNodes: int): (Snapshot, Outcome) {
    if m.None? then
      (s, Outcome(MakeCollate(s, UNCOMMITTED), None))
    else if m.value.nodeID in s.votes then
      (s, Outcome(NO_COLLATE, None))
    else
      var v, t := m.value, Tally(s, m.value);
      var newOK := if v.msgType == VOTE then t.totalOK else 0;
      if Verify(s, v.viewID, v.sequenceID).Some? then
        (t, Outcome(NO_COLLATE, Verify(s, v.viewID, v.sequenceID)))
      else if newOK == 2 * s.f + 1 then
        (t, Outcome(MakeCollate(t, COMMITTED), None))
      else if t.totalVote == totNodes && newOK < 2 * s.f + 1 then
        (t, Outcome(MakeCollate(t, UNCOMMITTED), None))
      else
        (t, Outcome(NO_COLLATE, None))
  }

  /** The verdict of both adaptive quorums on `heard` of `totalNode` members. */
  function AdaptiveVerdict(s: Snapshot, totalNode: int, heard: int): MsgType {
    var threshold := 2 * s.f - (totalNode - heard) + 1;
    if s.totalOK >= threshold && threshold >= 1 then COMMITTED else UNCOMMITTED
  }

  function VoteVerdict(s: Snapshot, totalNode: int): MsgType {
    AdaptiveVerdict(s, totalNode, s.totalVote)
  }

  function CollateVerdict(s: Snapshot, totalNode: int): MsgType {
    AdaptiveVerdict(s, totalNode, s.totalCollate)
  }

  function CollateNext(s: Snapshot, c: CollateMsg): (Snapshot, Outcome) {
    if c.nodeID in s.collates then
      (s, Outcome(NO_COLLATE, None))
    else
      var t := s.(collates := s.collates[c.nodeID := c], totalCollate := s.totalCollate + 1);
      if Verify(s, c.viewID, c.sequenceID).Some? then
        (t, Outcome(NO_COLLATE, Verify(s, c.viewID, c.sequenceID)))
      else if c.msgType == COMMITTED then
        (t, Outcome(MakeCollate(t, COMMITTED), None))
      else if c.msgType == UNCOMMITTED then
        (t, Outcome(MakeCollate(t, if s.totalOK >= 2 * s.f + 1 then COMMITTED else UNCOMMITTED)
                    .(receivedPrepare := None), None))
      else
        (t, Outcome(NO_COLLATE, None))
  }

  /** The own voters for which `received` holds another VOTE message. */
  function Credited(votes: map<NodeID, VoteMsg>, received: map<NodeID, VoteMsg>): set<NodeID> {
    set id | id in votes && id in received && received[id] != votes[id] && received[id].msgType == VOTE
  }

  /** Filling holes adds no vote; it only raises the count of VOTE messages. */
  function FillNext(s: Snapshot, c: CollateMsg): Snapshot {
    s.(totalOK := s.totalOK + |Credited(s.votes, c.receivedVoteMsg)|)
  }

  function OKVoters(votes: map<NodeID, VoteMsg>): set<NodeID> {
    set id | id in votes && votes[id].msgType == VOTE
  }
}
