/** What a replica does with each message, timer and execution, as functions on the replica's value
    (pbft/network/node.go, pbft/network/view.go). The class Node is proved against these functions. */
module NodeSpec {
  import opened Messages
  import opened VoteSpec
  import opened ExecutorSpec

  /** The length of the arrays `Committed` and `Prepared`. */
  const SLOTS: nat := 1000

  /** The number of views in an epoch. */
  const VIEWS: nat := 10

  /** What the executor selects right after an entry is executed. */
  datatype Selection = Selection(stable: int, epochID: int, viewID: int, primary: NodeInfo)

  /** The value of a replica. `exec` is the channel into the executor, `pairs` the executor's local
      reorder buffer, and `history` records what each executed entry selected. */
  datatype NodeVal =
    NodeVal(me: NodeInfo, table: seq<NodeInfo>, viewID: int, primary: NodeInfo, epochID: int,
            states: map<int, Snapshot>, log: Log, committed: seq<int>, prepared: seq<int>,
            total: int, changing: bool, candidate: int, stable: int,
            exec: seq<Option<PrepareMsg>>, pairs: Log, history: seq<Selection>)
  {
    predicate WellFormed() {
      && |table| >= VIEWS
      && |committed| == SLOTS
      && |prepared| == SLOTS
    }
  }

  type Replica = v: NodeVal | v.WellFormed()
    witness NodeVal(NodeInfo("", ""), seq(VIEWS, _ => NodeInfo("", "")), 0, NodeInfo("", ""), 0, map[], map[],
                    seq(SLOTS, _ => 0), seq(SLOTS, _ => 0), 0, false, 10, 0, [], map[], [])

  datatype Out = OutPrepare(prepare: PrepareMsg) | OutVote(vote: VoteMsg) | OutCollate(collate: CollateMsg)

  function NewNode(me: NodeInfo, table: seq<NodeInfo>, viewID: nat): Replica
    requires |table| >= VIEWS
  {
    NodeVal(me, table, viewID % VIEWS, table[viewID % VIEWS], 0, map[], map[],
            seq(SLOTS, _ => 0), seq(SLOTS, _ => 0), 0, false, 10, 0, [], map[], [])
  }

  function WithView(v: Replica, viewID: nat): Replica {
    v.(viewID := viewID % VIEWS, primary := v.table[viewID % VIEWS])
  }

  /** A state is created, and counted, for a sequence number that has none. */
  function Started(v: Replica, k: int): Replica {
    if k in v.states then v
    else v.(states := v.states[k := Fresh(v.viewID, v.me.nodeID, |v.table|, k)], total := v.total + 1)
  }

  predicate Slot(k: int) {
    0 <= k < SLOTS
  }

  function MarkPrepared(v: Replica, k: int): (u: Replica)
    requires Slot(k)
    ensures u == v.(prepared := u.prepared)
  {
    if v.prepared[k] == 0 then v.(prepared := v.prepared[k := 1]) else v
  }

  /** What a commit sends to the executor: the own PREPARE, or else the PREPARE of one of the votes.
      `pick` is the vote that iterating over the votes yields first. */
  function Notices(prepare: Option<PrepareMsg>, votes: map<NodeID, VoteMsg>, pick: NodeID): seq<Option<PrepareMsg>>
    requires votes != map[] ==> pick in votes
  {
    if prepare.Some? then [prepare]
    else if votes == map[] then []
    else [votes[pick].prepareMsg]
  }

  /** Iterating over these votes can yield `pick` first. */
  predicate Picks(votes: map<NodeID, VoteMsg>, pick: NodeID) {
    votes != map[] ==> pick in votes
  }

  // Message handlers

  /** The view moves on for the next number, and its primary proposes. `nextDigest` is the digest of
      the proposal made here. */
  function NextProposed(v: Replica, sequenceID: int, nextDigest: string): (r: (Replica, seq<Out>))
    requires sequenceID >= 1
    ensures r.0 == v.(viewID := r.0.viewID, primary := r.0.primary, epochID := r.0.epochID)
    ensures forall o :: o in r.1 ==> o.OutPrepare? && o.prepare.sequenceID == sequenceID
  {
    var k := sequenceID - 1;
    var v1 := WithView(v, k);
    var v2 := if k % VIEWS == 0 then v1.(epochID := k / VIEWS) else v1;
    var proposal := PrepareMsg(v2.viewID, sequenceID, nextDigest, v2.epochID, v.me.nodeID, -1);
    (v2, if v2.primary.nodeID == v.me.nodeID then [OutPrepare(proposal)] else [])
  }

  /** Number k is prepared, and the next number gets its proposal and its state. */
  function Advanced(v: Replica, k: int, nextDigest: string): (Replica, seq<Out>)
    requires Slot(k)
  {
    var (v1, proposes) := NextProposed(v, k + 1, nextDigest);
    (Started(MarkPrepared(v1, k), k + 1), proposes)
  }

  /** Handling of a PREPARE message after the state has made its vote: the next number gets its
      proposal and its state, the vote is sent, and a committed number is executed (again). */
  function Announced(v: Replica, p: PrepareMsg, vote: VoteMsg, nextDigest: string): (Replica, seq<Out>)
    requires Slot(p.sequenceID)
  {
    var (v2, proposes) := Advanced(v, p.sequenceID, nextDigest);
    (Repeated(v2, p), proposes + [OutVote(vote.(nodeID := v.me.nodeID))])
  }

  /** A number that is committed already is executed again. */
  function Repeated(v: Replica, p: PrepareMsg): Replica
    requires Slot(p.sequenceID)
  {
    if v.committed[p.sequenceID] == 1 then v.(exec := v.exec + [Some(p)]) else v
  }

  /** What announcing leaves alone: apart from view, epoch and flags, only the next number's state and
      the executor's channel can change. */
  lemma AnnouncedFrame(v: Replica, p: PrepareMsg, vote: VoteMsg, nextDigest: string)
    requires Slot(p.sequenceID)
    ensures var k, u := p.sequenceID + 1, Announced(v, p, vote, nextDigest).0;
            && u.states == (if k in v.states then v.states
                            else v.states[k := Fresh(u.viewID, v.me.nodeID, |v.table|, k)])
            && u.total == v.total + (if k in v.states then 0 else 1)
            && u.log == v.log && u.pairs == v.pairs && u.committed == v.committed && u.table == v.table
            && u.exec == v.exec + if v.committed[p.sequenceID] == 1 then [Some(p)] else []
  {
    var k := p.sequenceID;
    var v1 := NextProposed(v, k + 1, nextDigest).0;
    var v2 := MarkPrepared(v1, k);
    assert v2.states == v.states && v2.exec == v.exec;
    assert v.exec + [] == v.exec;
  }

  /** A PREPARE message with its request, routed to the state of its sequence number. `digest` is the
      digest of the request stored there before. */
  function PrepareHandled(v: Replica, p: PrepareMsg, req: Option<RequestMsg>,
                          digest: Option<string>, nextDigest: string)
    : (r: (Replica, seq<Out>))
    requires Slot(p.sequenceID)
  {
    var k := p.sequenceID;
    var v0 := Started(v, k);
    var (s, vote) := PrepareNext(v0.states[k], p, req, digest);
    var v1 := v0.(states := v0.states[k := s]);
    if vote.sequenceID == 0 then (v1, []) else Announced(v1, p, vote, nextDigest)
  }

  /** Votes and collates are dropped once their number is committed; number 1 waits for its PREPARE. */
  predicate Dropped(v: Replica, k: int)
    requires Slot(k)
  {
    v.committed[k] == 1 || (k !in v.states && k == 1)
  }

  /** The answer of state k to a vote. */
  function VoteAnswer(v: Replica, m: VoteMsg): (Snapshot, Outcome)
    requires m.sequenceID in v.states
  {
    VoteNext(v.states[m.sequenceID], Some(m), |v.table|)
  }

  function VoteCounted(v: Replica, m: VoteMsg, pick: NodeID): (Replica, seq<Out>)
    requires m.sequenceID in v.states && Picks(VoteAnswer(v, m).0.votes, pick)
  {
    var (s, o) := VoteAnswer(v, m);
    var v1 := v.(states := v.states[m.sequenceID := s]);
    var out := [OutCollate(o.collate.(nodeID := v.me.nodeID))];
    if o.collate.sequenceID == 0 then (v1, [])
    else if o.collate.msgType == COMMITTED then
      (v1.(exec := v1.exec + Notices(s.prepare, s.votes, pick)), out)
    else if o.collate.msgType == UNCOMMITTED then (v1, out)
    else (v1, [])
  }

  function VoteHandled(v: Replica, m: VoteMsg, pick: NodeID): (Replica, seq<Out>)
    requires Slot(m.sequenceID)
    requires Dropped(v, m.sequenceID) || Picks(VoteAnswer(Started(v, m.sequenceID), m).0.votes, pick)
  {
    if Dropped(v, m.sequenceID) then (v, []) else VoteCounted(Started(v, m.sequenceID), m, pick)
  }

  /** The answer of state k to a collate, after filling holes from it. */
  function CollateAnswer(v: Replica, c: CollateMsg): (Snapshot, Outcome)
    requires c.sequenceID in v.states
  {
    CollateNext(FillNext(v.states[c.sequenceID], c), c)
  }

  /** A collate that says UNCOMMITTED can be ignored (the answer carries number 0), one that says
      COMMITTED is followed whatever the answer; number 0 is then never prepared. */
  function CollateCounted(v: Replica, c: CollateMsg, pick: NodeID): Replica
    requires c.sequenceID in v.states
    requires Slot(CollateAnswer(v, c).1.collate.sequenceID)
    requires Picks(CollateAnswer(v, c).1.collate.receivedVoteMsg, pick)
  {
    if c.msgType != COMMITTED && c.msgType != UNCOMMITTED then v
    else
      var (s, o) := CollateAnswer(v, c);
      var v1 := v.(states := v.states[c.sequenceID := s]);
      var j := o.collate.sequenceID;
      var follows := c.msgType == COMMITTED || (j != 0 && o.collate.msgType == COMMITTED);
      if follows then IfPrepared(v1, j, Notices(s.prepare, o.collate.receivedVoteMsg, pick)) else v1
  }

  /** Executing on a collate needs the number to be prepared here, and not yet committed. */
  function IfPrepared(v: Replica, j: int, notices: seq<Option<PrepareMsg>>): Replica
    requires Slot(j)
  {
    if v.prepared[j] == 1 && v.committed[j] == 0 then v.(exec := v.exec + notices) else v
  }

  function CollateHandled(v: Replica, c: CollateMsg, pick: NodeID): Replica
    requires Slot(c.sequenceID)
    requires Dropped(v, c.sequenceID) || Slot(CollateAnswer(Started(v, c.sequenceID), c).1.collate.sequenceID)
    requires Dropped(v, c.sequenceID) ||
             Picks(CollateAnswer(Started(v, c.sequenceID), c).1.collate.receivedVoteMsg, pick)
  {
    if Dropped(v, c.sequenceID) then v else CollateCounted(Started(v, c.sequenceID), c, pick)
  }

  // Timers

  /** The empty proposal that a replica prepares when no PREPARE arrives in time. */
  function NullPrepare(k: int): PrepareMsg {
    PrepareMsg(0, k, "", 0, "", 0)
  }

  function PrepareExpired(v: Replica, k: int): (Replica, seq<Out>)
    requires k in v.states && Slot(k)
  {
    var (s, vote) := PrepareNext(v.states[k], NullPrepare(k), None, None);
    (MarkPrepared(v.(states := v.states[k := s]), k), [OutVote(vote.(nodeID := v.me.nodeID))])
  }

  /** What both adaptive commits do: execute and tell the others, unless already committed. */
  function Committing(v: Replica, s: Snapshot, pick: NodeID): (Replica, seq<Out>)
    requires Slot(s.sequenceID) && Picks(s.votes, pick)
  {
    if v.committed[s.sequenceID] == 0 then
      (v.(exec := v.exec + Notices(s.prepare, s.votes, pick)),
       [OutCollate(MakeCollate(s, COMMITTED).(nodeID := v.me.nodeID))])
    else (v, [])
  }

  function VoteExpired(v: Replica, k: int, pick: NodeID): (Replica, seq<Out>)
    requires k in v.states && Slot(v.states[k].sequenceID) && Picks(v.states[k].votes, pick)
  {
    var s := v.states[k];
    if VoteVerdict(s, |v.table|) == COMMITTED then Committing(v, s, pick)
    else (v, [OutCollate(MakeCollate(s, UNCOMMITTED).(nodeID := v.me.nodeID))])
  }

  function CollateExpired(v: Replica, k: int, pick: NodeID): (Replica, seq<Out>)
    requires k in v.states && Slot(v.states[k].sequenceID) && Picks(v.states[k].votes, pick)
  {
    var s := v.states[k];
    if CollateVerdict(s, |v.table|) == COMMITTED then Committing(v, s, pick) else (v, [])
  }

  // The executor

  function SelectionOf(table: seq<NodeInfo>, k: nat): Selection
    requires |table| >= VIEWS
  {
    Selection(k, k / VIEWS, k % VIEWS, table[k % VIEWS])
  }

  /** Each of the numbers from n + 1 to end is counted as committed once more. */
  function Counted(committed: seq<int>, n: int, end: int): (r: seq<int>)
    requires |committed| == SLOTS
    ensures |r| == SLOTS && forall i :: 0 <= i < SLOTS ==> r[i] == committed[i] + if n < i <= end then 1 else 0
  {
    seq(SLOTS, i requires 0 <= i < SLOTS => committed[i] + if n < i <= end then 1 else 0)
  }

  /** What the executed numbers from n + 1 to end select, in order. */
  function Selections(table: seq<NodeInfo>, n: nat, end: nat): (r: seq<Selection>)
    requires |table| >= VIEWS && n <= end
    ensures |r| == end - n && forall j :: 0 <= j < |r| ==> r[j] == SelectionOf(table, n + 1 + j)
  {
    seq(end - n, j requires 0 <= j => SelectionOf(table, n + 1 + j))
  }

  /** Numbers n + 1 to end are executed, which leaves this log and this buffer. */
  function ExecutedTo(v: Replica, n: nat, end: nat, log: Log, pairs: Log): Replica
    requires n <= end
  {
    WithView(v, end).(
    log := log,
    pairs := pairs,
    committed := Counted(v.committed, n, end),
    stable := end,
    epochID := end / VIEWS,
    candidate := if n / VIEWS < end / VIEWS then 10 else v.candidate,
    history := v.history + Selections(v.table, n, end))
  }

  /** All that is ready in the reorder buffer is executed in order. */
  function Drain(v: Replica): Replica {
    var n, end := |v.log|, Ready(v.pairs, |v.log|);
    if end == n then v else ExecutedTo(v, n, end, Drained(v.log, v.pairs), Leftover(v.log, v.pairs))
  }

  /** A notice arrives at the executor. */
  function ArrivalHandled(v: Replica, p: PrepareMsg): Replica {
    Drain(v.(pairs := v.pairs[p.sequenceID := p]))
  }

  /** The next number moves from the buffer to the log. */
  function Appended(v: Replica): Replica
    requires |v.log| + 1 in v.pairs && Slot(|v.log| + 1)
  {
    var k := |v.log| + 1;
    v.(log := v.log[k := v.pairs[k]],
       pairs := v.pairs - {k},
       committed := v.committed[k := v.committed[k] + 1],
       stable := k)
  }

  /** View, epoch and candidate follow the number executed last. */
  function Selected(v: Replica): Replica
    requires v.stable >= 0
  {
    var k := v.stable;
    WithView(v, k).(
    epochID := k / VIEWS,
    candidate := if k % VIEWS == 0 then 10 else v.candidate,
    history := v.history + [SelectionOf(v.table, k)])
  }

  /** One pass of the executor's loop, which executes the next number. */
  function ExecutedOne(v: Replica): Replica
    requires |v.log| + 1 in v.pairs && Slot(|v.log| + 1)
  {
    Selected(Appended(v))
  }

  // View change

  function Zeroed(slots: seq<int>, s: int, total: int): (r: seq<int>)
    requires |slots| == SLOTS
    ensures |r| == SLOTS && forall i :: 0 <= i < SLOTS ==> r[i] == if s <= i <= total then 0 else slots[i]
  {
    seq(SLOTS, i requires 0 <= i < SLOTS => if s <= i <= total then 0 else slots[i])
  }

  /** The entries whose keys are not among s..total. */
  function Outside<T>(m: map<int, T>, s: int, total: int): map<int, T> {
    map i | i in m && !(s <= i <= total) :: m[i]
  }

  /** Rolling back to before sequence number s. */
  function Rolled(v: Replica, s: int): Replica {
    v.(log := Outside(v.log, s, v.total),
       states := Outside(v.states, s, v.total),
       committed := Zeroed(v.committed, s, v.total),
       prepared := Zeroed(v.prepared, s, v.total),
       total := if s <= v.total then s - 1 else v.total)
  }

  /** The largest of the keys, or 0 when none is above 0. */
  ghost function MaxKey(keys: set<int>): (m: int)
    ensures m >= 0 && (m == 0 || m in keys) && forall i :: i in keys ==> i <= m
  {
    if forall i :: i !in keys then 0
    else
      var i :| i in keys;
      var m := MaxKey(keys - {i});
      assert forall j :: j in keys ==> j == i || j in keys - {i};
      if i > m then i else m
  }

  function Placeholder(k: int, tableSize: nat): PrepareMsg
    requires tableSize > 0
  {
    PrepareMsg(0, k, "", k / tableSize, "", 0)
  }

  /** Handling the VIEW-CHANGE message that completes a certificate. */
  function ViewChangeHandled(v: Replica, s: int): Replica {
    Rolled(v, s).(changing := true)
  }

  /** Filling holes writes placeholders from the largest key itself up to minS. */
  ghost function Filled(v: Replica, minS: int): Replica {
    v.(log := v.log + map i | MaxKey(v.log.Keys) <= i <= minS :: Placeholder(i, |v.table|),
       total := if v.total < minS then minS else v.total)
  }

  /** View, epoch, candidate and checkpoint with which a replica goes on after a view change. */
  function Turned(v: Replica, m: NewViewMsg): Replica
    requires m.sequenceID >= 1
  {
    WithView(v, m.sequenceID - 1).(
    stable := m.minS,
    epochID := (m.sequenceID - 1) / VIEWS,
    candidate := if m.sequenceID % 10 == 0 then 7 else m.nextCandidateIdx + 1,
    changing := false)
  }

  ghost function NewViewHandled(v: Replica, m: NewViewMsg): Replica
    requires m.sequenceID >= 1
  {
    Started(Turned(Filled(Rolled(v, m.sequenceID), m.minS), m), m.sequenceID)
  }

  /** Delivery of a VIEW-CHANGE message for s, which starts its number like any other message. */
  function ViewChangeDelivered(v: Replica, s: int, completes: bool): Replica {
    if completes then ViewChangeHandled(Started(v, s), s) else Started(v, s)
  }

  /** Delivery of a NEW-VIEW message. */
  ghost function NewViewDelivered(v: Replica, m: NewViewMsg): Replica
    requires m.sequenceID >= 1
  {
    NewViewHandled(Started(v, m.sequenceID), m)
  }
}
