/** The executor: its loop against its result, and its result against the stream of notices. */
module Executor {
  import opened Messages
  import opened ExecutorSpec
  import opened NodeSpec

  /** The next entry goes to the end of a dense log. */
  lemma Extended(log: Log, p: PrepareMsg)
    requires Dense(log) && p.sequenceID == |log| + 1
    ensures Dense(log[|log| + 1 := p]) && |log[|log| + 1 := p]| == |log| + 1
  {
    DenseWhenKeys(log[|log| + 1 := p], |log| + 1);
  }

  lemma ReadyStep(pairs: Log, n: nat)
    requires n + 1 in pairs
    ensures Ready(pairs - {n + 1}, n + 1) == Ready(pairs, n)
  {
    RunEndUnique((pairs - {n + 1}).Keys, n + 1, Ready(pairs, n));
  }

  /** `log2` and `pairs2` are what `log` and `pairs` are after number k has been executed. */
  ghost predicate Moved(log: Log, pairs: Log, k: int, log2: Log, pairs2: Log) {
    && Dense(log) && Dense(log2) && k == |log| + 1 == |log2| && k in pairs
    && log2[k] == pairs[k]
    && (forall i :: i in log ==> i in log2 && log2[i] == log[i])
    && (forall i :: i in pairs2 <==> i in pairs && i != k)
    && (forall i :: i in pairs2 ==> pairs2[i] == pairs[i])
    && Ready(pairs2, k) == Ready(pairs, |log|)
  }

  lemma DrainedFacts(log: Log, pairs: Log)
    requires Dense(log)
    ensures var d := Drained(log, pairs);
            && (forall i :: i in d <==> 1 <= i <= Ready(pairs, |log|))
            && (forall i :: i in log ==> i in d && d[i] == log[i])
            && (forall i :: |log| < i <= Ready(pairs, |log|) ==> d[i] == pairs[i])
  {}

  lemma DrainedStep(log: Log, pairs: Log, k: int, log2: Log, pairs2: Log)
    requires Moved(log, pairs, k, log2, pairs2)
    ensures Drained(log2, pairs2) == Drained(log, pairs)
  {
    var d := Drained(log, pairs);
    DrainedFacts(log, pairs);
    forall i | i in log2 ensures i in d && d[i] == log2[i] {
      assert i == k || i in log;
    }
    DrainedIs(log2, pairs2, d);
  }

  lemma LeftoverStep(log: Log, pairs: Log, k: int, log2: Log, pairs2: Log)
    requires Moved(log, pairs, k, log2, pairs2)
    ensures Leftover(log2, pairs2) == Leftover(log, pairs)
  {}

  lemma BufferShrinks(pairs: Log, k: int)
    requires k in pairs
    ensures |pairs - {k}| < |pairs|
  {
    assert (pairs - {k}).Keys == pairs.Keys - {k};
    assert |pairs - {k}| == |(pairs - {k}).Keys| && |pairs| == |pairs.Keys|;
  }

  lemma NothingReady(v: Replica)
    requires |v.log| + 1 !in v.pairs
    ensures Drain(v) == v
  {}

  lemma CountedStep(committed: seq<int>, n: nat, end: nat)
    requires |committed| == SLOTS && n < end && Slot(n + 1)
    ensures Counted(committed[n + 1 := committed[n + 1] + 1], n + 1, end) == Counted(committed, n, end)
  {}

  lemma SelectedStep(table: seq<NodeInfo>, n: nat, end: nat)
    requires |table| >= VIEWS && n < end
    ensures [SelectionOf(table, n + 1)] + Selections(table, n + 1, end) == Selections(table, n, end)
  {}

  lemma OneMoved(v: Replica)
    requires Dense(v.log) && KeyedBySequence(v.pairs) && |v.log| + 1 in v.pairs && Slot(|v.log| + 1)
    ensures Moved(v.log, v.pairs, |v.log| + 1, ExecutedOne(v).log, ExecutedOne(v).pairs)
    ensures KeyedBySequence(ExecutedOne(v).pairs)
  {
    Extended(v.log, v.pairs[|v.log| + 1]);
    ReadyStep(v.pairs, |v.log|);
  }

  lemma ExecutedToStep(v: Replica, end: nat, log: Log, pairs: Log)
    requires Slot(|v.log| + 1) && |v.log| + 1 in v.pairs && |v.log| < end
    ensures ExecutedTo(ExecutedOne(v), |v.log| + 1, end, log, pairs) == ExecutedTo(v, |v.log|, end, log, pairs)
  {
    var n := |v.log|;
    CountedStep(v.committed, n, end);
    SelectedStep(v.table, n, end);
    assert v.history + [SelectionOf(v.table, n + 1)] + Selections(v.table, n + 1, end)
        == v.history + ([SelectionOf(v.table, n + 1)] + Selections(v.table, n + 1, end));
  }

  lemma ExecutedToNowhere(u: Replica)
    requires u.stable == |u.log| && u.viewID == |u.log| % VIEWS && u.primary == u.table[u.viewID]
    requires u.epochID == |u.log| / VIEWS
    ensures ExecutedTo(u, |u.log|, |u.log|, u.log, u.pairs) == u
  {
    assert Counted(u.committed, |u.log|, |u.log|) == u.committed;
    assert u.history + Selections(u.table, |u.log|, |u.log|) == u.history;
  }

  /** Executing one number and then draining is draining. */
  lemma DrainStep(v: Replica)
    requires Dense(v.log) && KeyedBySequence(v.pairs) && |v.log| + 1 in v.pairs && Slot(|v.log| + 1)
    ensures Drain(ExecutedOne(v)) == Drain(v)
    ensures Dense(ExecutedOne(v).log) && KeyedBySequence(ExecutedOne(v).pairs)
    ensures |ExecutedOne(v).log| == |v.log| + 1
    ensures Ready(ExecutedOne(v).pairs, |v.log| + 1) == Ready(v.pairs, |v.log|)
  {
    var k, u := |v.log| + 1, ExecutedOne(v);
    OneMoved(v);
    DrainedStep(v.log, v.pairs, k, u.log, u.pairs);
    LeftoverStep(v.log, v.pairs, k, u.log, u.pairs);
    var end := Ready(v.pairs, |v.log|);
    ExecutedToStep(v, end, Drained(v.log, v.pairs), Leftover(v.log, v.pairs));
    if end == k {
      NothingLeft(u);
      ExecutedToNowhere(u);
    }
  }

  lemma NothingLeft(u: Replica)
    requires Ready(u.pairs, |u.log|) == |u.log|
    ensures Drained(u.log, u.pairs) == u.log && Leftover(u.log, u.pairs) == u.pairs
  {}

  // The executor over a stream of notices

  function Arrivals(v: Replica, stream: seq<PrepareMsg>): Replica {
    if stream == [] then v else ArrivalHandled(Arrivals(v, Front(stream)), Newest(stream))
  }

  /** A replica that has executed nothing. */
  predicate Unexecuted(v: Replica) {
    && v.log == map[] && v.pairs == map[] && v.stable == 0 && v.history == []
    && forall i :: 0 <= i < SLOTS ==> v.committed[i] == 0
  }

  /** What the executor leaves alone. */
  predicate SameElsewhere(v: Replica, u: Replica) {
    && u.me == v.me && u.table == v.table && u.states == v.states && u.prepared == v.prepared
    && u.total == v.total && u.changing == v.changing && u.exec == v.exec
  }

  /** What the executor has done after these arrivals: the log is the expected one, exactly its
      numbers are committed, once each, and one selection has been made for each, in order. */
  ghost predicate HasExecuted(v: Replica, arrived: seq<PrepareMsg>) {
    && v.log == ExpectedLog(arrived)
    && Buffers(v.pairs, arrived)
    && v.stable == Length(arrived)
    && v.history == Selections(v.table, 0, Length(arrived))
    && forall i :: 0 <= i < SLOTS ==> v.committed[i] == if 1 <= i <= Length(arrived) then 1 else 0
  }

  lemma SelectionsJoin(table: seq<NodeInfo>, n: nat, end: nat)
    requires |table| >= VIEWS && n <= end
    ensures Selections(table, 0, n) + Selections(table, n, end) == Selections(table, 0, end)
  {}

  lemma ArrivalExecutes(v: Replica, arrived: seq<PrepareMsg>, p: PrepareMsg)
    requires HasExecuted(v, arrived)
    ensures HasExecuted(ArrivalHandled(v, p), arrived + [p])
    ensures SameElsewhere(v, ArrivalHandled(v, p))
  {
    var buffer := v.pairs[p.sequenceID := p];
    ExpectedLogIsDense(arrived);
    BufferOne(arrived, v.pairs, p, Length(arrived));
    ReadyIsLength(arrived, p, buffer);
    ArrivalRefines(arrived, v.pairs, p);
    DrainIs(v.(pairs := buffer), Length(arrived), Length(arrived + [p]));
  }

  /** Draining a replica that has executed up to n and is ready up to end. */
  lemma DrainIs(v: Replica, n: nat, end: nat)
    requires n == |v.log| && end == Ready(v.pairs, n) && v.stable == n
    requires v.history == Selections(v.table, 0, n)
    requires forall i :: 0 <= i < SLOTS ==> v.committed[i] == if 1 <= i <= n then 1 else 0
    ensures var w := Drain(v);
            && w.log == Drained(v.log, v.pairs) && w.pairs == Leftover(v.log, v.pairs)
            && w.stable == end && w.history == Selections(v.table, 0, end)
            && (forall i :: 0 <= i < SLOTS ==> w.committed[i] == if 1 <= i <= end then 1 else 0)
            && SameElsewhere(v, w)
  {
    SelectionsJoin(v.table, n, end);
    if end == n {
      NothingLeft(v);
    }
  }

  lemma NothingArrived(v: Replica)
    requires Unexecuted(v)
    ensures HasExecuted(v, [])
  {
    assert ExpectedLog([]) == map[];
  }

  /** Executor refinement, over every stream of notices, out of order and repeated. */
  lemma {:induction false} ExecutorRefines(v: Replica, stream: seq<PrepareMsg>)
    requires Unexecuted(v)
    ensures HasExecuted(Arrivals(v, stream), stream)
    ensures SameElsewhere(v, Arrivals(v, stream))
  {
    if stream == [] {
      NothingArrived(v);
    } else {
      ExecutorRefines(v, Front(stream));
      assert Front(stream) + [Newest(stream)] == stream;
      ArrivalExecutes(Arrivals(v, Front(stream)), Front(stream), Newest(stream));
    }
  }

  /** Confluence of the executor: the same messages, one per number, in any order and with any
      repetitions, lead to the same log, the same committed numbers and the same selections. */
  lemma ExecutorConfluence(v: Replica, a: seq<PrepareMsg>, b: seq<PrepareMsg>)
    requires Unexecuted(v) && OnePerNumber(a) && forall p :: p in a <==> p in b
    ensures var x, y := Arrivals(v, a), Arrivals(v, b);
            x.log == y.log && x.committed == y.committed && x.history == y.history && x.stable == y.stable
  {
    ExecutorRefines(v, a);
    ExecutorRefines(v, b);
    Confluence(a, b);
    ExpectedLogIsDense(a);
    ExpectedLogIsDense(b);
  }

  /** Primary rotation: right after the k-th entry is executed the checkpoint is k and encodes epoch
      and view, and any ten consecutive entries select ten different primaries. */
  lemma PrimaryRotation(v: Replica, stream: seq<PrepareMsg>, i: nat, j: nat)
    requires Unexecuted(v)
    requires forall a, b :: 0 <= a < b < VIEWS ==> v.table[a] != v.table[b]
    requires i < j < i + VIEWS && j < Length(stream)
    ensures var h := Arrivals(v, stream).history;
            && |h| == Length(stream)
            && h[i] == SelectionOf(v.table, i + 1)
            && h[i].stable == i + 1 == VIEWS * h[i].epochID + h[i].viewID
            && h[i].primary != h[j].primary
  {
    ExecutorRefines(v, stream);
    RotationOf(v.table, Length(stream), i, j);
  }

  lemma RotationOf(table: seq<NodeInfo>, n: nat, i: nat, j: nat)
    requires |table| >= VIEWS && forall a, b :: 0 <= a < b < VIEWS ==> table[a] != table[b]
    requires i < j < i + VIEWS && j < n
    ensures var h := Selections(table, 0, n);
            && h[i] == SelectionOf(table, i + 1)
            && h[i].stable == i + 1 == VIEWS * h[i].epochID + h[i].viewID
            && h[i].primary != h[j].primary
  {
    SelectionEncodes(table, i + 1);
    DifferentPrimaries(table, i + 1, j + 1);
    var h := Selections(table, 0, n);
    assert h[i] == SelectionOf(table, i + 1) && h[j] == SelectionOf(table, j + 1);
  }

  lemma SelectionEncodes(table: seq<NodeInfo>, k: nat)
    requires |table| >= VIEWS
    ensures var s := SelectionOf(table, k); s.stable == k == VIEWS * s.epochID + s.viewID
  {}

  lemma DifferentPrimaries(table: seq<NodeInfo>, i: nat, j: nat)
    requires |table| >= VIEWS && forall a, b :: 0 <= a < b < VIEWS ==> table[a] != table[b]
    requires i < j < i + VIEWS
    ensures SelectionOf(table, i).primary != SelectionOf(table, j).primary
  {
    assert i % VIEWS != j % VIEWS;
  }

  /** One proposer: among the replicas of a table, exactly the one that the executor selects as primary
      after number k proposes number k + 1, whatever view it was in. */
  lemma OneProposer(v: Replica, k: nat, i: nat, nextDigest: string)
    requires forall a, b :: 0 <= a < b < |v.table| ==> v.table[a].nodeID != v.table[b].nodeID
    requires i < |v.table| && v.me == v.table[i]
    ensures var (u, out) := NextProposed(v, k + 1, nextDigest);
            && u.viewID == SelectionOf(v.table, k).viewID && u.primary == SelectionOf(v.table, k).primary
            && (out != [] <==> v.me == SelectionOf(v.table, k).primary)
            && (out != [] <==> i == k % VIEWS)
            && (u.epochID == SelectionOf(v.table, k).epochID <==> k % VIEWS == 0 || v.epochID == k / VIEWS)
  {
    var j := k % VIEWS;
    assert WithView(v, k).primary == v.table[j];
    assert i < j || j < i || i == j;
  }

  /** The log is dense and the buffer keyed, and what the arrival makes ready has slots and states. */
  ghost predicate Fits(v: Replica, p: PrepareMsg) {
    var end := Ready(v.pairs[p.sequenceID := p], |v.log|);
    && Dense(v.log) && KeyedBySequence(v.pairs)
    && end < SLOTS && forall i :: |v.log| < i <= end ==> i in v.states
  }

  /** Every arrival of a stream fits when the numbers that the stream completes have slots and states. */
  lemma ArrivalFits(v: Replica, stream: seq<PrepareMsg>, t: nat)
    requires Unexecuted(v) && t < |stream|
    requires Length(stream) < SLOTS && forall i :: 1 <= i <= Length(stream) ==> i in v.states
    ensures Fits(Arrivals(v, stream[..t]), stream[t])
    ensures Arrivals(v, stream[..t + 1]) == ArrivalHandled(Arrivals(v, stream[..t]), stream[t])
  {
    var before := stream[..t];
    assert stream[..t + 1] == before + [stream[t]];
    assert Front(stream[..t + 1]) == before;
    ExecutorRefines(v, before);
    PrefixIsShorter(stream, t + 1);
    ExecutedFits(Arrivals(v, before), before, stream[t]);
  }

  lemma ExecutedFits(u: Replica, arrived: seq<PrepareMsg>, p: PrepareMsg)
    requires HasExecuted(u, arrived)
    requires Length(arrived + [p]) < SLOTS && forall i :: 1 <= i <= Length(arrived + [p]) ==> i in u.states
    ensures Fits(u, p)
  {
    ExpectedLogIsDense(arrived);
    BufferOne(arrived, u.pairs, p, Length(arrived));
    ReadyIsLength(arrived, p, u.pairs[p.sequenceID := p]);
  }

  lemma {:induction false} PrefixIsShorter(stream: seq<PrepareMsg>, t: nat)
    requires t <= |stream|
    ensures Length(stream[..t]) <= Length(stream)
  {
    if t < |stream| {
      assert Front(stream)[..t] == stream[..t];
      PrefixIsShorter(Front(stream), t);
      LengthGrows(stream);
    } else {
      assert stream[..t] == stream;
    }
  }
}
