/** What the executor's log holds after a stream of commit notices, said without the executor:
    entry i is the last notice with sequence number i among the first notices that cover 1..i. */
module ExecutorSpec {
  import opened Messages

  type Log = map<int, PrepareMsg>

  /** The shape that the executor relies on: keys 1..|log|, each entry carrying its key. */
  ghost predicate Dense(log: Log) {
    && (forall i :: i in log <==> 1 <= i <= |log|)
    && (forall i :: i in log ==> log[i].sequenceID == i)
  }

  /** The last number of the run of consecutive members of `s` that starts at k + 1. */
  function RunEnd(s: set<int>, k: int): (r: int)
    ensures k <= r && r + 1 !in s && forall i :: k < i <= r ==> i in s
    decreases |s|
  {
    if k + 1 in s then
      assert s == (s - {k + 1}) + {k + 1};
      RunEnd(s - {k + 1}, k + 1)
    else k
  }

  lemma RunEndUnique(s: set<int>, k: int, r: int)
    requires k <= r && r + 1 !in s && forall i :: k < i <= r ==> i in s
    ensures r == RunEnd(s, k)
  {
    var e := RunEnd(s, k);
    assert e < r ==> e + 1 in s;
  }

  /** The sequence numbers that have arrived. */
  function Numbers(arrived: seq<PrepareMsg>): set<int> {
    if arrived == [] then {} else Numbers(Front(arrived)) + {Newest(arrived).sequenceID}
  }

  function Front(arrived: seq<PrepareMsg>): seq<PrepareMsg>
    requires arrived != []
  {
    arrived[..|arrived| - 1]
  }

  function Newest(arrived: seq<PrepareMsg>): PrepareMsg
    requires arrived != []
  {
    arrived[|arrived| - 1]
  }

  lemma {:induction false} NumbersMeaning(arrived: seq<PrepareMsg>, i: int)
    ensures i in Numbers(arrived) <==> exists p :: p in arrived && p.sequenceID == i
  {
    if arrived != [] {
      NumbersMeaning(Front(arrived), i);
      assert arrived == Front(arrived) + [Newest(arrived)];
      if i == Newest(arrived).sequenceID {
        assert Newest(arrived) in arrived;
      }
    }
  }

  /** The number of entries to expect: all of 1..Length have arrived, and Length + 1 has not. */
  function Length(arrived: seq<PrepareMsg>): nat {
    RunEnd(Numbers(arrived), 0)
  }

  /** The last arrival with sequence number i. */
  function Last(arrived: seq<PrepareMsg>, i: int): PrepareMsg
    requires i in Numbers(arrived)
  {
    if Newest(arrived).sequenceID == i then Newest(arrived) else Last(Front(arrived), i)
  }

  /** Entry i: later arrivals do not count once 1..i are complete. */
  function Entry(arrived: seq<PrepareMsg>, i: int): PrepareMsg
    requires 1 <= i <= Length(arrived)
  {
    if i <= Length(Front(arrived)) then Entry(Front(arrived), i) else Last(arrived, i)
  }

  function ExpectedLog(arrived: seq<PrepareMsg>): Log {
    map i | 1 <= i <= Length(arrived) :: Entry(arrived, i)
  }

  lemma {:induction false} LastArrived(arrived: seq<PrepareMsg>, i: int)
    requires i in Numbers(arrived)
    ensures Last(arrived, i) in arrived && Last(arrived, i).sequenceID == i
  {
    if Newest(arrived).sequenceID != i {
      LastArrived(Front(arrived), i);
    }
  }

  lemma {:induction false} EntryArrived(arrived: seq<PrepareMsg>, i: int)
    requires 1 <= i <= Length(arrived)
    ensures Entry(arrived, i) in arrived && Entry(arrived, i).sequenceID == i
  {
    if i <= Length(Front(arrived)) {
      EntryArrived(Front(arrived), i);
    } else {
      LastArrived(arrived, i);
    }
  }

  lemma LengthGrows(arrived: seq<PrepareMsg>)
    requires arrived != []
    ensures Length(Front(arrived)) <= Length(arrived)
  {}

  ghost function Range(n: nat): (s: set<int>)
    ensures |s| == n && forall i :: i in s <==> 1 <= i <= n
  {
    if n == 0 then {} else Range(n - 1) + {n}
  }

  lemma DenseWhenKeys(log: Log, n: nat)
    requires forall i :: i in log <==> 1 <= i <= n
    requires forall i :: i in log ==> log[i].sequenceID == i
    ensures Dense(log) && |log| == n
  {
    assert log.Keys == Range(n);
    assert |log| == |log.Keys|;
  }

  lemma ExpectedLogIsDense(arrived: seq<PrepareMsg>)
    ensures Dense(ExpectedLog(arrived)) && |ExpectedLog(arrived)| == Length(arrived)
  {
    forall i | 1 <= i <= Length(arrived) ensures Entry(arrived, i).sequenceID == i {
      EntryArrived(arrived, i);
    }
    DenseWhenKeys(ExpectedLog(arrived), Length(arrived));
  }

  /** In terms of time: entry i is fixed by the first t arrivals, where t is the first moment at
      which all of 1..i have arrived. */
  lemma {:induction false} EntryMeaning(arrived: seq<PrepareMsg>, i: int) returns (t: nat)
    requires 1 <= i <= Length(arrived)
    ensures 1 <= t <= |arrived|
    ensures Length(arrived[..t - 1]) < i <= Length(arrived[..t])
    ensures Entry(arrived, i) == Last(arrived[..t], i)
  {
    var front := Front(arrived);
    if i <= Length(front) {
      t := EntryMeaning(front, i);
      assert front[..t] == arrived[..t] && front[..t - 1] == arrived[..t - 1];
    } else {
      t := |arrived|;
      assert arrived[..t] == arrived;
    }
  }

  /** Exactly once: an entry that is in the log is never rewritten or removed. */
  lemma {:induction false} ExecutedForever(arrived: seq<PrepareMsg>, k: nat, i: int)
    requires k <= |arrived| && i in ExpectedLog(arrived[..k])
    ensures i in ExpectedLog(arrived) && ExpectedLog(arrived)[i] == ExpectedLog(arrived[..k])[i]
  {
    if k < |arrived| {
      var front := Front(arrived);
      assert front[..k] == arrived[..k];
      ExecutedForever(front, k, i);
      LengthGrows(arrived);
    } else {
      assert arrived[..k] == arrived;
    }
  }

  /** One message per sequence number. */
  ghost predicate OnePerNumber(arrived: seq<PrepareMsg>) {
    forall p, q :: p in arrived && q in arrived && p.sequenceID == q.sequenceID ==> p == q
  }

  /** Confluence: two streams that bring the same messages, one per sequence number, in any order
      and with any repetitions, lead to the same log. */
  lemma Confluence(a: seq<PrepareMsg>, b: seq<PrepareMsg>)
    requires OnePerNumber(a) && forall p :: p in a <==> p in b
    ensures ExpectedLog(a) == ExpectedLog(b)
  {
    forall i ensures i in Numbers(a) <==> i in Numbers(b) {
      NumbersMeaning(a, i);
      NumbersMeaning(b, i);
    }
    assert Numbers(a) == Numbers(b);
    forall i | 1 <= i <= Length(a) ensures Entry(a, i) == Entry(b, i) {
      EntryArrived(a, i);
      EntryArrived(b, i);
    }
  }

  // Draining the reorder buffer

  /** What the executor takes out of the buffer on top of a log of length n. */
  function Ready(pairs: Log, n: nat): (end: int)
    ensures n <= end && end + 1 !in pairs && forall i :: n < i <= end ==> i in pairs
  {
    RunEnd(pairs.Keys, n)
  }

  function Drained(log: Log, pairs: Log): Log {
    log + map i | |log| < i <= Ready(pairs, |log|) :: pairs[i]
  }

  function Leftover(log: Log, pairs: Log): Log {
    map i | i in pairs && !(|log| < i <= Ready(pairs, |log|)) :: pairs[i]
  }

  ghost predicate KeyedBySequence(pairs: Log) {
    forall i :: i in pairs ==> pairs[i].sequenceID == i
  }

  lemma DrainedIsDense(log: Log, pairs: Log)
    requires Dense(log) && KeyedBySequence(pairs)
    ensures Dense(Drained(log, pairs)) && |Drained(log, pairs)| == Ready(pairs, |log|)
  {
    DenseWhenKeys(Drained(log, pairs), Ready(pairs, |log|));
  }

  /** The buffer holds, beyond n, the last arrival of each number that has arrived. */
  ghost predicate BuffersBeyond(pairs: Log, arrived: seq<PrepareMsg>, n: int) {
    && KeyedBySequence(pairs)
    && (forall i :: i > n ==> (i in pairs <==> i in Numbers(arrived)))
    && (forall i :: i > n && i in pairs ==> pairs[i] == Last(arrived, i))
  }

  ghost predicate Buffers(pairs: Log, arrived: seq<PrepareMsg>) {
    BuffersBeyond(pairs, arrived, Length(arrived))
  }

  lemma BufferOne(arrived: seq<PrepareMsg>, pairs: Log, p: PrepareMsg, n: int)
    requires BuffersBeyond(pairs, arrived, n)
    ensures BuffersBeyond(pairs[p.sequenceID := p], arrived + [p], n)
  {
    var next := arrived + [p];
    assert Front(next) == arrived && Newest(next) == p;
  }

  lemma ReadyIsLength(arrived: seq<PrepareMsg>, p: PrepareMsg, buffer: Log)
    requires BuffersBeyond(buffer, arrived + [p], Length(arrived))
    ensures Ready(buffer, Length(arrived)) == Length(arrived + [p])
  {
    var next, end := arrived + [p], Ready(buffer, Length(arrived));
    assert Front(next) == arrived && Newest(next) == p;
    RunEndUnique(Numbers(next), 0, end);
  }

  lemma DrainedIs(log: Log, buffer: Log, expected: Log)
    requires Dense(log)
    requires forall i :: i in expected <==> 1 <= i <= Ready(buffer, |log|)
    requires forall i :: i in log ==> i in expected && expected[i] == log[i]
    requires forall i :: |log| < i <= Ready(buffer, |log|) ==> expected[i] == buffer[i]
    ensures Drained(log, buffer) == expected
  {}

  lemma DrainRefines(arrived: seq<PrepareMsg>, buffer: Log, p: PrepareMsg)
    requires BuffersBeyond(buffer, arrived + [p], Length(arrived))
    ensures Drained(ExpectedLog(arrived), buffer) == ExpectedLog(arrived + [p])
  {
    var log, next := ExpectedLog(arrived), arrived + [p];
    ExpectedLogIsDense(arrived);
    ReadyIsLength(arrived, p, buffer);
    assert Front(next) == arrived;
    DrainedIs(log, buffer, ExpectedLog(next));
  }

  lemma LeftoverBuffers(arrived: seq<PrepareMsg>, buffer: Log, p: PrepareMsg)
    requires BuffersBeyond(buffer, arrived + [p], Length(arrived))
    ensures Buffers(Leftover(ExpectedLog(arrived), buffer), arrived + [p])
  {
    ExpectedLogIsDense(arrived);
    ReadyIsLength(arrived, p, buffer);
  }

  /** One more arrival, put into the buffer and drained, brings the log to what is expected. */
  lemma ArrivalRefines(arrived: seq<PrepareMsg>, pairs: Log, p: PrepareMsg)
    requires Buffers(pairs, arrived)
    ensures var log, buffer := ExpectedLog(arrived), pairs[p.sequenceID := p];
            && Drained(log, buffer) == ExpectedLog(arrived + [p])
            && Buffers(Leftover(log, buffer), arrived + [p])
  {
    BufferOne(arrived, pairs, p, Length(arrived));
    DrainRefines(arrived, pairs[p.sequenceID := p], p);
    LeftoverBuffers(arrived, pairs[p.sequenceID := p], p);
  }
}
