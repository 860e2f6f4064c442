/** What a view change does to the shape of the log that the executor relies on. */
module ViewChange {
  import opened Messages
  import opened ExecutorSpec
  import opened NodeSpec
  import opened Quorum

  function Min(a: int, b: int): int {
    if a < b then a else b
  }

  function Max(a: int, b: int): int {
    if a < b then b else a
  }

  /** How many of n entries survive a rollback to before s with this counter. */
  function Survivors(n: nat, total: int, s: int): int {
    if s <= total then Min(n, s - 1) else n
  }

  function Surviving(v: Replica, s: int): int {
    Survivors(|v.log|, v.total, s)
  }

  /** A view change to s that fills up to minS can keep a log of n entries dense: the counter covers
      the log (or is below s), and an entry survives (or there is nothing to fill). */
  predicate Recoverable(n: nat, total: int, s: int, minS: int) {
    (s > total || n <= total) && (Survivors(n, total, s) >= 1 || minS < 0)
  }

  // Rollback

  /** The counter ends at min(total, s - 1), and a rollback changes nothing exactly when the counter
      is below s already. */
  lemma RollbackFixpoint(v: Replica, s: int)
    ensures Rolled(v, s).total == Min(v.total, s - 1)
    ensures Rolled(v, s) == v <==> v.total < s
  {
    if v.total < s {
      assert Rolled(v, s).log == v.log && Rolled(v, s).states == v.states;
      assert Rolled(v, s).committed == v.committed && Rolled(v, s).prepared == v.prepared;
    }
  }

  /** A second rollback for the same number finds nothing to do, also when the number has been started
      again in between: then it removes just that. */
  lemma RollbackTwice(v: Replica, s: int)
    requires s <= v.total
    ensures Rolled(Rolled(v, s), s) == Rolled(v, s)
    ensures Rolled(Started(Rolled(v, s), s), s) == Rolled(v, s)
  {
    var u := Rolled(v, s);
    RollbackFixpoint(u, s);
    var w := Started(u, s);
    assert s !in u.states && w.total == s && w.states == u.states[s := w.states[s]];
    assert Rolled(w, s).states.Keys == u.states.Keys;
    assert Rolled(w, s).states == u.states;
    assert Rolled(w, s).log.Keys == u.log.Keys;
    assert Rolled(w, s).log == u.log;
    assert Rolled(w, s).committed == u.committed && Rolled(w, s).prepared == u.prepared;
  }

  /** The two handlers of a view change, each of which starts the number and rolls back: whether the
      VIEW-CHANGE messages came first or not, complete or not, the NEW-VIEW message leads to the same
      replica. */
  lemma CertificateMakesNoDifference(v: Replica, m: NewViewMsg, completes: bool)
    requires m.sequenceID >= 1
    ensures NewViewDelivered(ViewChangeDelivered(v, m.sequenceID, completes), m) == NewViewDelivered(v, m)
  {
    var s, v0 := m.sequenceID, Started(v, m.sequenceID);
    if completes {
      var w := ViewChangeHandled(v0, s);
      assert Rolled(Started(w, s), s) == Rolled(v0, s).(changing := true) by {
        if s <= v0.total {
          RollbackTwice(v0, s);
          ChangingIsKept(Rolled(v0, s), s);
        } else {
          RollbackFixpoint(v0, s);
          RollbackFixpoint(w, s);
          assert Started(w, s) == w;
        }
      }
    }
  }

  lemma ChangingIsKept(u: Replica, s: int)
    ensures Rolled(Started(u.(changing := true), s), s) == Rolled(Started(u, s), s).(changing := true)
  {}

  lemma FullSubset<T>(a: set<T>, b: set<T>)
    requires a <= b
    ensures |a| <= |b| && (|a| == |b| <==> a == b)
  {
    SubsetCardinality(a, b);
    if |a| == |b| {
      assert b - a == {};
      assert b == a + (b - a);
    }
  }

  lemma DroppedStates(v: Replica, s: int)
    requires 1 <= s <= v.total
    ensures var dropped := set k | k in v.states && s <= k <= v.total;
            && |Rolled(v, s).states| == |v.states| - |dropped|
            && dropped <= Range(v.total) - Range(s - 1)
            && |Range(v.total) - Range(s - 1)| == v.total - s + 1
  {
    var u := Rolled(v, s);
    var dropped := set k | k in v.states && s <= k <= v.total;
    assert u.states.Keys == v.states.Keys - dropped;
    assert |u.states| == |u.states.Keys| && |v.states| == |v.states.Keys|;
    SubsetCardinality(dropped, v.states.Keys);
    SubsetCardinality(Range(s - 1), Range(v.total));
  }

  /** The counter of started numbers, where it counts the states, still does after a rollback exactly
      when every number that is rolled back has a state. Otherwise it falls below their number, since
      it is set to s - 1 whatever states there are above it. */
  lemma RollbackKeepsCountIff(v: Replica, s: int)
    requires v.total == |v.states| && 1 <= s <= v.total
    ensures var u := Rolled(v, s);
            && u.total <= |u.states|
            && (u.total == |u.states| <==> forall k :: s <= k <= v.total ==> k in v.states)
  {
    var dropped := set k | k in v.states && s <= k <= v.total;
    DroppedStates(v, s);
    var numbers := Range(v.total) - Range(s - 1);
    FullSubset(dropped, numbers);
    assert forall k: int :: k in numbers <==> s <= k <= v.total;
    if forall k :: s <= k <= v.total ==> k in v.states {
      assert forall k: int :: k in numbers <==> k in dropped;
    } else {
      var k :| s <= k <= v.total && k !in v.states;
      assert k in numbers && k !in dropped;
    }
  }

  lemma SurvivingKeys(v: Replica, s: int)
    requires Dense(v.log) && s >= 1 && (s > v.total || |v.log| <= v.total)
    ensures forall i :: i in Rolled(v, s).log <==> 1 <= i <= Surviving(v, s)
    ensures forall i :: i in Rolled(v, s).log ==> Rolled(v, s).log[i] == v.log[i]
  {}

  /** A rollback keeps the log dense exactly when it has nothing to do or the counter covers the log. */
  lemma RollbackKeepsDenseIff(v: Replica, s: int)
    requires Dense(v.log) && s >= 1
    ensures Dense(Rolled(v, s).log) <==> s > v.total || |v.log| <= v.total
    ensures Dense(Rolled(v, s).log) ==> |Rolled(v, s).log| == Surviving(v, s)
  {
    var log := Rolled(v, s).log;
    if s > v.total || |v.log| <= v.total {
      SurvivingKeys(v, s);
      DenseWhenKeys(log, Surviving(v, s));
    } else {
      assert |v.log| in log && s !in log;
    }
  }

  // Filling holes

  lemma MaxKeyOfDense(log: Log)
    requires Dense(log)
    ensures MaxKey(log.Keys) == |log|
  {
    var m := MaxKey(log.Keys);
    if |log| > 0 {
      assert |log| in log.Keys;
    }
  }

  /** Filling holes on a dense log of k entries keeps it dense exactly when k >= 1 or there is nothing
      to fill. On an empty log it writes key 0, and then the executor's lookup at the length misses. */
  lemma FillKeepsDenseIff(v: Replica, minS: int)
    requires Dense(v.log)
    ensures var log, k := Filled(v, minS).log, |v.log|;
            && (Dense(log) <==> k >= 1 || minS < 0)
            && (Dense(log) ==> |log| == Max(k, minS))
            && (!Dense(log) ==> 0 in log && |log| == minS + 1 && |log| !in log)
  {
    if |v.log| >= 1 || minS < 0 {
      FillNonEmpty(v, minS);
    } else {
      FillEmpty(v, minS);
    }
  }

  lemma FillNonEmpty(v: Replica, minS: int)
    requires Dense(v.log) && (|v.log| >= 1 || minS < 0)
    ensures Dense(Filled(v, minS).log) && |Filled(v, minS).log| == Max(|v.log|, minS)
  {
    MaxKeyOfDense(v.log);
    DenseWhenKeys(Filled(v, minS).log, Max(|v.log|, minS));
  }

  lemma FillEmpty(v: Replica, minS: int)
    requires v.log == map[] && minS >= 0
    ensures var log := Filled(v, minS).log; 0 in log && |log| == minS + 1 && |log| !in log
  {
    assert Dense(v.log);
    MaxKeyOfDense(v.log);
    CountFromZero(Filled(v, minS).log, minS);
  }

  lemma CountFromZero(log: Log, n: nat)
    requires forall i :: i in log <==> 0 <= i <= n
    ensures |log| == n + 1
  {
    var r := Range(n);
    assert 0 !in r;
    assert log.Keys == r + {0};
    assert |log| == |log.Keys|;
  }

  /** Entries below the last one stay, the last one is replaced exactly when it is not above minS,
      and what is added are placeholders. */
  lemma FilledEntries(v: Replica, minS: int, i: int)
    requires Dense(v.log) && |v.log| >= 1
    ensures var log, k := Filled(v, minS).log, |v.log|;
            && (i in log <==> 1 <= i <= Max(k, minS))
            && (1 <= i < k ==> log[i] == v.log[i])
            && (i == k ==> log[i] == if k <= minS then Placeholder(k, |v.table|) else v.log[k])
            && (k < i <= minS ==> log[i] == Placeholder(i, |v.table|))
  {
    MaxKeyOfDense(v.log);
  }

  // The whole view change

  lemma NewViewLog(v: Replica, m: NewViewMsg)
    requires m.sequenceID >= 1
    ensures NewViewHandled(v, m).log == Filled(Rolled(v, m.sequenceID), m.minS).log
  {}

  lemma NewViewTotal(v: Replica, m: NewViewMsg)
    requires m.sequenceID >= 1
    ensures NewViewHandled(v, m).total >= Max(Min(v.total, m.sequenceID - 1), m.minS)
  {}

  /** A gap that a rollback leaves below the last entry is not filled. */
  lemma GapStays(v: Replica, s: int, minS: int)
    requires Dense(v.log) && 1 <= s <= v.total < |v.log|
    ensures !Dense(Filled(Rolled(v, s), minS).log)
  {
    var u := Rolled(v, s);
    assert |v.log| in u.log && s !in u.log;
    assert MaxKey(u.log.Keys) >= |v.log| by { assert |v.log| in u.log.Keys; }
    assert |v.log| in Filled(u, minS).log && s !in Filled(u, minS).log;
  }

  lemma HandledKeepsDenseIff(v: Replica, m: NewViewMsg)
    requires Dense(v.log) && m.sequenceID >= 1
    ensures Dense(NewViewHandled(v, m).log) <==> Recoverable(|v.log|, v.total, m.sequenceID, m.minS)
    ensures Dense(NewViewHandled(v, m).log) ==>
              |NewViewHandled(v, m).log| == Max(Surviving(v, m.sequenceID), m.minS)
  {
    var s := m.sequenceID;
    NewViewLog(v, m);
    if s > v.total || |v.log| <= v.total {
      RollbackKeepsDenseIff(v, s);
      FillKeepsDenseIff(Rolled(v, s), m.minS);
    } else {
      GapStays(v, s, m.minS);
    }
  }

  lemma RolledPrefix(v: Replica, s: int)
    requires Dense(v.log) && |v.log| <= v.total && s >= 1
    ensures var u := Rolled(v, s);
            && Dense(u.log) && |u.log| == Min(|v.log|, s - 1) && u.table == v.table
            && forall j :: j in u.log ==> j in v.log && u.log[j] == v.log[j]
  {
    RollbackKeepsDenseIff(v, s);
  }

  /** Filling holes in what is left of the log of v. */
  lemma FilledShape(u: Replica, v: Replica, minS: int, i: int)
    requires Dense(u.log) && |u.log| >= 1 && u.table == v.table
    requires forall j :: j in u.log ==> j in v.log && u.log[j] == v.log[j]
    ensures var log, k := Filled(u, minS).log, |u.log|;
            && Dense(log) && |log| == Max(k, minS)
            && (1 <= i < k ==> log[i] == v.log[i])
            && (i == k ==> log[i] == if k <= minS then Placeholder(k, |v.table|) else v.log[k])
            && (k < i <= minS ==> log[i] == Placeholder(i, |v.table|))
  {
    FillKeepsDenseIff(u, minS);
    FilledEntries(u, minS, i);
  }

  lemma HandledShape(v: Replica, m: NewViewMsg, i: int)
    requires Dense(v.log) && |v.log| <= v.total && m.sequenceID >= 1 && Min(|v.log|, m.sequenceID - 1) >= 1
    ensures var log, k := NewViewHandled(v, m).log, Min(|v.log|, m.sequenceID - 1);
            && Dense(log) && |log| == Max(k, m.minS) <= NewViewHandled(v, m).total
            && (1 <= i < k ==> log[i] == v.log[i])
            && (i == k ==> log[i] == if k <= m.minS then Placeholder(k, |v.table|) else v.log[k])
            && (k < i <= m.minS ==> log[i] == Placeholder(i, |v.table|))
  {
    var s := m.sequenceID;
    NewViewLog(v, m);
    RolledPrefix(v, s);
    FilledShape(Rolled(v, s), v, m.minS, i);
    NewViewTotal(v, m);
  }

  /** The counter after number s has been started. */
  function TotalWith(v: Replica, s: int): int {
    v.total + if s in v.states then 0 else 1
  }

  /** The shape of the log after the delivery of a NEW-VIEW message for s: the log stays dense exactly
      when the counter covers it (or is below s) and an entry survives (or there is nothing to fill). */
  lemma NewViewKeepsDenseIff(v: Replica, m: NewViewMsg)
    requires Dense(v.log) && m.sequenceID >= 1
    ensures var log, s, total := NewViewDelivered(v, m).log, m.sequenceID, TotalWith(v, m.sequenceID);
            && (Dense(log) <==> Recoverable(|v.log|, total, s, m.minS))
            && (Dense(log) ==> |log| == Max(Survivors(|v.log|, total, s), m.minS))
  {
    StartedParts(v, m.sequenceID);
    HandledKeepsDenseIff(Started(v, m.sequenceID), m);
  }

  lemma StartedParts(v: Replica, s: int)
    ensures Started(v, s).log == v.log && Started(v, s).total == TotalWith(v, s)
  {}

  /** Entry by entry, when the counter covers the log and an entry survives: entries below the last
      survivor stay, that one is replaced exactly when it is not above minS, and what is added are
      placeholders. The counter covers the log afterwards. */
  lemma NewViewShape(v: Replica, m: NewViewMsg, i: int)
    requires Dense(v.log) && |v.log| <= v.total && m.sequenceID >= 1 && Min(|v.log|, m.sequenceID - 1) >= 1
    ensures var log, k := NewViewDelivered(v, m).log, Min(|v.log|, m.sequenceID - 1);
            && Dense(log) && |log| == Max(k, m.minS) <= NewViewDelivered(v, m).total
            && (1 <= i < k ==> log[i] == v.log[i])
            && (i == k ==> log[i] == if k <= m.minS then Placeholder(k, |v.table|) else v.log[k])
            && (k < i <= m.minS ==> log[i] == Placeholder(i, |v.table|))
  {
    HandledShape(Started(v, m.sequenceID), m, i);
  }
}
