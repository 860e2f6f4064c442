/** Quorum sizes and quorum intersection, for any number n >= 1 of members. */
module Quorum {

  /** The fault bound f = (n - 1) / 3. */
  function FaultBound(n: nat): (f: nat)
    requires n >= 1
    ensures 3 * f + 1 <= n <= 3 * f + 3
  {
    (n - 1) / 3
  }

  /** The threshold that the code compares VOTE counts with when b members have not voted. */
  function CodeQuorum(n: nat, b: int): int
    requires n >= 1
  {
    2 * FaultBound(n) - b + 1
  }

  /** The documented threshold f - b + ceil((n - f + 1) / 2). */
  function DocQuorum(n: nat, b: int): int
    requires n >= 1
  {
    FaultBound(n) - b + (n - FaultBound(n) + 2) / 2
  }

  /** The code is one below the documentation except when n = 3f + 1. */
  lemma ThresholdsAgree(n: nat, b: int)
    requires n >= 1
    ensures n % 3 == 1 <==> CodeQuorum(n, b) == DocQuorum(n, b)
    ensures n % 3 != 1 ==> CodeQuorum(n, b) == DocQuorum(n, b) - 1
    ensures n % 3 == 1 <==> n == 3 * FaultBound(n) + 1
  {
    var f := FaultBound(n);
    assert n - f + 2 == 2 * f + 3 + (n - 3 * f - 1);
    var r := n - 3 * f - 1;
    assert 0 <= r <= 2 && n % 3 == (r + 1) % 3;
  }

  // Cardinalities

  lemma {:induction false} SubsetCardinality<T>(a: set<T>, b: set<T>)
    requires a <= b
    ensures |a| <= |b|
    ensures |b - a| == |b| - |a|
  {
    assert b == a + (b - a);
  }

  lemma SplitCardinality<T>(a: set<T>, b: set<T>)
    ensures |a + b| == |a| + |b - a|
    ensures |a + b| + |a * b| == |a| + |b|
    ensures |a| == |a - b| + |a * b|
  {
    assert a + b == a + (b - a);
    assert b == (b - a) + a * b;
    assert a == (a - b) + a * b;
  }

  lemma NewKey<K, V>(m: map<K, V>, k: K, v: V)
    requires k !in m
    ensures |m[k := v]| == |m| + 1
  {
    assert m[k := v].Keys == m.Keys + {k};
    assert |m.Keys| == |m| && |m[k := v].Keys| == |m[k := v]|;
  }

  /** A subset of any size that fits. */
  lemma {:induction false} SubsetOfSize<T>(s: set<T>, k: nat) returns (t: set<T>)
    requires k <= |s|
    ensures t <= s && |t| == k
  {
    if k == 0 {
      t := {};
    } else {
      var x :| x in s;
      var u := SubsetOfSize(s - {x}, k - 1);
      t := u + {x};
    }
  }

  /** Two sets drawn from a pool overlap in at least what they have over the size of the pool. */
  lemma OverlapInPool<T>(pool: set<T>, a: set<T>, b: set<T>)
    requires a <= pool && b <= pool
    ensures |a * b| >= |a| + |b| - |pool|
  {
    SplitCardinality(a, b);
    SubsetCardinality(a + b, pool);
  }

  /** Two documented quorums drawn from the same n - b members overlap in at least f - b + 1. */
  lemma DocumentedOverlap<T>(n: nat, pool: set<T>, b: nat, q1: set<T>, q2: set<T>)
    requires n >= 1 && b <= FaultBound(n) && |pool| == n - b
    requires q1 <= pool && q2 <= pool
    requires |q1| >= DocQuorum(n, b) && |q2| >= DocQuorum(n, b)
    ensures |q1 * q2| >= FaultBound(n) - b + 1
  {
    OverlapInPool(pool, q1, q2);
  }

  // Adaptive quorums

  /** `ok` are voters on which a member that has heard nothing from `silent` commits when its VOTE
      count exceeds their number by `credit`: the threshold 2f - b + 1 with b = |silent| is reached
      and is at least 1. */
  ghost predicate CreditedQuorum<T(!new)>(members: set<T>, silent: set<T>, ok: set<T>, credit: nat) {
    && |members| >= 1
    && silent <= members
    && ok <= members - silent
    && |silent| <= 2 * FaultBound(|members|)
    && |ok| + credit >= CodeQuorum(|members|, |silent|)
  }

  /** The count is the number of the voters. */
  ghost predicate AdaptiveQuorum<T(!new)>(members: set<T>, silent: set<T>, ok: set<T>) {
    CreditedQuorum(members, silent, ok, 0)
  }

  /** Two quorums overlap in at least 4f + 2 - n less the members silent to either and the credits. */
  lemma AdaptiveOverlap<T(!new)>(members: set<T>, s1: set<T>, s2: set<T>, ok1: set<T>, ok2: set<T>, c1: nat, c2: nat)
    requires CreditedQuorum(members, s1, ok1, c1) && CreditedQuorum(members, s2, ok2, c2)
    ensures |ok1 * ok2| >= 4 * FaultBound(|members|) + 2 - |members| - |s1 + s2| - c1 - c2
    ensures (ok1 * ok2) !! (s1 + s2)
  {
    var pool := members - s1 * s2;
    OverlapInPool(pool, ok1, ok2);
    SubsetCardinality(s1 * s2, members);
    SplitCardinality(s1, s2);
  }

  /** Every two quorums with these silent sets and credits share a member outside `faulty`. */
  ghost predicate AlwaysShareCorrect<T(!new)>(members: set<T>, s1: set<T>, s2: set<T>, faulty: set<T>,
                                              c1: nat, c2: nat) {
    forall ok1, ok2 {:trigger CreditedQuorum(members, s1, ok1, c1), CreditedQuorum(members, s2, ok2, c2)} ::
      CreditedQuorum(members, s1, ok1, c1) && CreditedQuorum(members, s2, ok2, c2) ==>
        ok1 * ok2 - faulty != {}
  }

  lemma SharedCorrectVoter<T(!new)>(members: set<T>, s1: set<T>, s2: set<T>, faulty: set<T>,
                                    ok1: set<T>, ok2: set<T>, c1: nat, c2: nat)
    requires CreditedQuorum(members, s1, ok1, c1) && CreditedQuorum(members, s2, ok2, c2)
    requires faulty <= members
    requires |s1 + s2 + faulty| + c1 + c2 + |members| <= 4 * FaultBound(|members|) + 1
    ensures ok1 * ok2 - faulty != {}
  {
    AdaptiveOverlap(members, s1, s2, ok1, ok2, c1, c2);
    var shared := ok1 * ok2;
    SplitCardinality(s1 + s2, faulty);
    if shared - faulty == {} {
      forall x | x in shared ensures x in faulty { assert x !in faulty ==> x in shared - faulty; }
      SubsetCardinality(shared, faulty - (s1 + s2));
      assert false;
    }
  }

  /** When the silent, the faulty and the credits are too many, two quorums can share faulty members
      only. */
  lemma DisjointAdaptiveQuorums<T(!new)>(members: set<T>, s1: set<T>, s2: set<T>, faulty: set<T>, c1: nat, c2: nat)
      returns (ok1: set<T>, ok2: set<T>)
    requires |members| >= 1 && s1 <= members && s2 <= members && faulty <= members
    requires |s1| <= 2 * FaultBound(|members|) && |s2| <= 2 * FaultBound(|members|)
    requires |s1 + s2 + faulty| + c1 + c2 + |members| > 4 * FaultBound(|members|) + 1
    ensures CreditedQuorum(members, s1, ok1, c1) && CreditedQuorum(members, s2, ok2, c2)
    ensures ok1 * ok2 <= faulty
  {
    var f, n := FaultBound(|members|), |members|;
    SubsetCardinality(s1, members);
    SubsetCardinality(s2, members);
    var free := s2 + faulty - s1;
    SplitCardinality(s1, s2 + faulty);
    assert s1 + (s2 + faulty) == s1 + s2 + faulty;
    var t1 := 2 * f + 1 - |s1| - c1;
    if t1 <= 0 {
      ok1, ok2 := {}, members - s2;
    } else if t1 <= |free| {
      ok1 := SubsetOfSize(free, t1);
      ok2 := members - s2;
    } else {
      var common := members - (s1 + s2 + faulty);
      SubsetCardinality(s1 + s2 + faulty, members);
      var extra := SubsetOfSize(common, t1 - |free|);
      ok1 := free + extra;
      ok2 := members - s2 - extra;
      SubsetCardinality(extra, members - s2);
    }
  }

  /** The exact reach of the documented safety argument. Whatever voters two deciding members
      count, they share a voter outside `faulty` if and only if the members that are silent to
      either of them or faulty, and the credits, number at most 4f + 1 - n, which is f when
      n = 3f + 1. */
  lemma SharedCorrectVoterIff<T(!new)>(members: set<T>, s1: set<T>, s2: set<T>, faulty: set<T>, c1: nat, c2: nat)
    requires |members| >= 1 && s1 <= members && s2 <= members && faulty <= members
    requires |s1| <= 2 * FaultBound(|members|) && |s2| <= 2 * FaultBound(|members|)
    ensures AlwaysShareCorrect(members, s1, s2, faulty, c1, c2)
            <==> |s1 + s2 + faulty| + c1 + c2 + |members| <= 4 * FaultBound(|members|) + 1
  {
    if |s1 + s2 + faulty| + c1 + c2 + |members| <= 4 * FaultBound(|members|) + 1 {
      forall ok1, ok2 | CreditedQuorum(members, s1, ok1, c1) && CreditedQuorum(members, s2, ok2, c2)
        ensures ok1 * ok2 - faulty != {}
      {
        SharedCorrectVoter(members, s1, s2, faulty, ok1, ok2, c1, c2);
      }
    } else {
      var ok1, ok2 := DisjointAdaptiveQuorums(members, s1, s2, faulty, c1, c2);
      assert ok1 * ok2 - faulty == {};
    }
  }
}
