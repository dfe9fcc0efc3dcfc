/** Receive thresholds of `ResDBConfig` and what two sets that meet them must share. */
module Quorum {
  import opened OrderedKeys

  /** `(n - 1) / 3`: the number of faulty replicas the configuration is sized for. */
  function MaxMalicious(n: nat): (f: nat)
    requires n >= 1
  {
    (n - 1) / 3
  }

  /** Votes needed to prepare, to commit, and to make a checkpoint stable. */
  function MinDataReceive(n: nat): (q: nat)
    requires n >= 1
  {
    Max(2 * MaxMalicious(n) + 1, 1)
  }

  /** Votes needed before a checkpoint is worth fetching. */
  function MinCheckpointReceive(n: nat): (q: nat)
    requires n >= 1
  {
    Max(MaxMalicious(n) + 1, 1)
  }

  lemma {:induction false} SubsetSize<T>(a: set<T>, b: set<T>)
    requires a <= b
    ensures |a| <= |b|
  {
    assert a + (b - a) == b;
  }

  /** Two vote sets overlap in at least `f + 1 - (n - 1) mod 3` replicas. */
  lemma OverlapSize<T>(all: set<T>, a: set<T>, b: set<T>)
    requires all != {} && a <= all && b <= all
    requires |a| >= MinDataReceive(|all|) && |b| >= MinDataReceive(|all|)
    ensures |a * b| >= MaxMalicious(|all|) + 1 - (|all| - 1) % 3
  {
    SubsetSize(a + b, all);
  }

  /** With n = 3f + 1 the overlap of two vote sets always holds a correct replica. */
  lemma SharedCorrect<T>(all: set<T>, faulty: set<T>, a: set<T>, b: set<T>) returns (p: T)
    requires all != {} && |all| % 3 == 1 && |faulty| <= MaxMalicious(|all|)
    requires a <= all && b <= all
    requires |a| >= MinDataReceive(|all|) && |b| >= MinDataReceive(|all|)
    ensures p in a && p in b && p !in faulty
  {
    OverlapSize(all, a, b);
    p := Outside(a * b, faulty);
  }

  /** A set larger than another has a member outside it. */
  lemma Outside<T>(a: set<T>, b: set<T>) returns (p: T)
    requires |a| > |b|
    ensures p in a && p !in b
  {
    if a <= b {
      SubsetSize(a, b);
      assert false;
    }
    p :| p in a && p !in b;
  }

  /** f + 1 checkpoint votes always include one from a correct replica, for every n. */
  lemma CheckpointVoterCorrect<T>(n: nat, faulty: set<T>, votes: set<T>) returns (p: T)
    requires n >= 1 && |faulty| <= MaxMalicious(n) && |votes| >= MinCheckpointReceive(n)
    ensures p in votes && p !in faulty
  {
    p := Outside(votes, faulty);
  }

  ghost predicate Threshold(n: nat, faulty: set<nat>, a: set<nat>, b: set<nat>)
    requires n >= 1
  {
    && Below(a, n) && Below(b, n) && Below(faulty, n)
    && |faulty| <= MaxMalicious(n)
    && |a| >= MinDataReceive(n) && |b| >= MinDataReceive(n)
  }

  /** Whatever the faulty replicas are, two vote sets share a correct one. */
  ghost predicate AlwaysShareCorrect(n: nat)
    requires n >= 1
  {
    forall faulty: set<nat>, a: set<nat>, b: set<nat> :: Threshold(n, faulty, a, b) ==> a * b - faulty != {}
  }

  function Range(lo: nat, hi: nat): (r: set<nat>)
    requires lo <= hi
    ensures forall i :: i in r <==> lo <= i < hi
    ensures |r| == hi - lo
    decreases hi - lo
  {
    if lo == hi then {} else {lo} + Range(lo + 1, hi)
  }

  lemma InRange(n: nat, faulty: set<nat>, a: set<nat>, b: set<nat>)
    requires n >= 1 && Threshold(n, faulty, a, b)
    ensures a <= Range(0, n) && b <= Range(0, n)
  {
    assert forall i :: i in a ==> i in Range(0, n);
    assert forall i :: i in b ==> i in Range(0, n);
  }

  /** The first q and the last q of n numbers. */
  lemma EndsMeet(n: nat, q: nat)
    requires q <= n
    ensures Range(0, q) * Range(n - q, n) == if n - q <= q then Range(n - q, q) else {}
  {
  }

  lemma ThresholdSlack(n: nat)
    requires n >= 1
    ensures var f, q := MaxMalicious(n), MinDataReceive(n); q <= n && (n % 3 != 1 ==> 2 * q - n <= f)
  {
  }

  ghost predicate Below(a: set<nat>, n: nat) {
    forall i :: i in a ==> i < n
  }

  /** For other n two vote sets can be chosen whose whole overlap is faulty. */
  lemma OverlapAllFaulty(n: nat) returns (faulty: set<nat>, a: set<nat>, b: set<nat>)
    requires n >= 1 && n % 3 != 1
    ensures Threshold(n, faulty, a, b) && a * b == faulty
  {
    ThresholdSlack(n);
    var q := MinDataReceive(n);
    a, b := Range(0, q), Range(n - q, n);
    EndsMeet(n, q);
    faulty := a * b;
  }

  /** Vote sets are guaranteed a common correct replica exactly when n = 3f + 1. */
  lemma OverlapExact(n: nat)
    requires n >= 1
    ensures AlwaysShareCorrect(n) <==> n % 3 == 1
  {
    if n % 3 == 1 {
      forall faulty: set<nat>, a: set<nat>, b: set<nat> | Threshold(n, faulty, a, b)
        ensures a * b - faulty != {}
      {
        InRange(n, faulty, a, b);
        var p := SharedCorrect(Range(0, n), faulty, a, b);
        assert p in a * b - faulty;
      }
    } else {
      var faulty, a, b := OverlapAllFaulty(n);
      assert a * b - faulty == {};
    }
  }
}
