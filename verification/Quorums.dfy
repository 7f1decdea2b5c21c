/** Counting arguments about sets of replica numbers. */
module Quorums {

  lemma {:induction false} SubsetSize<T>(a: set<T>, b: set<T>)
    requires a <= b
    ensures |a| <= |b|
  {
    if a != {} {
      var x :| x in a;
      SubsetSize(a - {x}, b - {x});
    }
  }

  /** Every member of `a` is the number of a replica. */
  predicate Within(a: set<nat>, n: nat) {
    forall j :: j in a ==> j < n
  }

  lemma {:induction false} WithinSize(a: set<nat>, n: nat)
    requires Within(a, n)
    ensures |a| <= n
  {
    if n == 0 {
      assert a == {};
    } else {
      WithinSize(a - {n - 1}, n - 1);
    }
  }

  /** Two groups of replicas that together outnumber the cluster share a member. */
  lemma {:induction false} QuorumsMeet(n: nat, a: set<nat>, b: set<nat>) returns (j: nat)
    requires Within(a, n) && Within(b, n) && |a| + |b| > n
    ensures j in a && j in b
  {
    WithinSize(a + b, n);
    assert |a * b| == |a| + |b| - |a + b|;
    j :| j in a * b;
  }
}
