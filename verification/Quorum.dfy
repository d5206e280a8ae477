/** Majority quorums, shared by the Paxos, Raft and Redlock models. */
module Quorum {

  // The majority of a cluster of n nodes.
  function Size(n: nat): nat { n / 2 + 1 }

  // The node identifiers of a cluster of n nodes.
  ghost predicate Members(n: nat, s: set<nat>) { forall i <- s :: i < n }

  lemma {:induction false} MembersBound(n: nat, s: set<nat>)
    requires Members(n, s)
    ensures |s| <= n
  {
    if n > 0 {
      MembersBound(n - 1, s - {n - 1});
    } else {
      assert s == {};
    }
  }

  // Two quorums of one cluster share at least 2 * q - n members, so at least one.
  lemma {:induction false} Intersection(n: nat, a: set<nat>, b: set<nat>)
    requires Members(n, a) && Members(n, b)
    requires |a| >= Size(n) && |b| >= Size(n)
    ensures |a * b| >= 2 * Size(n) - n >= 1
    ensures exists i :: i in a && i in b
  {
    MembersBound(n, a + b);
    assert |a * b| >= 1;
    var i :| i in a * b;
  }
}
