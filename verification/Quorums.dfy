/** Majorities of {0, .., n-1}. */
module Quorums {
  import opened RaftTypes

  lemma {:induction false} SubsetOfNodes(q: set<nat>, n: nat)
    requires forall v :: v in q ==> v < n
    ensures |q| <= n
  {
    if n == 0 {
      if v :| v in q {
        assert false;
      }
    } else {
      SubsetOfNodes(q - {n - 1}, n - 1);
      assert q <= (q - {n - 1}) + {n - 1};
      SubsetSize(q, (q - {n - 1}) + {n - 1});
    }
  }

  lemma {:induction false} SubsetSize<T>(a: set<T>, b: set<T>)
    requires a <= b
    ensures |a| <= |b|
  {
    if a != {} {
      var x :| x in a;
      SubsetSize(a - {x}, b - {x});
    }
  }

  lemma MajoritiesMeet(p: set<nat>, q: set<nat>, n: nat) returns (v: nat)
    requires forall v :: v in p ==> v < n
    requires forall v :: v in q ==> v < n
    requires |p| >= Majority(n) && |q| >= Majority(n)
    ensures v in p && v in q
  {
    if p * q == {} {
      assert |p + q| == |p| + |q|;
      SubsetOfNodes(p + q, n);
      assert false;
    }
    v :| v in p * q;
  }
}
