/** Strict majorities, and halves, of a finite set of nodes. */
module Quorums {

  ghost predicate Quorum<T>(members: set<T>, q: set<T>) {
    q <= members && 2 * |q| > |members|
  }

  /** At least half of the members: all that the commit rule asks for. */
  ghost predicate Half<T>(members: set<T>, q: set<T>) {
    q <= members && 2 * |q| >= |members|
  }

  lemma {:induction false} SubsetSize<T>(a: set<T>, b: set<T>)
    requires a <= b
    ensures |a| <= |b|
  {
    assert b == a + (b - a);
  }

  lemma QuorumMonotone<T>(members: set<T>, a: set<T>, b: set<T>)
    requires Quorum(members, a) && a <= b <= members
    ensures Quorum(members, b)
  {
    SubsetSize(a, b);
  }

  /** Two quorums of the same members share a member. */
  lemma QuorumsMeet<T>(members: set<T>, a: set<T>, b: set<T>) returns (x: T)
    requires Quorum(members, a) && Quorum(members, b)
    ensures x in a && x in b
  {
    if a * b == {} {
      assert |a + b| == |a| + |b|;
      SubsetSize(a + b, members);
      assert false;
    }
    x :| x in a * b;
  }

  lemma HalfMonotone<T>(members: set<T>, a: set<T>, b: set<T>)
    requires Half(members, a) && a <= b <= members
    ensures Half(members, b)
  {
    SubsetSize(a, b);
  }

  /** Half of the members and a strict majority of them share a member. */
  lemma HalfMeetsQuorum<T>(members: set<T>, a: set<T>, b: set<T>) returns (x: T)
    requires Half(members, a) && Quorum(members, b)
    ensures x in a && x in b
  {
    if a * b == {} {
      assert |a + b| == |a| + |b|;
      SubsetSize(a + b, members);
      assert false;
    }
    x :| x in a * b;
  }

  /** A set that is not a quorum leaves out some member of every quorum. */
  lemma QuorumEscapes<T>(members: set<T>, q: set<T>, b: set<T>) returns (x: T)
    requires Quorum(members, q) && b <= members && !Quorum(members, b)
    ensures x in q && x !in b
  {
    if q <= b {
      SubsetSize(q, b);
      assert false;
    }
    x :| x in q && x !in b;
  }
}
