/** Walks and reachability in a finite directed graph given by its set of edges. */
module Paths {

  /** `via` lists the nodes visited after `a`; the walk ends in `b`. */
  ghost predicate Walk<T>(edges: set<(T, T)>, a: T, via: seq<T>, b: T) {
    if via == [] then a == b
    else (a, via[0]) in edges && Walk(edges, via[0], via[1..], b)
  }

  /** Reflexive-transitive reachability. */
  ghost predicate Reach<T(!new)>(edges: set<(T, T)>, a: T, b: T) {
    exists via :: Walk(edges, a, via, b)
  }

  ghost predicate ClosedUnder<T(!new)>(edges: set<(T, T)>, nodes: set<T>) {
    forall a, b :: a in nodes && (a, b) in edges ==> b in nodes
  }

  lemma ReachSelf<T(!new)>(edges: set<(T, T)>, a: T)
    ensures Reach(edges, a, a)
  {
    assert Walk(edges, a, [], a);
  }

  lemma ReachEdge<T(!new)>(edges: set<(T, T)>, a: T, b: T)
    requires (a, b) in edges
    ensures Reach(edges, a, b)
  {
    assert Walk(edges, b, [], b);
    assert [b][1..] == [];
    assert Walk(edges, a, [b], b);
  }

  lemma {:induction false} WalkConcat<T(!new)>(edges: set<(T, T)>, a: T, p: seq<T>, b: T, q: seq<T>, c: T)
    requires Walk(edges, a, p, b) && Walk(edges, b, q, c)
    ensures Walk(edges, a, p + q, c)
    decreases |p|
  {
    if p == [] {
      assert p + q == q;
    } else {
      WalkConcat(edges, p[0], p[1..], b, q, c);
      assert (p + q)[1..] == p[1..] + q;
    }
  }

  lemma ReachTrans<T(!new)>(edges: set<(T, T)>, a: T, b: T, c: T)
    requires Reach(edges, a, b) && Reach(edges, b, c)
    ensures Reach(edges, a, c)
  {
    var p :| Walk(edges, a, p, b);
    var q :| Walk(edges, b, q, c);
    WalkConcat(edges, a, p, b, q, c);
  }

  /** A set closed under the edges holds everything its members reach. */
  lemma {:induction false} ClosedHoldsWalk<T(!new)>(edges: set<(T, T)>, nodes: set<T>, a: T, via: seq<T>, b: T)
    requires ClosedUnder(edges, nodes) && a in nodes && Walk(edges, a, via, b)
    ensures b in nodes
    decreases |via|
  {
    if via != [] {
      ClosedHoldsWalk(edges, nodes, via[0], via[1..], b);
    }
  }

  lemma ClosedHoldsReach<T(!new)>(edges: set<(T, T)>, nodes: set<T>, a: T, b: T)
    requires ClosedUnder(edges, nodes) && a in nodes && Reach(edges, a, b)
    ensures b in nodes
  {
    var via :| Walk(edges, a, via, b);
    ClosedHoldsWalk(edges, nodes, a, via, b);
  }

  /** A node without edges out of it reaches itself alone. */
  lemma DeadEnd<T(!new)>(edges: set<(T, T)>, a: T, b: T)
    requires a != b && forall c :: (a, c) !in edges
    ensures !Reach(edges, a, b)
  {
    if Reach(edges, a, b) {
      ClosedHoldsReach(edges, {a}, a, b);
    }
  }

  /** One more edge at the end. */
  lemma ReachExtend<T(!new)>(edges: set<(T, T)>, a: T, b: T, c: T)
    requires Reach(edges, a, b) && (b, c) in edges
    ensures Reach(edges, a, c)
  {
    ReachEdge(edges, b, c);
    ReachTrans(edges, a, b, c);
  }

  lemma {:induction false} LastEdge<T(!new)>(edges: set<(T, T)>, a: T, via: seq<T>, b: T) returns (y: T)
    requires Walk(edges, a, via, b) && via != []
    ensures Reach(edges, a, y) && (y, b) in edges
    decreases |via|
  {
    if |via| == 1 {
      y := a;
      ReachSelf(edges, a);
      assert via[1..] == [];
    } else {
      y := LastEdge(edges, via[0], via[1..], b);
      ReachEdge(edges, a, via[0]);
      ReachTrans(edges, a, via[0], y);
    }
  }
}
