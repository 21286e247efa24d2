/** The digraph tool: graphs and transposition. */
module Digraph {
  // Go's map iteration order is any order: each loop over a set takes its elements in an arbitrary order.

  import opened Paths

  type Node = string
  type Graph = map<Node, set<Node>>

  ghost function Edges(g: Graph): set<(Node, Node)> {
    set a, b | a in g && b in g[a] :: (a, b)
  }

  /** The nodes a graph mentions; in a graph built by `addEdges` these are its keys. */
  ghost function Nodes(g: Graph): set<Node> {
    g.Keys + set a, b | a in g && b in g[a] :: b
  }

  /** The successors of a node; a node that is no key has none. */
  function Succs(g: Graph, n: Node): set<Node> {
    if n in g then g[n] else {}
  }

  ghost predicate Reaches(g: Graph, a: Node, b: Node) {
    Reach(Edges(g), a, b)
  }

  ghost predicate Mutual(g: Graph, a: Node, b: Node) {
    Reaches(g, a, b) && Reaches(g, b, a)
  }

  lemma EdgeIff(g: Graph, a: Node, b: Node)
    ensures (a, b) in Edges(g) <==> b in Succs(g, a)
    ensures b in Succs(g, a) ==> a in Nodes(g) && b in Nodes(g)
  {
  }

  /** Every successor of a node of `inner` is in `outer`. */
  predicate SuccsWithin(g: Graph, inner: set<Node>, outer: set<Node>) {
    forall v :: v in inner ==> Succs(g, v) <= outer
  }

  // ---------------------------------------------------------------- building graphs

  predicate GraphOk(g: Graph) {
    forall a :: a in g ==> g[a] <= g.Keys
  }

  function AddNode(g: Graph, n: Node): Graph {
    if n in g then g else g[n := {}]
  }

  lemma AddNodeSuccs(g: Graph, n: Node, a: Node)
    ensures Succs(AddNode(g, n), a) == Succs(g, a)
  {
  }

  lemma AddEdgeSuccs(g: Graph, from: Node, t: Node, a: Node)
    requires from in g
    ensures Succs(g[from := g[from] + {t}], a) == if a == from then Succs(g, a) + {t} else Succs(g, a)
  {
  }

  /** `addEdges`: every target becomes a node too. */
  method AddEdges(g: Graph, from: Node, to: seq<Node>) returns (g': Graph)
    ensures forall a :: a in g' <==> a in g || a == from || a in to
    ensures forall a, b :: b in Succs(g', a) <==> b in Succs(g, a) || (a == from && b in to)
    ensures GraphOk(g) ==> GraphOk(g')
  {
    g' := AddNode(g, from);
    forall a ensures Succs(g', a) == Succs(g, a) { AddNodeSuccs(g, from, a); }
    ghost var added: set<Node> := {};
    var i := 0;
    while i < |to|
      invariant 0 <= i <= |to| && from in g' && added == (set k | 0 <= k < i :: to[k])
      invariant forall a :: a in g' <==> a in g || a == from || a in added
      invariant forall a, b :: b in Succs(g', a) <==> b in Succs(g, a) || (a == from && b in added)
    {
      var g1 := AddNode(g', to[i]);
      var g2 := g1[from := g1[from] + {to[i]}];
      forall a, b ensures b in Succs(g2, a) <==> b in Succs(g', a) || (a == from && b == to[i]) {
        AddNodeSuccs(g', to[i], a);
        AddEdgeSuccs(g1, from, to[i], a);
      }
      added := added + {to[i]};
      g' := g2;
      i := i + 1;
    }
    assert forall b :: b in added <==> b in to;
    if GraphOk(g) {
      forall a, b | a in g' && b in g'[a] ensures b in g' {
        assert b in Succs(g', a);
      }
    }
  }

  /** The edges turned round. */
  ghost function Flip<T>(edges: set<(T, T)>): set<(T, T)> {
    set e | e in edges :: (e.1, e.0)
  }

  lemma FlipIff<T>(edges: set<(T, T)>, a: T, b: T)
    ensures (a, b) in Flip(edges) <==> (b, a) in edges
  {
    if (a, b) in Flip(edges) {
      var e :| e in edges && (e.1, e.0) == (a, b);
      assert e == (b, a);
    }
    if (b, a) in edges {
      var e := (b, a);
      assert (e.1, e.0) in Flip(edges);
    }
  }

  lemma {:induction false} FlipWalk(edges: set<(Node, Node)>, a: Node, via: seq<Node>, b: Node)
    requires Walk(edges, a, via, b)
    ensures Reach(Flip(edges), b, a)
    decreases |via|
  {
    if via == [] {
      ReachSelf(Flip(edges), a);
    } else {
      FlipWalk(edges, via[0], via[1..], b);
      FlipIff(edges, via[0], a);
      ReachExtend(Flip(edges), b, via[0], a);
    }
  }

  lemma FlipReach(edges: set<(Node, Node)>, a: Node, b: Node)
    ensures Reach(edges, a, b) <==> Reach(Flip(edges), b, a)
  {
    if Reach(edges, a, b) {
      var via :| Walk(edges, a, via, b);
      FlipWalk(edges, a, via, b);
    }
    if Reach(Flip(edges), b, a) {
      var via :| Walk(Flip(edges), b, via, a);
      FlipWalk(Flip(edges), b, via, a);
      FlipFlip(edges);
    }
  }

  lemma FlipFlip(edges: set<(Node, Node)>)
    ensures Flip(Flip(edges)) == edges
  {
    forall a, b ensures (a, b) in Flip(Flip(edges)) <==> (a, b) in edges {
      FlipIff(Flip(edges), a, b);
      FlipIff(edges, b, a);
    }
  }

  /** Some node of `done` has an edge to a. */
  ghost predicate Target(g: Graph, done: set<Node>, a: Node) {
    exists b :: b in done && a in Succs(g, b)
  }

  /** What has been transposed: the edges out of the nodes done. */
  ghost predicate Transposed(g: Graph, rev: Graph, done: set<Node>) {
    && (forall a, b :: b in Succs(rev, a) <==> b in done && a in Succs(g, b))
    && (forall a :: a in rev <==> a in done || Target(g, done, a))
  }

  /** `transpose`, one node's edges. */
  method TransposeNode(g: Graph, rev: Graph, node: Node, ghost done: set<Node>) returns (rev': Graph)
    requires node in g && node !in done && Transposed(g, rev, done)
    ensures Transposed(g, rev', done + {node})
  {
    rev' := AddNode(rev, node);
    assert forall a :: Succs(rev', a) == Succs(rev, a);
    var rest := g[node];
    ghost var gone: set<Node> := {};
    while rest != {}
      invariant rest + gone == g[node]
      invariant forall a, b :: b in Succs(rev', a) <==> b in Succs(rev, a) || (b == node && a in gone)
      invariant forall a :: a in rev' <==> a in rev || a == node || a in gone
      decreases rest
    {
      var succ :| succ in rest;
      rest := rest - {succ};
      var rev1 := rev';
      rev' := AddEdges(rev1, succ, [node]);
      forall a, b ensures b in Succs(rev', a) <==> b in Succs(rev, a) || (b == node && a in gone + {succ}) {
        assert b in Succs(rev', a) <==> b in Succs(rev1, a) || (a == succ && b in [node]);
      }
      gone := gone + {succ};
    }
    forall a ensures a in rev' <==> a in done + {node} || Target(g, done + {node}, a) {
      TargetMore(g, done, node, a);
    }
  }

  lemma TargetMore(g: Graph, done: set<Node>, node: Node, a: Node)
    ensures Target(g, done + {node}, a) <==> Target(g, done, a) || a in Succs(g, node)
  {
    if Target(g, done, a) {
      var b :| b in done && a in Succs(g, b);
      assert b in done + {node};
    }
    if a in Succs(g, node) {
      assert node in done + {node};
    }
  }

  method Transpose(g: Graph) returns (rev: Graph)
    ensures Edges(rev) == Flip(Edges(g)) && rev.Keys == Nodes(g)
    ensures forall a, b :: b in Succs(rev, a) <==> a in Succs(g, b)
  {
    rev := map[];
    var rest := g.Keys;
    ghost var done: set<Node> := {};
    while rest != {}
      invariant rest + done == g.Keys && rest !! done && Transposed(g, rev, done)
      decreases rest
    {
      var node :| node in rest;
      rev := TransposeNode(g, rev, node, done);
      rest := rest - {node};
      done := done + {node};
    }
    forall a, b ensures (a, b) in Edges(rev) <==> (a, b) in Flip(Edges(g)) {
      EdgeIff(rev, a, b);
      EdgeIff(g, b, a);
      FlipIff(Edges(g), a, b);
    }
    forall a ensures a in rev <==> a in Nodes(g) {
      if Target(g, g.Keys, a) {
        var b :| b in g.Keys && a in Succs(g, b);
        EdgeIff(g, b, a);
      }
      if a in Nodes(g) && a !in g {
        var c, b :| c in g && b in g[c] && b == a;
        assert a in Succs(g, c);
      }
    }
  }
}
