/** `reachableFrom`, `somepath` and `allpaths`: the depth-first queries of the digraph tool. */
module Reachable {
  import opened Paths
  import opened Digraph

  lemma SuccIsEdge(g: Graph, a: Node, b: Node)
    requires b in Succs(g, a)
    ensures (a, b) in Edges(g) && Reaches(g, a, b)
  {
    EdgeIff(g, a, b);
    ReachEdge(Edges(g), a, b);
  }

  lemma ReachesVia(g: Graph, a: Node, b: Node, c: Node)
    requires Reaches(g, a, b) && c in Succs(g, b)
    ensures Reaches(g, a, c)
  {
    EdgeIff(g, b, c);
    ReachExtend(Edges(g), a, b, c);
  }

  lemma SuccThenReaches(g: Graph, a: Node, b: Node, c: Node)
    requires b in Succs(g, a) && Reaches(g, b, c)
    ensures Reaches(g, a, c)
  {
    SuccIsEdge(g, a, b);
    ReachTrans(Edges(g), a, b, c);
  }

  /** A set that holds the successors of its members holds all they reach. */
  lemma WithinHolds(g: Graph, nodes: set<Node>, a: Node, b: Node)
    requires SuccsWithin(g, nodes, nodes) && a in nodes && Reaches(g, a, b)
    ensures b in nodes
  {
    forall x, y | x in nodes && (x, y) in Edges(g) ensures y in nodes {
      EdgeIff(g, x, y);
    }
    ClosedHoldsReach(Edges(g), nodes, a, b);
  }

  // ---------------------------------------------------------------- reachableFrom

  /** The universe a search moves in: the graph's nodes and where it started. */
  ghost predicate Universe(g: Graph, all: set<Node>) {
    Nodes(g) <= all
  }

  /** The recursive closure `visit` of `reachableFrom`. */
  method Visit(g: Graph, node: Node, seen: set<Node>, ghost all: set<Node>) returns (seen': set<Node>)
    requires Universe(g, all) && node in all && seen <= all
    ensures seen <= seen' <= all && node in seen'
    ensures forall v :: v in seen' - seen ==> Reaches(g, node, v)
    ensures SuccsWithin(g, seen' - seen, seen')
    decreases all - seen, 0
  {
    seen' := seen;
    if node !in seen {
      ReachSelf(Edges(g), node);
      seen' := VisitAll(g, node, Succs(g, node), seen + {node}, seen, all);
    }
  }

  method VisitAll(g: Graph, node: Node, succs: set<Node>, seen: set<Node>, ghost before: set<Node>,
                  ghost all: set<Node>)
    returns (seen': set<Node>)
    requires Universe(g, all) && node in all && seen <= all && succs == Succs(g, node) && seen == before + {node}
    requires node !in before
    ensures seen <= seen' <= all
    ensures forall v :: v in seen' - before ==> Reaches(g, node, v)
    ensures SuccsWithin(g, seen' - before, seen')
    decreases all - seen, 1
  {
    seen' := seen;
    ReachSelf(Edges(g), node);
    var rest := succs;
    while rest != {}
      invariant rest <= succs && seen <= seen' <= all
      invariant forall v :: v in seen' - before ==> Reaches(g, node, v)
      invariant SuccsWithin(g, seen' - seen, seen') && succs - rest <= seen'
      decreases rest
    {
      var e :| e in rest;
      rest := rest - {e};
      EdgeIff(g, node, e);
      var s1 := seen';
      seen' := Visit(g, e, s1, all);
      forall v | v in seen' - s1 ensures Reaches(g, node, v) {
        SuccThenReaches(g, node, e, v);
      }
    }
  }

  /** `reachableFrom`: exactly the reflexive-transitive closure of the roots. */
  method ReachableFrom(g: Graph, roots: set<Node>) returns (seen: set<Node>)
    ensures forall v :: v in seen <==> exists r :: r in roots && Reaches(g, r, v)
  {
    ghost var all := Nodes(g) + roots;
    seen := {};
    var rest := roots;
    while rest != {}
      invariant rest <= roots && seen <= all && roots - rest <= seen
      invariant SuccsWithin(g, seen, seen)
      invariant forall v :: v in seen ==> exists r :: r in roots && Reaches(g, r, v)
      decreases rest
    {
      var root :| root in rest;
      rest := rest - {root};
      seen := Visit(g, root, seen, all);
    }
    forall v, r | r in roots && Reaches(g, r, v) ensures v in seen {
      WithinHolds(g, seen, r, v);
    }
  }

  // ---------------------------------------------------------------- somepath

  /** Consecutive edges of g from a to b. */
  ghost predicate EdgePath(g: Graph, a: Node, path: seq<(Node, Node)>, b: Node)
    decreases |path|
  {
    if path == [] then a == b
    else path[0].0 == a && path[0].1 in Succs(g, a) && EdgePath(g, path[0].1, path[1..], b)
  }

  /** No node is left twice, and the last one is new. */
  predicate Simple(path: seq<(Node, Node)>, last: Node) {
    && (forall i, j :: 0 <= i < j < |path| ==> path[i].0 != path[j].0)
    && (forall i :: 0 <= i < |path| ==> path[i].0 != last)
  }

  lemma {:induction false} EdgePathExtend(g: Graph, a: Node, path: seq<(Node, Node)>, b: Node, c: Node)
    requires EdgePath(g, a, path, b) && c in Succs(g, b)
    ensures EdgePath(g, a, path + [(b, c)], c)
    decreases |path|
  {
    var p' := path + [(b, c)];
    if path == [] {
      assert p'[1..] == [];
    } else {
      EdgePathExtend(g, path[0].1, path[1..], b, c);
      assert p'[1..] == path[1..] + [(b, c)];
    }
  }

  lemma {:induction false} EdgePathReaches(g: Graph, a: Node, path: seq<(Node, Node)>, b: Node)
    requires EdgePath(g, a, path, b)
    ensures Reaches(g, a, b)
    decreases |path|
  {
    if path == [] {
      ReachSelf(Edges(g), a);
    } else {
      EdgePathReaches(g, path[0].1, path[1..], b);
      SuccThenReaches(g, a, path[0].1, b);
    }
  }

  ghost predicate LeftBehind(path: seq<(Node, Node)>, seen: set<Node>) {
    forall i :: 0 <= i < |path| ==> path[i].0 in seen
  }

  /** The recursive closure `dfs` of `somepath`: `out` is what it prints when it finds the target. */
  method Dfs(g: Graph, start: Node, to: Node, path: seq<(Node, Node)>, from: Node, seen: set<Node>,
             ghost all: set<Node>)
    returns (found: bool, seen': set<Node>, out: seq<(Node, Node)>)
    requires Universe(g, all) && from in all && seen <= all && to !in seen
    requires EdgePath(g, start, path, from) && LeftBehind(path, seen)
    requires forall i, j :: 0 <= i < j < |path| ==> path[i].0 != path[j].0
    ensures seen <= seen' <= all
    ensures found ==> EdgePath(g, start, out, to) && Simple(out, to)
    ensures !found ==> from in seen' && to !in seen' && SuccsWithin(g, seen' - seen, seen')
    decreases all - seen
  {
    found, seen', out := false, seen, [];
    if from !in seen {
      seen' := seen + {from};
      if from == to {
        return true, seen', path;
      }
      var rest := Succs(g, from);
      while rest != {}
        invariant rest <= Succs(g, from) && seen + {from} <= seen' <= all && to !in seen'
        invariant SuccsWithin(g, seen' - seen - {from}, seen') && Succs(g, from) - rest <= seen'
        decreases rest
      {
        var e :| e in rest;
        rest := rest - {e};
        EdgeIff(g, from, e);
        EdgePathExtend(g, start, path, from, e);
        var s1 := seen';
        found, seen', out := Dfs(g, start, to, path + [(from, e)], e, s1, all);
        if found {
          return;
        }
      }
    }
  }

  /** `somepath`: succeeds iff the target is reachable, and then prints a simple path of edges to it. */
  method SomePath(g: Graph, from: Node, to: Node) returns (found: bool, out: seq<(Node, Node)>)
    ensures found <==> Reaches(g, from, to)
    ensures found ==> EdgePath(g, from, out, to) && Simple(out, to)
  {
    ghost var all := Nodes(g) + {from};
    var seen;
    found, seen, out := Dfs(g, from, to, [], from, {}, all);
    if found {
      EdgePathReaches(g, from, out, to);
    } else if Reaches(g, from, to) {
      WithinHolds(g, seen, from, to);
    }
  }

  // ---------------------------------------------------------------- allpaths

  /** A path of the graph, as its nodes; none is met twice. */
  ghost predicate Trail(g: Graph, from: Node, trail: seq<Node>) {
    && (trail != [] ==> trail[0] == from)
    && (forall i :: 0 <= i < |trail| - 1 ==> trail[i + 1] in Succs(g, trail[i]))
    && (forall i, j :: 0 <= i < j < |trail| ==> trail[i] != trail[j])
  }

  /** The trail may go on to this node. */
  ghost predicate LeadsTo(g: Graph, from: Node, trail: seq<Node>, node: Node) {
    if trail == [] then node == from else node in Succs(g, trail[|trail| - 1])
  }

  /** A successor that reaches `to` and is not on the trail, unless it is `to` itself. */
  ghost predicate StepsOff(g: Graph, to: Node, trail: seq<Node>, e: Node) {
    Reaches(g, e, to) && (e == to || e !in trail)
  }

  /** A trail ends in s, and s is `to` or can step off it on the way there. */
  ghost predicate StandsOff(g: Graph, from: Node, to: Node, s: Node, trail: seq<Node>) {
    && Trail(g, from, trail) && trail != [] && trail[|trail| - 1] == s
    && (s == to || exists e :: e in Succs(g, s) && StepsOff(g, to, trail, e))
  }

  ghost predicate MayStand(g: Graph, from: Node, to: Node, s: Node) {
    exists trail :: StandsOff(g, from, to, s, trail)
  }

  /** Wherever a trail ends in a node that reaches `to`, that node can step off it on the way there. */
  ghost predicate NeverShut(g: Graph, from: Node, to: Node) {
    forall trail, s :: Trail(g, from, trail) && trail != [] && trail[|trail| - 1] == s && Reaches(g, s, to) ==>
      StandsOff(g, from, to, s, trail)
  }

  /** No node that a reaches lies on a cycle. */
  ghost predicate AcyclicFrom(g: Graph, a: Node) {
    forall x, y :: Reaches(g, a, x) && y in Succs(g, x) ==> !Reaches(g, y, x)
  }

  lemma {:induction false} ReachesSplit(g: Graph, a: Node, b: Node)
    requires Reaches(g, a, b) && a != b
    ensures exists e :: e in Succs(g, a) && Reaches(g, e, b)
  {
    var via :| Walk(Edges(g), a, via, b);
    EdgeIff(g, a, via[0]);
    assert Walk(Edges(g), via[0], via[1..], b);
    assert via[0] in Succs(g, a) && Reaches(g, via[0], b);
  }

  /** Each node of a trail reaches the later ones. */
  lemma {:induction false} TrailReaches(g: Graph, from: Node, trail: seq<Node>, i: nat, j: nat)
    requires Trail(g, from, trail) && i <= j < |trail|
    ensures Reaches(g, trail[i], trail[j])
    decreases j
  {
    if i == j {
      ReachSelf(Edges(g), trail[i]);
    } else {
      TrailReaches(g, from, trail, i, j - 1);
      assert trail[j - 1 + 1] in Succs(g, trail[j - 1]);
      ReachesVia(g, trail[i], trail[j - 1], trail[j]);
    }
  }

  /** Without cycles every trail can be stepped off. */
  lemma AcyclicNeverShut(g: Graph, from: Node, to: Node)
    requires AcyclicFrom(g, from)
    ensures NeverShut(g, from, to)
  {
    forall trail, s | Trail(g, from, trail) && trail != [] && trail[|trail| - 1] == s && Reaches(g, s, to)
      ensures StandsOff(g, from, to, s, trail)
    {
      if s != to {
        ReachesSplit(g, s, to);
        var e :| e in Succs(g, s) && Reaches(g, e, to);
        TrailReaches(g, from, trail, 0, |trail| - 1);
        forall i | 0 <= i < |trail| ensures trail[i] != e {
          TrailReaches(g, from, trail, i, |trail| - 1);
        }
        assert StepsOff(g, to, trail, e);
      }
    }
  }

  /** The memo says true only of nodes that reach `to` off some trail; on the current trail only of `to`; and where
      every trail can be stepped off it is exact elsewhere. */
  ghost predicate MemoOk(g: Graph, from: Node, to: Node, memo: map<Node, bool>, trail: seq<Node>) {
    && (forall x :: x in memo ==> Reaches(g, from, x))
    && (forall x :: x in memo && memo[x] ==> Reaches(g, x, to) && MayStand(g, from, to, x))
    && (forall x :: x in trail ==> x in memo && memo[x] == (x == to))
    && (to in memo ==> memo[to])
    && (NeverShut(g, from, to) ==> forall x :: x in memo && x !in trail ==> (memo[x] <==> Reaches(g, x, to)))
  }

  /** The recursive closure `visit` of `allpaths`; a node in progress is remembered as not reaching `to`. */
  method Mark(g: Graph, from: Node, to: Node, node: Node, memo: map<Node, bool>, ghost trail: seq<Node>,
              ghost all: set<Node>)
    returns (reachesTo: bool, memo': map<Node, bool>)
    requires Universe(g, all) && node in all && memo.Keys <= all && Reaches(g, from, node)
    requires Trail(g, from, trail) && LeadsTo(g, from, trail, node) && MemoOk(g, from, to, memo, trail)
    ensures memo.Keys <= memo'.Keys <= all && node in memo' && MemoOk(g, from, to, memo', trail)
    ensures SuccsWithin(g, memo'.Keys - memo.Keys, memo'.Keys)
    ensures reachesTo ==> Reaches(g, node, to) && (node == to || node !in trail)
    ensures node == to ==> reachesTo
    ensures NeverShut(g, from, to) && node !in trail ==> (reachesTo <==> Reaches(g, node, to))
    decreases all - memo.Keys, 1
  {
    ReachSelf(Edges(g), node);
    if node in memo {
      MemoHas(g, from, to, memo, trail, node);
      return memo[node], memo;
    }
    TrailGrows(g, from, trail, node, memo);
    var memo1;
    reachesTo, memo1 := MarkSuccs(g, from, to, node, memo, trail, all);
    memo' := if reachesTo && node != to then memo1[node := true] else memo1;
    MarkLeaves(g, from, to, node, memo, memo1, memo', trail, reachesTo);
  }

  /** Done with a node, the search goes back along the trail. */
  lemma MarkLeaves(g: Graph, from: Node, to: Node, node: Node, memo: map<Node, bool>, memo1: map<Node, bool>,
                   memo': map<Node, bool>, trail: seq<Node>, reachesTo: bool)
    requires SuccsInv(g, from, to, node, memo, memo1, trail, {}, reachesTo) && Trail(g, from, trail + [node])
    requires NeverShut(g, from, to) ==> (reachesTo <==> Reaches(g, node, to))
    requires memo' == if reachesTo && node != to then memo1[node := true] else memo1
    ensures memo'.Keys == memo1.Keys && node !in trail && MemoOk(g, from, to, memo', trail)
    ensures SuccsWithin(g, memo'.Keys - memo.Keys, memo'.Keys)
  {
    var trail' := trail + [node];
    assert trail'[|trail|] == node && node in trail';
    forall x | x in trail ensures x in trail' && x != node {
      var i :| 0 <= i < |trail| && trail[i] == x;
      assert trail'[i] == x;
    }
    assert forall x :: x in trail' ==> x in trail || x == node;
  }

  lemma MemoHas(g: Graph, from: Node, to: Node, memo: map<Node, bool>, trail: seq<Node>, node: Node)
    requires MemoOk(g, from, to, memo, trail) && node in memo
    ensures memo[node] ==> node == to || node !in trail
  {
  }

  lemma TrailGrows(g: Graph, from: Node, trail: seq<Node>, node: Node, memo: map<Node, bool>)
    requires Trail(g, from, trail) && LeadsTo(g, from, trail, node) && node !in memo
    requires forall x :: x in trail ==> x in memo
    ensures Trail(g, from, trail + [node])
  {
    assert forall i :: 0 <= i < |trail| ==> trail[i] in memo;
  }

  /** Where the loop over the successors of the last node of a trail stands when `rest` are left. */
  ghost predicate SuccsInv(g: Graph, from: Node, to: Node, node: Node, memo: map<Node, bool>, memo': map<Node, bool>,
                           trail: seq<Node>, rest: set<Node>, reachesTo: bool)
  {
    && memo.Keys + {node} <= memo'.Keys && MemoOk(g, from, to, memo', trail + [node])
    && SuccsWithin(g, memo'.Keys - memo.Keys - {node}, memo'.Keys) && Succs(g, node) - rest <= memo'.Keys
    && (reachesTo ==> Reaches(g, node, to) && StandsOff(g, from, to, node, trail + [node]))
    && (node == to ==> reachesTo)
    && (NeverShut(g, from, to) ==>
          forall e :: e in Succs(g, node) - rest && StepsOff(g, to, trail + [node], e) ==> reachesTo)
  }

  /** A new node's successors in turn. */
  method MarkSuccs(g: Graph, from: Node, to: Node, node: Node, memo: map<Node, bool>, ghost trail: seq<Node>,
                   ghost all: set<Node>)
    returns (reachesTo: bool, memo': map<Node, bool>)
    requires Universe(g, all) && node in all && memo.Keys <= all && node !in memo && Reaches(g, from, node)
    requires Trail(g, from, trail + [node]) && MemoOk(g, from, to, memo, trail)
    ensures memo'.Keys <= all && SuccsInv(g, from, to, node, memo, memo', trail, {}, reachesTo)
    ensures NeverShut(g, from, to) ==> (reachesTo <==> Reaches(g, node, to))
    decreases all - memo.Keys, 0
  {
    reachesTo := node == to;
    memo' := memo[node := reachesTo];
    var rest := Succs(g, node);
    MarkBegins(g, from, to, node, memo, trail);
    while rest != {}
      invariant rest <= Succs(g, node) && memo'.Keys <= all
      invariant SuccsInv(g, from, to, node, memo, memo', trail, rest, reachesTo)
      decreases rest
    {
      var e :| e in rest;
      EdgeIff(g, node, e);
      ReachesVia(g, from, node, e);
      var b, memo1 := Mark(g, from, to, e, memo', trail + [node], all);
      MarkNext(g, from, to, node, memo, memo', memo1, trail, rest, reachesTo, e, b);
      rest, memo', reachesTo := rest - {e}, memo1, reachesTo || b;
    }
    MarkEnds(g, from, to, node, trail);
  }

  lemma MarkBegins(g: Graph, from: Node, to: Node, node: Node, memo: map<Node, bool>, trail: seq<Node>)
    requires node !in memo && Reaches(g, from, node) && Trail(g, from, trail + [node])
    requires MemoOk(g, from, to, memo, trail)
    ensures SuccsInv(g, from, to, node, memo, memo[node := node == to], trail, Succs(g, node), node == to)
  {
    ReachSelf(Edges(g), node);
    if node == to { assert StandsOff(g, from, to, node, trail + [node]); }
  }

  lemma MarkNext(g: Graph, from: Node, to: Node, node: Node, memo: map<Node, bool>, memo0: map<Node, bool>,
                 memo1: map<Node, bool>, trail: seq<Node>, rest: set<Node>, reachesTo: bool, e: Node, b: bool)
    requires SuccsInv(g, from, to, node, memo, memo0, trail, rest, reachesTo) && e in Succs(g, node)
    requires Trail(g, from, trail + [node]) && memo0.Keys <= memo1.Keys && e in memo1
    requires MemoOk(g, from, to, memo1, trail + [node]) && SuccsWithin(g, memo1.Keys - memo0.Keys, memo1.Keys)
    requires b ==> Reaches(g, e, to) && (e == to || e !in trail + [node])
    requires e == to ==> b
    requires NeverShut(g, from, to) && e !in trail + [node] ==> (b <==> Reaches(g, e, to))
    ensures SuccsInv(g, from, to, node, memo, memo1, trail, rest - {e}, reachesTo || b)
  {
    if b {
      SuccThenReaches(g, node, e, to);
      assert StepsOff(g, to, trail + [node], e);
    }
  }

  lemma MarkEnds(g: Graph, from: Node, to: Node, node: Node, trail: seq<Node>)
    requires Trail(g, from, trail + [node])
    ensures NeverShut(g, from, to) && Reaches(g, node, to) ==> StandsOff(g, from, to, node, trail + [node])
  {
    assert (trail + [node])[|trail + [node]| - 1] == node;
  }

  /** The edge lies on some walk from `from` to `to`. */
  ghost predicate OnWalk(g: Graph, from: Node, to: Node, e: (Node, Node)) {
    e.1 in Succs(g, e.0) && Reaches(g, from, e.0) && Reaches(g, e.1, to)
  }

  /** `allpaths`: every edge printed is on a walk from one node to the other, and leads to a node that can step off some
      trail; where every trail can be stepped off, the edges printed are exactly those on such walks. */
  method AllPaths(g: Graph, from: Node, to: Node) returns (edges: set<(Node, Node)>)
    ensures forall e :: e in edges ==> OnWalk(g, from, to, e) && MayStand(g, from, to, e.1)
    ensures NeverShut(g, from, to) ==> forall e :: e in edges <==> OnWalk(g, from, to, e)
  {
    ghost var all := Nodes(g) + {from};
    ReachSelf(Edges(g), from);
    var reachesTo, memo := Mark(g, from, to, from, map[], [], all);
    edges := set n, s | n in memo && s in Succs(g, n) && s in memo && memo[s] :: (n, s);
    if NeverShut(g, from, to) {
      forall e | OnWalk(g, from, to, e) ensures e in edges {
        WithinHolds(g, memo.Keys, from, e.0);
        assert e == (e.0, e.1);
      }
    }
  }

  // ---------------------------------------------------------------- an edge that is never printed

  function Loop(): Graph {
    map["1" := {"2", "3"}, "2" := {"1"}]
  }

  /** In 1 -> 2, 2 -> 1, 1 -> 3 the edge from 1 to 2 is on a walk from 1 to 3, and 2 cannot step off a trail. */
  lemma ShutIn()
    ensures OnWalk(Loop(), "1", "3", ("1", "2")) && !MayStand(Loop(), "1", "3", "2")
  {
    var g := Loop();
    ReachSelf(Edges(g), "1");
    SuccIsEdge(g, "1", "3");
    SuccThenReaches(g, "2", "1", "3");
    forall trail ensures !StandsOff(g, "1", "3", "2", trail) {
      if Trail(g, "1", trail) && trail != [] && trail[|trail| - 1] == "2" {
        assert trail[0] == "1" && "1" in trail;
      }
    }
  }

  /** Whatever the order of the successors, `allpaths` from 1 to 3 does not print it. */
  method MissEdge() returns (edges: set<(Node, Node)>)
    ensures OnWalk(Loop(), "1", "3", ("1", "2")) && ("1", "2") !in edges
  {
    ShutIn();
    edges := AllPaths(Loop(), "1", "3");
  }
}
