/** `sccs`: Kosaraju's algorithm, for every graph and every order in which its maps are walked. */
module Scc {
  import opened Paths
  import opened Digraph
  import opened Reachable

  // ---------------------------------------------------------------- forward pass

  /** What a finished node z = post[i] reaches is finished no later, or post[i] shares a component with a node that
      finishes later: one further on in post, or one in progress. */
  ghost predicate Settled(g: Graph, post: seq<Node>, grey: set<Node>, i: int)
    requires 0 <= i < |post|
  {
    forall z :: Reaches(g, post[i], z) ==> z in post[..i + 1] || Excused(g, post, grey, i)
  }

  ghost predicate Excused(g: Graph, post: seq<Node>, grey: set<Node>, i: int)
    requires 0 <= i < |post|
  {
    || (exists k :: i < k < |post| && Mutual(g, post[i], post[k]))
    || (exists y :: y in grey && Mutual(g, post[i], y))
  }

  function Listed(post: seq<Node>): set<Node> {
    set v | v in post
  }

  predicate NoRepeats(post: seq<Node>) {
    forall i, j :: 0 <= i < j < |post| ==> post[i] != post[j]
  }

  /** The state of the forward pass between calls: seen nodes are finished or in progress. */
  ghost predicate Forward(g: Graph, seen: set<Node>, post: seq<Node>, grey: set<Node>) {
    && seen == Listed(post) + grey && Listed(post) !! grey
    && NoRepeats(post)
    && SuccsWithin(g, Listed(post), seen)
    && (forall i {:trigger Settled(g, post, grey, i)} :: 0 <= i < |post| ==> Settled(g, post, grey, i))
  }

  /** A walk that leaves a set leaves it by an edge. */
  lemma {:induction false} Escape(g: Graph, inside: set<Node>, x: Node, via: seq<Node>, z: Node)
    returns (a: Node, w: Node)
    requires Walk(Edges(g), x, via, z) && x in inside && z !in inside
    ensures a in inside && w in Succs(g, a) && w !in inside && Reaches(g, x, w)
    decreases |via|
  {
    var y := via[0];
    EdgeIff(g, x, y);
    if y in inside {
      a, w := Escape(g, inside, y, via[1..], z);
      SuccThenReaches(g, x, y, w);
    } else {
      a, w := x, y;
      SuccIsEdge(g, x, y);
    }
  }

  /** When node finishes, all it reaches is finished or it shares a component with a node still in progress. */
  lemma FinishSettled(g: Graph, seen: set<Node>, post: seq<Node>, grey: set<Node>, node: Node)
    requires Forward(g, seen, post, grey + {node}) && node !in grey
    requires Succs(g, node) <= seen && forall y :: y in grey ==> Reaches(g, y, node)
    ensures Settled(g, post + [node], grey, |post|)
  {
    var post' := post + [node];
    var inside := Listed(post) + {node};
    forall z | Reaches(g, node, z) ensures z in post' || Excused(g, post', grey, |post|) {
      if z !in inside {
        var via :| Walk(Edges(g), node, via, z);
        var a, w := Escape(g, inside, node, via, z);
        assert w in grey && Mutual(g, node, w);
        assert post'[|post|] == node;
      }
    }
    assert post'[..|post| + 1] == post';
  }

  lemma KeepSettled(g: Graph, post: seq<Node>, grey: set<Node>, node: Node, i: int)
    requires 0 <= i < |post| && Settled(g, post, grey + {node}, i)
    ensures Settled(g, post + [node], grey, i)
  {
    var post' := post + [node];
    assert post'[..i + 1] == post[..i + 1];
    if Excused(g, post, grey + {node}, i) {
      if k :| i < k < |post| && Mutual(g, post[i], post[k]) {
        assert post'[k] == post[k] && post'[i] == post[i];
      } else {
        var y :| y in grey + {node} && Mutual(g, post[i], y);
        assert post'[|post|] == node && post'[i] == post[i];
        assert y == node ==> Mutual(g, post'[i], post'[|post|]);
      }
      assert Excused(g, post', grey, i);
    }
  }

  lemma Finish(g: Graph, seen: set<Node>, post: seq<Node>, grey: set<Node>, node: Node)
    requires Forward(g, seen, post, grey + {node}) && node !in grey
    requires Succs(g, node) <= seen && forall y :: y in grey ==> Reaches(g, y, node)
    ensures Forward(g, seen, post + [node], grey)
  {
    var post' := post + [node];
    assert Listed(post') == Listed(post) + {node};
    forall i | 0 <= i < |post'| ensures Settled(g, post', grey, i) {
      if i < |post| {
        KeepSettled(g, post, grey, node, i);
      } else {
        FinishSettled(g, seen, post, grey, node);
      }
    }
  }

  lemma Begin(g: Graph, seen: set<Node>, post: seq<Node>, grey: set<Node>, node: Node)
    requires Forward(g, seen, post, grey) && node !in seen
    ensures Forward(g, seen + {node}, post, grey + {node})
  {
    forall i | 0 <= i < |post| ensures Settled(g, post, grey + {node}, i) {
      assert Settled(g, post, grey, i);
      if Excused(g, post, grey, i) {
        assert Excused(g, post, grey + {node}, i) by {
          if y :| y in grey && Mutual(g, post[i], y) { assert y in grey + {node}; }
        }
      }
    }
  }

  /** The recursive closure `visit` of `sccs`. */
  method VisitPost(g: Graph, node: Node, seen: set<Node>, post: seq<Node>, ghost grey: set<Node>)
    returns (seen': set<Node>, post': seq<Node>)
    requires Forward(g, seen, post, grey) && node in Nodes(g) && seen <= Nodes(g)
    requires forall y :: y in grey ==> Reaches(g, y, node)
    ensures Forward(g, seen', post', grey) && seen <= seen' <= Nodes(g) && node in seen' && post <= post'
    decreases Nodes(g) - seen
  {
    seen', post' := seen, post;
    if node !in seen {
      Begin(g, seen, post, grey, node);
      seen' := seen + {node};
      ReachSelf(Edges(g), node);
      var rest := Succs(g, node);
      while rest != {}
        invariant rest <= Succs(g, node) && Succs(g, node) - rest <= seen'
        invariant Forward(g, seen', post', grey + {node}) && seen + {node} <= seen' <= Nodes(g) && post <= post'
        decreases rest
      {
        var e :| e in rest;
        rest := rest - {e};
        EdgeIff(g, node, e);
        forall y | y in grey + {node} ensures Reaches(g, y, e) {
          if y == node { SuccIsEdge(g, node, e); } else { ReachesVia(g, y, node, e); }
        }
        seen', post' := VisitPost(g, e, seen', post', grey + {node});
      }
      Finish(g, seen', post', grey, node);
      post' := post' + [node];
    }
  }

  method ForwardPass(g: Graph) returns (post: seq<Node>)
    ensures Listed(post) == Nodes(g) && Forward(g, Nodes(g), post, {})
  {
    post := [];
    var seen := {};
    var rest := g.Keys;
    while rest != {}
      invariant rest <= g.Keys && g.Keys - rest <= seen <= Nodes(g) && Forward(g, seen, post, {})
      decreases rest
    {
      var node :| node in rest;
      rest := rest - {node};
      seen, post := VisitPost(g, node, seen, post, {});
    }
    forall a ensures a in Nodes(g) ==> a in seen {
      if a in Nodes(g) && a !in g {
        var c, b :| c in g && b in g[c] && b == a;
        assert a in Succs(g, c) && c in Listed(post);
      }
    }
  }

  // ---------------------------------------------------------------- what the post-order gives

  /** If post[i] reaches post[j], some node of post[i]'s component stands at j or later. */
  lemma {:induction false} LaterTwin(g: Graph, post: seq<Node>, i: int, j: int) returns (k: int)
    requires 0 <= i < |post| && 0 <= j < |post| && NoRepeats(post)
    requires forall m {:trigger Settled(g, post, {}, m)} :: 0 <= m < |post| ==> Settled(g, post, {}, m)
    requires Reaches(g, post[i], post[j])
    ensures j <= k < |post| && Mutual(g, post[i], post[k])
    decreases |post| - i
  {
    if j <= i {
      k := i;
      ReachSelf(Edges(g), post[i]);
    } else {
      assert Settled(g, post, {}, i);
      assert post[j] !in post[..i + 1];
      var m :| i < m < |post| && Mutual(g, post[i], post[m]);
      ReachTrans(Edges(g), post[m], post[i], post[j]);
      k := LaterTwin(g, post, m, j);
      ReachTrans(Edges(g), post[i], post[m], post[k]);
      ReachTrans(Edges(g), post[k], post[m], post[i]);
    }
  }

  // ---------------------------------------------------------------- reverse pass

  /** The component of x. */
  ghost function Component(g: Graph, x: Node): set<Node> {
    set y | y in Nodes(g) && Mutual(g, x, y)
  }

  /** Every node with an edge into the set is in it. */
  ghost predicate PredClosed(g: Graph, seen: set<Node>) {
    forall a, b :: b in seen && b in Succs(g, a) ==> a in seen
  }

  lemma PredClosedReaches(g: Graph, seen: set<Node>, a: Node, b: Node)
    requires PredClosed(g, seen) && b in seen && Reaches(g, a, b)
    ensures a in seen
  {
    FlipReach(Edges(g), a, b);
    forall x, y | x in seen && (x, y) in Flip(Edges(g)) ensures y in seen {
      FlipIff(Edges(g), x, y);
      EdgeIff(g, y, x);
    }
    ClosedHoldsReach(Flip(Edges(g)), seen, b, a);
  }

  lemma RevReaches(g: Graph, rev: Graph, a: Node, b: Node)
    requires Edges(rev) == Flip(Edges(g))
    ensures Reaches(rev, a, b) <==> Reaches(g, b, a)
  {
    FlipReach(Edges(g), b, a);
  }

  /** What `rvisit` gathers from top, the last unseen node of the post-order, is the component of top. */
  lemma GatheredIsComponent(g: Graph, post: seq<Node>, seen: set<Node>, seen': set<Node>, t: int)
    requires Forward(g, Nodes(g), post, {}) && Listed(post) == Nodes(g) && 0 <= t < |post| && post[t] !in seen
    requires seen <= seen' <= Nodes(g) && PredClosed(g, seen) && PredClosed(g, seen') && post[t] in seen'
    requires forall k :: t < k < |post| ==> post[k] in seen
    requires forall v :: v in seen' - seen ==> Reaches(g, v, post[t])
    ensures seen' - seen == Component(g, post[t])
  {
    var top := post[t];
    forall x | x in seen' - seen ensures x in Component(g, top) {
      assert x in Listed(post);
      var i :| 0 <= i < |post| && post[i] == x;
      var k := LaterTwin(g, post, i, t);
      if k > t {
        PredClosedReaches(g, seen, x, post[k]);
      }
    }
    forall x | x in Component(g, top) ensures x in seen' - seen {
      PredClosedReaches(g, seen', x, top);
      if x in seen {
        PredClosedReaches(g, seen, top, x);
      }
    }
  }

  /** The recursive closure `rvisit` of `sccs`, on the transposed graph. */
  method RVisit(rev: Graph, node: Node, seen: set<Node>, scc: set<Node>, ghost all: set<Node>)
    returns (seen': set<Node>, scc': set<Node>)
    requires Universe(rev, all) && node in all && seen <= all
    ensures seen <= seen' <= all && node in seen' && scc' == scc + (seen' - seen)
    ensures forall v :: v in seen' - seen ==> Reaches(rev, node, v)
    ensures SuccsWithin(rev, seen' - seen, seen')
    decreases all - seen
  {
    seen', scc' := seen, scc;
    if node !in seen {
      seen', scc' := seen + {node}, scc + {node};
      ReachSelf(Edges(rev), node);
      var rest := Succs(rev, node);
      while rest != {}
        invariant rest <= Succs(rev, node) && seen + {node} <= seen' <= all && scc' == scc + (seen' - seen)
        invariant forall v :: v in seen' - seen ==> Reaches(rev, node, v)
        invariant SuccsWithin(rev, seen' - seen - {node}, seen') && Succs(rev, node) - rest <= seen'
        decreases rest
      {
        var e :| e in rest;
        rest := rest - {e};
        EdgeIff(rev, node, e);
        var s1 := seen';
        seen', scc' := RVisit(rev, e, s1, scc', all);
        forall v | v in seen' - s1 ensures Reaches(rev, node, v) {
          SuccThenReaches(rev, node, e, v);
        }
      }
    }
  }

  ghost predicate IsComponent(g: Graph, part: set<Node>) {
    exists t :: t in part && part == Component(g, t)
  }

  /** Disjoint parts that make up what has been seen. */
  ghost predicate Parts(sccs: seq<set<Node>>, seen: set<Node>) {
    && (forall c :: 0 <= c < |sccs| ==> sccs[c] <= seen)
    && (forall c, d :: 0 <= c < d < |sccs| ==> sccs[c] !! sccs[d])
    && (forall x :: x in seen ==> InSome(sccs, x))
  }

  ghost predicate AllComponents(g: Graph, sccs: seq<set<Node>>) {
    forall c {:trigger IsComponent(g, sccs[c])} :: 0 <= c < |sccs| ==> IsComponent(g, sccs[c])
  }

  ghost predicate InSome(sccs: seq<set<Node>>, x: Node) {
    exists c :: 0 <= c < |sccs| && x in sccs[c]
  }

  lemma SameComponent(g: Graph, x: Node, y: Node)
    requires y in Component(g, x)
    ensures Component(g, x) == Component(g, y)
  {
    forall z | z in Component(g, x) ensures z in Component(g, y) {
      ReachTrans(Edges(g), y, x, z);
      ReachTrans(Edges(g), z, x, y);
    }
    forall z | z in Component(g, y) ensures z in Component(g, x) {
      ReachTrans(Edges(g), x, y, z);
      ReachTrans(Edges(g), z, y, x);
    }
  }

  lemma AddPart(sccs: seq<set<Node>>, seen: set<Node>, part: set<Node>)
    requires Parts(sccs, seen) && part !! seen
    ensures Parts(sccs + [part], seen + part)
  {
    var sccs', seen' := sccs + [part], seen + part;
    forall c, d | 0 <= c < d < |sccs'| ensures sccs'[c] !! sccs'[d] {
      assert sccs'[c] == sccs[c] && sccs[c] <= seen;
      if d < |sccs| { assert sccs'[d] == sccs[d]; }
    }
    forall x | x in seen' ensures InSome(sccs', x) {
      if x in seen {
        assert InSome(sccs, x);
        var c :| 0 <= c < |sccs| && x in sccs[c];
        assert x in sccs'[c];
      } else {
        assert x in sccs'[|sccs|];
      }
    }
  }

  lemma AddComponent(g: Graph, sccs: seq<set<Node>>, part: set<Node>)
    requires AllComponents(g, sccs) && IsComponent(g, part)
    ensures AllComponents(g, sccs + [part])
  {
    var sccs' := sccs + [part];
    forall c | 0 <= c < |sccs'| ensures IsComponent(g, sccs'[c]) {
      if c < |sccs| { assert sccs'[c] == sccs[c]; } else { assert sccs'[c] == part; }
    }
  }

  /** A component is the class of any of its nodes. */
  lemma ComponentClass(g: Graph, part: set<Node>, x: Node, y: Node)
    requires IsComponent(g, part) && x in part && y in Nodes(g)
    ensures y in part <==> Mutual(g, x, y)
  {
    var t :| t in part && part == Component(g, t);
    SameComponent(g, t, x);
  }

  lemma RevPredClosed(g: Graph, rev: Graph, seen: set<Node>)
    requires (forall a, b :: b in Succs(rev, a) <==> a in Succs(g, b)) && SuccsWithin(rev, seen, seen)
    ensures PredClosed(g, seen)
  {
    forall a, b | b in seen && b in Succs(g, a) ensures a in seen {
      assert a in Succs(rev, b);
    }
  }

  lemma RevUniverse(g: Graph, rev: Graph)
    requires (forall a, b :: b in Succs(rev, a) <==> a in Succs(g, b)) && rev.Keys == Nodes(g)
    ensures Universe(rev, Nodes(g))
  {
    forall x | x in Nodes(rev) ensures x in Nodes(g) {
      if x !in rev {
        var a, b :| a in rev && b in rev[a] && b == x;
        assert b in Succs(rev, a);
        EdgeIff(g, x, a);
      }
    }
  }

  /** rev is g with every edge turned round. */
  ghost predicate Reversal(g: Graph, rev: Graph) {
    Edges(rev) == Flip(Edges(g)) && (forall a, b :: b in Succs(rev, a) <==> a in Succs(g, b)) && Universe(rev, Nodes(g))
  }

  /** Gather the component of top, the last unseen node of the post-order. */
  method Gather(g: Graph, rev: Graph, post: seq<Node>, n: nat, seen: set<Node>)
    returns (seen': set<Node>, scc: set<Node>)
    requires Forward(g, Nodes(g), post, {}) && Listed(post) == Nodes(g) && n < |post| && post[n] !in seen
    requires Reversal(g, rev)
    requires seen <= Nodes(g) && SuccsWithin(rev, seen, seen) && forall k :: n < k < |post| ==> post[k] in seen
    ensures seen' == seen + scc && scc !! seen && seen' <= Nodes(g) && SuccsWithin(rev, seen', seen')
    ensures post[n] in scc && IsComponent(g, scc)
  {
    var top := post[n];
    assert top in Listed(post);
    seen', scc := RVisit(rev, top, seen, {}, Nodes(g));
    RevPredClosed(g, rev, seen);
    RevPredClosed(g, rev, seen');
    forall v | v in seen' - seen ensures Reaches(g, v, top) {
      RevReaches(g, rev, top, v);
    }
    GatheredIsComponent(g, post, seen, seen', n);
  }

  /** Kosaraju: the parts are the classes of mutual reachability, each node in exactly one. */
  method Sccs(g: Graph) returns (sccs: seq<set<Node>>)
    ensures forall x :: x in Nodes(g) ==> InSome(sccs, x)
    ensures forall c, d :: 0 <= c < d < |sccs| ==> sccs[c] !! sccs[d]
    ensures forall c :: 0 <= c < |sccs| ==> sccs[c] != {} && sccs[c] <= Nodes(g)
    ensures forall c, x, y :: 0 <= c < |sccs| && x in sccs[c] && y in Nodes(g) ==> (y in sccs[c] <==> Mutual(g, x, y))
  {
    var post := ForwardPass(g);
    var rev := Transpose(g);
    RevUniverse(g, rev);
    sccs := ReversePass(g, rev, post);
    PartsAreClasses(g, sccs);
  }

  /** One turn of the popping loop: the node popped starts a new component unless it is in one already. */
  method PopOne(g: Graph, rev: Graph, post: seq<Node>, n: nat, seen: set<Node>, sccs: seq<set<Node>>)
    returns (seen': set<Node>, sccs': seq<set<Node>>)
    requires Forward(g, Nodes(g), post, {}) && Listed(post) == Nodes(g) && Reversal(g, rev) && n < |post|
    requires seen <= Nodes(g) && SuccsWithin(rev, seen, seen) && Parts(sccs, seen) && AllComponents(g, sccs)
    requires forall k :: n < k < |post| ==> post[k] in seen
    ensures seen <= seen' <= Nodes(g) && SuccsWithin(rev, seen', seen') && post[n] in seen'
    ensures Parts(sccs', seen') && AllComponents(g, sccs')
  {
    seen', sccs' := seen, sccs;
    if post[n] !in seen {
      var scc;
      seen', scc := Gather(g, rev, post, n, seen);
      AddPart(sccs, seen, scc);
      AddComponent(g, sccs, scc);
      sccs' := sccs + [scc];
    }
  }

  /** The popping loop of the reverse pass. */
  method ReversePass(g: Graph, rev: Graph, post: seq<Node>) returns (sccs: seq<set<Node>>)
    requires Forward(g, Nodes(g), post, {}) && Listed(post) == Nodes(g) && Reversal(g, rev)
    ensures Parts(sccs, Nodes(g)) && AllComponents(g, sccs)
  {
    sccs := [];
    var seen: set<Node> := {};
    var n := |post|;
    while n > 0
      invariant 0 <= n <= |post| && seen <= Nodes(g) && SuccsWithin(rev, seen, seen)
      invariant Parts(sccs, seen) && AllComponents(g, sccs)
      invariant forall k :: n <= k < |post| ==> post[k] in seen
    {
      n := n - 1;
      seen, sccs := PopOne(g, rev, post, n, seen, sccs);
    }
    assert seen == Nodes(g) by {
      forall x | x in Nodes(g) ensures x in seen { assert x in Listed(post); }
    }
  }

  lemma PartsAreClasses(g: Graph, sccs: seq<set<Node>>)
    requires Parts(sccs, Nodes(g)) && AllComponents(g, sccs)
    ensures forall c :: 0 <= c < |sccs| ==> sccs[c] != {} && sccs[c] <= Nodes(g)
    ensures forall c, x, y :: 0 <= c < |sccs| && x in sccs[c] && y in Nodes(g) ==> (y in sccs[c] <==> Mutual(g, x, y))
  {
    forall c | 0 <= c < |sccs| ensures sccs[c] != {} {
      assert IsComponent(g, sccs[c]);
    }
    forall c, x, y | 0 <= c < |sccs| && x in sccs[c] && y in Nodes(g) ensures y in sccs[c] <==> Mutual(g, x, y) {
      assert IsComponent(g, sccs[c]);
      ComponentClass(g, sccs[c], x, y);
    }
  }
}
