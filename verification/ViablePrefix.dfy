/** What an LR stack spells is the beginning of a sentence. */
module ViablePrefix {
  import opened Paths
  import opened Grammars
  import opened GrammarSets
  import opened Items
  import opened Lookahead
  import opened Closure
  import opened Automaton
  import opened Engine

  ghost predicate AllProduce(g: Grammar)
    requires WellFormed(g)
  {
    forall n :: 0 <= n <= g.nnonter ==> !Unproductive(g, n)
  }

  /** The tokens begin some string that the start symbol derives. */
  ghost predicate Viable(g: Grammar, tokens: seq<int>)
    requires WellFormed(g)
  {
    exists rest :: Derives(g, StartSymbol(g), tokens + rest)
  }

  // ---------------------------------------------------------------- completing productions

  lemma {:induction false} TailAt(g: Grammar, p: int, j: nat, m: nat)
    requires WellFormed(g) && -1 <= p < |g.prods| && j + m + 1 < Len(g, p)
    ensures m < |Tail(g, p, j)| && Tail(g, p, j)[m] == At(g, p, j + m)
    decreases m
  {
    if m > 0 { TailAt(g, p, j + 1, m - 1); }
  }

  lemma RhsSplits(g: Grammar, p: int, j: nat)
    requires WellFormed(g) && 0 <= p < |g.prods| && j < Len(g, p)
    ensures j <= |Rhs(g, p)| && Rhs(g, p) == Rhs(g, p)[..j] + Tail(g, p, j)
  {
    TailSymbols(g, p, j);
    assert WfProd(g, p, g.prods[p]);
    var rhs := Rhs(g, p);
    forall k | j <= k < |rhs| ensures rhs[k] == Tail(g, p, j)[k - j] { TailAt(g, p, j, k - j); }
  }

  /** The trees before an item's dot are a forest for the symbols there. */
  lemma FrontForest(g: Grammar, ks: seq<seq<KItem>>, stack: seq<int>, trees: seq<Tree>, top: nat, it: Item)
    requires WellFormed(g) && KernelsOk(g, ks) && Linked(g, ks, stack, trees) && top < |stack|
    requires it in CloOf(g, ks[stack[top]]) && ValidItem(g, it) && it.p >= 0
    ensures it.off <= top && Item(it.p, 0) in CloOf(g, ks[stack[top - it.off]]) && it.off <= |Rhs(g, it.p)|
    ensures ValidForest(g, trees[top - it.off..top], Rhs(g, it.p)[..it.off])
  {
    BeforeDot(g, ks, stack, trees, top, it);
    var base := top - it.off;
    assert WfProd(g, it.p, g.prods[it.p]);
    forall m | 0 <= m < it.off
      ensures ValidTree(g, trees[base..top][m]) && Root(g, trees[base..top][m]) == Rhs(g, it.p)[m]
    {
      assert trees[base..top][m] == trees[base + m];
      assert Rhs(g, it.p)[m] == g.prods[it.p][m + 1] == At(g, it.p, m);
    }
  }

  lemma SplitNode(g: Grammar, p: int, j: nat, front: seq<Tree>, rest: seq<Tree>)
    requires WellFormed(g) && 0 <= p < |g.prods| && j < Len(g, p) && j <= |Rhs(g, p)|
    requires ValidForest(g, front, Rhs(g, p)[..j]) && ValidForest(g, rest, Tail(g, p, j))
    ensures var t := Node(p, front + rest);
            ValidTree(g, t) && Root(g, t) == Lhs(g, p) && Yield(t) == YieldAll(front) + YieldAll(rest)
  {
    RhsSplits(g, p, j);
    ForestConcat(g, front, Rhs(g, p)[..j], rest, Tail(g, p, j));
    MakeNode(g, p, front + rest);
    YieldConcat(front, rest);
  }

  /** The rest of a production behind a tree for its entry j. */
  lemma RestForest(g: Grammar, p: int, j: nat, t: Tree) returns (rest: seq<Tree>, w: seq<int>)
    requires WellFormed(g) && AllProduce(g) && -1 <= p < |g.prods| && j + 1 < Len(g, p)
    requires ValidTree(g, t) && Root(g, t) == At(g, p, j)
    ensures ValidForest(g, rest, Tail(g, p, j)) && YieldAll(rest) == Yield(t) + w
  {
    TailSymbols(g, p, j + 1);
    var ts := SomeForest(g, Tail(g, p, j + 1));
    ConsForest(g, t, ts, At(g, p, j), Tail(g, p, j + 1));
    rest, w := [t] + ts, YieldAll(ts);
  }

  lemma LeftEdgeNode(g: Grammar, i: int, t: Tree) returns (t': Tree, w: seq<int>)
    requires WellFormed(g) && AllProduce(g) && 0 <= i < |g.prods| && ValidTree(g, t) && Root(g, t) == At(g, i, 0)
    ensures ValidTree(g, t') && Root(g, t') == Lhs(g, i) && Yield(t') == Yield(t) + w
  {
    RootIsSymbol(g, t);
    ItemBasics(g, Item(i, 0));
    assert WfProd(g, i, g.prods[i]);
    var rest;
    rest, w := RestForest(g, i, 0, t);
    SplitNode(g, i, 0, [], rest);
    t' := Node(i, [] + rest);
  }

  /** A tree for the symbol at the end of a left-edge walk grows into one for the symbol at its start. */
  lemma {:induction false} GrownTree(g: Grammar, a: int, via: seq<int>, b: int, t: Tree) returns (t': Tree, w: seq<int>)
    requires WellFormed(g) && AllProduce(g) && ValidTree(g, t) && Root(g, t) == b && Walk(LeftEdges(g), a, via, b)
    ensures ValidTree(g, t') && Root(g, t') == a && Yield(t') == Yield(t) + w
    decreases |via|
  {
    if via == [] {
      t', w := t, [];
    } else {
      var i :| 0 <= i < |g.prods| && (Lhs(g, i), At(g, i, 0)) == (a, via[0]);
      var t1, w1 := GrownTree(g, via[0], via[1..], b, t);
      var w2;
      t', w2 := LeftEdgeNode(g, i, t1);
      w := w1 + w2;
    }
  }

  // ---------------------------------------------------------------- climbing the stack

  /** The trees below top and then t begin a sentence. */
  ghost predicate Begun(g: Grammar, trees: seq<Tree>, top: nat, t: Tree)
    requires WellFormed(g)
  {
    top <= |trees| && Viable(g, YieldAll(trees[..top]) + Yield(t))
  }

  lemma Regroup(a: seq<int>, b: seq<int>, c: seq<int>, w: seq<int>, r: seq<int>)
    ensures a + (b + c + w) + r == (a + b) + c + (w + r)
  {
  }

  lemma ViableSplit(g: Grammar, tokens: seq<int>, rest: seq<int>, whole: seq<int>)
    requires WellFormed(g) && whole == tokens + rest && Derives(g, StartSymbol(g), whole)
    ensures Viable(g, tokens)
  {
  }

  lemma YieldSplit(trees: seq<Tree>, base: nat, top: nat)
    requires base <= top <= |trees|
    ensures YieldAll(trees[..top]) == YieldAll(trees[..base]) + YieldAll(trees[base..top])
  {
    assert trees[..top] == trees[..base] + trees[base..top];
    YieldConcat(trees[..base], trees[base..top]);
  }

  lemma BegunBelow(g: Grammar, trees: seq<Tree>, base: nat, top: nat, t: Tree, t': Tree, w: seq<int>)
    requires WellFormed(g) && base <= top <= |trees| && Begun(g, trees, base, t')
    requires Yield(t') == YieldAll(trees[base..top]) + Yield(t) + w
    ensures Begun(g, trees, top, t)
  {
    var x, y, z := YieldAll(trees[..base]), YieldAll(trees[base..top]), Yield(t);
    var whole := x + Yield(t');
    var rest :| Derives(g, StartSymbol(g), whole + rest);
    YieldSplit(trees, base, top);
    Regroup(x, y, z, w, rest);
    ViableSplit(g, x + y + z, w + rest, whole + rest);
  }

  /** State 0 is at the bottom only. */
  lemma StartIsBottom(g: Grammar, ks: seq<seq<KItem>>, stack: seq<int>, trees: seq<Tree>, top: nat)
    requires WellFormed(g) && KernelsOk(g, ks) && Linked(g, ks, stack, trees) && top < |stack|
    requires Item(-1, 1) in CloOf(g, ks[stack[top]])
    ensures top == 0
  {
    if stack[top] > 0 { StartItemElsewhere(g, ks, stack[top]); }
    assert top > 0 ==> LinkAt(g, ks, stack, trees, top - 1);
  }

  lemma BottomBegun(g: Grammar, ks: seq<seq<KItem>>, stack: seq<int>, trees: seq<Tree>, top: nat, t: Tree)
    requires WellFormed(g) && KernelsOk(g, ks) && Linked(g, ks, stack, trees) && top < |stack|
    requires Item(-1, 1) in CloOf(g, ks[stack[top]]) && ValidTree(g, t) && Root(g, t) == StartSymbol(g)
    ensures Begun(g, trees, top, t)
  {
    StartIsBottom(g, ks, stack, trees, top);
    assert YieldAll(trees[..0]) + Yield(t) + [] == Yield(t);
    assert DerivationOf(g, t, StartSymbol(g), YieldAll(trees[..0]) + Yield(t) + []);
  }

  /** The production of a kernel item, completed around a tree for the symbol after its dot. */
  lemma KernelNode(g: Grammar, ks: seq<seq<KItem>>, stack: seq<int>, trees: seq<Tree>, top: nat, k: Item, t: Tree)
    returns (base: nat, t': Tree, w: seq<int>)
    requires WellFormed(g) && AllProduce(g) && KernelsOk(g, ks) && Linked(g, ks, stack, trees) && top < |stack|
    requires k in CloOf(g, ks[stack[top]]) && ValidItem(g, k) && k.p >= 0 && First(g, k) >= NTBASE
    requires ValidTree(g, t) && Root(g, t) == First(g, k)
    ensures base + k.off == top && Item(k.p, 0) in CloOf(g, ks[stack[base]])
    ensures ValidTree(g, t') && Root(g, t') == Lhs(g, k.p)
    ensures Yield(t') == YieldAll(trees[base..top]) + Yield(t) + w
  {
    RoomAfter(g, k);
    var rest;
    rest, w := RestForest(g, k.p, k.off, t);
    FrontForest(g, ks, stack, trees, top, k);
    base := top - k.off;
    SplitNode(g, k.p, k.off, trees[base..top], rest);
    t' := Node(k.p, trees[base..top] + rest);
  }

  /** A tree for the symbol after the dot of a kernel item of the state at top. */
  lemma {:induction false} Climb(g: Grammar, ks: seq<seq<KItem>>, stack: seq<int>, trees: seq<Tree>, top: nat, k: Item,
                                 t: Tree)
    requires WellFormed(g) && AllProduce(g) && KernelsOk(g, ks) && Linked(g, ks, stack, trees) && top < |stack|
    requires k in KernelSet(ks[stack[top]]) && ValidItem(g, k) && First(g, k) >= NTBASE
    requires ValidTree(g, t) && Root(g, t) == First(g, k)
    ensures Begun(g, trees, top, t)
    decreases top, 0
  {
    assert k.off >= 1 by {
      var i :| 0 <= i < |ks[stack[top]]| && ks[stack[top]][i].item == k;
      assert KernelItem(k);
    }
    if k.p == -1 {
      BottomBegun(g, ks, stack, trees, top, t);
    } else {
      var base, t', w := KernelNode(g, ks, stack, trees, top, k, t);
      Called(g, ks, stack, trees, base, k.p, t');
      BegunBelow(g, trees, base, top, t, t', w);
    }
  }

  /** A tree for the left-hand side of a production that the state at top has with the dot in front. */
  lemma {:induction false} Called(g: Grammar, ks: seq<seq<KItem>>, stack: seq<int>, trees: seq<Tree>, top: nat, q: int,
                                  t: Tree)
    requires WellFormed(g) && AllProduce(g) && KernelsOk(g, ks) && Linked(g, ks, stack, trees) && top < |stack|
    requires 0 <= q < |g.prods| && Item(q, 0) in CloOf(g, ks[stack[top]]) && ValidTree(g, t) && Root(g, t) == Lhs(g, q)
    ensures Begun(g, trees, top, t)
    decreases top, 1
  {
    var kernel := ks[stack[top]];
    forall i | 0 <= i < |kernel| ensures kernel[i].item != Item(q, 0) { assert KernelItem(kernel[i].item); }
    assert Entered(g, KernelSet(kernel), q);
    var k :| k in KernelSet(kernel) && Reach(LeftEdges(g), First(g, k), Lhs(g, q));
    var via :| Walk(LeftEdges(g), First(g, k), via, Lhs(g, q));
    WalkFromNonterminal(g, First(g, k), via, Lhs(g, q));
    var t', w := GrownTree(g, First(g, k), via, Lhs(g, q), t);
    Climb(g, ks, stack, trees, top, k, t');
    BegunBelow(g, trees, top, top, t, t', w);
  }

  lemma WalkFromNonterminal(g: Grammar, a: int, via: seq<int>, b: int)
    requires WellFormed(g) && Walk(LeftEdges(g), a, via, b) && b >= NTBASE
    ensures a >= NTBASE
  {
    if via != [] {
      var i :| 0 <= i < |g.prods| && (Lhs(g, i), At(g, i, 0)) == (a, via[0]);
      assert WfProd(g, i, g.prods[i]);
    }
  }

  // ---------------------------------------------------------------- the theorem

  /** State 0 on top: nothing has been shifted. */
  lemma NothingShifted(g: Grammar, ks: seq<seq<KItem>>, stack: seq<int>, trees: seq<Tree>)
    requires WellFormed(g) && AllProduce(g) && KernelsOk(g, ks) && Linked(g, ks, stack, trees)
    requires Item(-1, 1) in CloOf(g, ks[stack[|trees|]])
    ensures Viable(g, YieldAll(trees))
  {
    StartIsBottom(g, ks, stack, trees, |trees|);
    assert WfProd(g, 0, g.prods[0]);
    var ts := SomeForest(g, [StartSymbol(g)]);
    assert DerivationOf(g, ts[0], StartSymbol(g), YieldAll(trees) + Yield(ts[0]));
  }

  lemma BelowStart(g: Grammar, ks: seq<seq<KItem>>, s: int, x: int, t: int)
    requires WellFormed(g) && KernelsOk(g, ks) && 0 <= s < |ks| && IsGoto(g, ks, s, x, t)
    requires Item(-1, 2) in KernelSet(ks[t])
    ensures Item(-1, 1) in CloOf(g, ks[s]) && x == StartSymbol(g)
  {
    var it :| it in CloOf(g, ks[s]) && ValidItem(g, it) && First(g, it) == x && Item(it.p, it.off + 1) == Item(-1, 2);
    assert it == Item(-1, 1);
  }

  lemma OneTree(g: Grammar, trees: seq<Tree>)
    requires WellFormed(g) && |trees| == 1 && ValidTree(g, trees[0]) && Root(g, trees[0]) == StartSymbol(g)
    ensures Viable(g, YieldAll(trees))
  {
    assert trees == [trees[0]];
    YieldOne(trees[0]);
    assert DerivationOf(g, trees[0], StartSymbol(g), YieldAll(trees) + []);
  }

  /** The start symbol has been moved over: the stack is one tree for it. */
  lemma StartShifted(g: Grammar, ks: seq<seq<KItem>>, stack: seq<int>, trees: seq<Tree>)
    requires WellFormed(g) && KernelsOk(g, ks) && Linked(g, ks, stack, trees)
    requires Item(-1, 2) in KernelSet(ks[stack[|trees|]])
    ensures Viable(g, YieldAll(trees))
  {
    var top := |trees|;
    StartKernelSet(g, ks);
    assert top > 0 && LinkAt(g, ks, stack, trees, top - 1);
    BelowStart(g, ks, stack[top - 1], Root(g, trees[top - 1]), stack[top]);
    StartIsBottom(g, ks, stack, trees, top - 1);
    OneTree(g, trees);
  }

  /** The first item of the top state, when it belongs to the whole of production 0. */
  lemma WholeStack(g: Grammar, ks: seq<seq<KItem>>, stack: seq<int>, trees: seq<Tree>, k: Item)
    requires WellFormed(g) && AllProduce(g) && KernelsOk(g, ks) && Linked(g, ks, stack, trees)
    requires k in KernelSet(ks[stack[|trees|]]) && k.p == -1
    ensures Viable(g, YieldAll(trees))
  {
    var s := stack[|trees|];
    var i :| 0 <= i < |ks[s]| && ks[s][i].item == k;
    assert StateOk(g, ks, s) && KernelItem(k);
    if k.off == 1 {
      NothingShifted(g, ks, stack, trees);
    } else {
      assert Moved(g, k, Acc(g, ks[s])) && Acc(g, ks[s]) > 1;
      StartShifted(g, ks, stack, trees);
    }
  }

  lemma StackBelow(g: Grammar, trees: seq<Tree>, base: nat, t: Tree, w: seq<int>)
    requires WellFormed(g) && base <= |trees| && Begun(g, trees, base, t)
    requires Yield(t) == YieldAll(trees[base..|trees|]) + w
    ensures Viable(g, YieldAll(trees))
  {
    var x, y := YieldAll(trees[..base]), YieldAll(trees[base..|trees|]);
    var whole := x + Yield(t);
    var rest :| Derives(g, StartSymbol(g), whole + rest);
    YieldSplit(trees, base, |trees|);
    assert trees[..|trees|] == trees;
    Regroup(x, y, [], w, rest);
    assert y + [] == y && x + y + [] == x + y;
    ViableSplit(g, x + y, w + rest, whole + rest);
  }

  /** Where every nonterminal derives something, what a linked stack spells begins a sentence. */
  lemma StackViable(g: Grammar, ks: seq<seq<KItem>>, stack: seq<int>, trees: seq<Tree>)
    requires WellFormed(g) && AllProduce(g) && KernelsOk(g, ks) && Linked(g, ks, stack, trees)
    ensures Viable(g, YieldAll(trees))
  {
    var top := |trees|;
    var s := stack[top];
    assert StateOk(g, ks, s) && KernelOk(g, ks[s]);
    var k := ks[s][0].item;
    assert k in KernelSet(ks[s]);
    if k.p == -1 {
      WholeStack(g, ks, stack, trees, k);
    } else {
      TailSymbols(g, k.p, k.off);
      var rest := SomeForest(g, Tail(g, k.p, k.off));
      FrontForest(g, ks, stack, trees, top, k);
      var base := top - k.off;
      SplitNode(g, k.p, k.off, trees[base..top], rest);
      var t := Node(k.p, trees[base..top] + rest);
      Called(g, ks, stack, trees, base, k.p, t);
      StackBelow(g, trees, base, t, YieldAll(rest));
    }
  }

  /** Whatever input the parser is given and however its run ends, the tokens it has shifted begin a sentence. */
  lemma ShiftedViable(g: Grammar, ks: seq<seq<KItem>>, p: Parser, input: seq<int>, n: nat)
    requires WellFormed(g) && AllProduce(g) && Faithful(g, ks, p) && InputOk(g, input)
    ensures var o := Run(p, input, n);
            !o.Crashed? && 0 <= Consumed(o.c) <= |input| && Viable(g, input[..Consumed(o.c)])
  {
    RunSound(g, ks, p, input, n);
    match Run(p, input, n)
    case Accepted(c) =>
      assert input[..Consumed(c)] == input[..Consumed(c)] + [];
    case Running(c) =>
      assert Sound(g, ks, input, Running(c));
      SpelledViable(g, ks, input, c);
    case Rejected(c) =>
      assert Sound(g, ks, input, Rejected(c));
      SpelledViable(g, ks, input, c);
    case Crashed =>
  }

  lemma SpelledViable(g: Grammar, ks: seq<seq<KItem>>, input: seq<int>, c: Config)
    requires WellFormed(g) && AllProduce(g) && KernelsOk(g, ks) && exists trees :: Spells(g, ks, input, c, trees)
    ensures 0 <= Consumed(c) <= |input| && Viable(g, input[..Consumed(c)])
  {
    var trees :| Spells(g, ks, input, c, trees);
    StackViable(g, ks, c.stack, trees);
  }
}
