/** Grammars in the form the generator keeps them, and what they derive. */
module Grammars {
  // A symbol is an integer: tokens are 1..ntokens, nonterminal n is NTBASE + n. Production i is the sequence LHS,
  // RHS symbols, -i. Token 1 is `$end`, nonterminal 0 is `$accept`.

  const NTBASE := 4096
  const END_TOKEN := 1

  datatype Grammar = Grammar(ntokens: nat, nnonter: nat, prods: seq<seq<int>>)

  predicate IsToken(g: Grammar, s: int) {
    1 <= s <= g.ntokens
  }

  predicate IsNonterminal(g: Grammar, s: int) {
    NTBASE <= s <= NTBASE + g.nnonter
  }

  predicate IsSymbol(g: Grammar, s: int) {
    IsToken(g, s) || IsNonterminal(g, s)
  }

  predicate WfProd(g: Grammar, i: int, p: seq<int>) {
    && |p| >= 2
    && IsNonterminal(g, p[0])
    && (forall k :: 1 <= k < |p| - 1 ==> IsSymbol(g, p[k]))
    && p[|p| - 1] == -i
  }

  /** What reading the rules establishes: production 0 is `$accept: start $end`, where start is neither
      `$end` nor `$accept` itself, and no rule of the user's defines the reserved `$accept`. That tokens stay below
      NTBASE it does not establish: the reader admits more tokens, and from NTBASE on their numbers are also those of
      nonterminals. Such grammars are not modelled. */
  predicate WellFormed(g: Grammar) {
    && 3 <= g.ntokens < NTBASE
    && |g.prods| >= 1
    && (forall i :: 0 <= i < |g.prods| ==> WfProd(g, i, g.prods[i]))
    && |g.prods[0]| == 4
    && g.prods[0][0] == NTBASE
    && g.prods[0][1] > 1 && g.prods[0][1] != NTBASE
    && g.prods[0][2] == END_TOKEN
    && (forall i :: 1 <= i < |g.prods| ==> g.prods[i][0] != NTBASE)
  }

  function Lhs(g: Grammar, i: int): int
    requires WellFormed(g) && 0 <= i < |g.prods|
  {
    g.prods[i][0]
  }

  function Rhs(g: Grammar, i: int): seq<int>
    requires WellFormed(g) && 0 <= i < |g.prods|
  {
    g.prods[i][1..|g.prods[i]| - 1]
  }

  function StartSymbol(g: Grammar): int
    requires WellFormed(g)
  {
    g.prods[0][1]
  }

  // ---------------------------------------------------------------- parse trees

  datatype Tree = Leaf(token: int) | Node(prod: int, kids: seq<Tree>)

  ghost function Root(g: Grammar, t: Tree): int
    requires WellFormed(g)
  {
    match t
    case Leaf(a) => a
    case Node(p, _) => if 0 <= p < |g.prods| then Lhs(g, p) else 0
  }

  ghost predicate ValidTree(g: Grammar, t: Tree)
    requires WellFormed(g)
    decreases t
  {
    match t
    case Leaf(a) => IsToken(g, a)
    case Node(p, kids) =>
      && 0 <= p < |g.prods|
      && |kids| == |Rhs(g, p)|
      && (forall k :: 0 <= k < |kids| ==> Root(g, kids[k]) == Rhs(g, p)[k])
      && (forall k :: 0 <= k < |kids| ==> ValidTree(g, kids[k]))
  }

  /** One valid tree per symbol. */
  ghost predicate ValidForest(g: Grammar, ts: seq<Tree>, syms: seq<int>)
    requires WellFormed(g)
  {
    && |ts| == |syms|
    && (forall k :: 0 <= k < |ts| ==> Root(g, ts[k]) == syms[k])
    && (forall k :: 0 <= k < |ts| ==> ValidTree(g, ts[k]))
  }

  ghost function Yield(t: Tree): seq<int>
    decreases t
  {
    match t
    case Leaf(a) => [a]
    case Node(_, kids) => YieldAll(kids)
  }

  ghost function YieldAll(ts: seq<Tree>): seq<int>
    decreases ts
  {
    if ts == [] then [] else Yield(ts[0]) + YieldAll(ts[1..])
  }

  ghost predicate DerivationOf(g: Grammar, t: Tree, s: int, tokens: seq<int>)
    requires WellFormed(g)
  {
    ValidTree(g, t) && Root(g, t) == s && Yield(t) == tokens
  }

  /** Symbol s derives exactly this token string. */
  ghost predicate Derives(g: Grammar, s: int, tokens: seq<int>)
    requires WellFormed(g)
  {
    exists t :: DerivationOf(g, t, s, tokens)
  }

  /** Symbol s derives some token string. */
  ghost predicate Productive(g: Grammar, s: int)
    requires WellFormed(g)
  {
    exists t :: ValidTree(g, t) && Root(g, t) == s
  }

  /** Symbol s derives some token string that begins with token a. */
  ghost predicate CanStartWith(g: Grammar, s: int, a: int)
    requires WellFormed(g)
  {
    exists t :: ValidTree(g, t) && Root(g, t) == s && Yield(t) != [] && Yield(t)[0] == a
  }

  lemma {:induction false} YieldConcat(xs: seq<Tree>, ys: seq<Tree>)
    ensures YieldAll(xs + ys) == YieldAll(xs) + YieldAll(ys)
    decreases |xs|
  {
    if xs == [] {
      assert xs + ys == ys;
    } else {
      YieldConcat(xs[1..], ys);
      assert (xs + ys)[1..] == xs[1..] + ys;
      assert (xs + ys)[0] == xs[0];
    }
  }

  lemma YieldOne(t: Tree)
    ensures YieldAll([t]) == Yield(t)
  {
    assert [t][1..] == [];
    assert YieldAll([t][1..]) == [];
  }

  /** A forest for the right-hand side makes a tree for the left-hand side. */
  lemma MakeNode(g: Grammar, i: int, ts: seq<Tree>)
    requires WellFormed(g) && 0 <= i < |g.prods| && ValidForest(g, ts, Rhs(g, i))
    ensures ValidTree(g, Node(i, ts)) && Root(g, Node(i, ts)) == Lhs(g, i) && Yield(Node(i, ts)) == YieldAll(ts)
  {
  }

  lemma ForestConcat(g: Grammar, xs: seq<Tree>, ss: seq<int>, ys: seq<Tree>, ts: seq<int>)
    requires WellFormed(g) && ValidForest(g, xs, ss) && ValidForest(g, ys, ts)
    ensures ValidForest(g, xs + ys, ss + ts)
  {
  }

  lemma RootIsSymbol(g: Grammar, t: Tree)
    requires WellFormed(g) && ValidTree(g, t)
    ensures IsSymbol(g, Root(g, t))
    ensures t.Leaf? <==> IsToken(g, Root(g, t))
  {
    if t.Node? {
      assert WfProd(g, t.prod, g.prods[t.prod]);
    }
  }
}
