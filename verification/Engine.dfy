/** The emitted parser: a stack machine over the packed tables, and its soundness. */
module Engine {
  import opened Iteration
  import opened Grammars
  import opened Items
  import opened Closure
  import opened Automaton
  import opened Generation
  import opened Actions
  import opened Compress
  import opened TablePack

  /** Everything the generator writes out. */
  datatype Parser = Parser(tab: Tables, def: seq<int>, exca: seq<(int, int)>, r1: seq<int>, r2: seq<int>)

  predicate ParserOk(p: Parser) {
    && TablesOk(p.tab) && p.tab.chk[0] == YYFLAG
    && |p.def| == |p.tab.chk|
    && (forall s :: 0 <= s < |p.def| ==> p.def[s] == -2 || p.def[s] >= 0)
    && |p.r1| == |p.r2|
  }

  /** Stack of states, the token read ahead (-1 for none) and how many tokens have been read. */
  datatype Config = Config(stack: seq<int>, token: int, pos: nat)

  datatype Outcome = Running(c: Config) | Accepted(c: Config) | Rejected(c: Config) | Crashed

  predicate ConfigOk(p: Parser, c: Config) {
    && |c.stack| > 0
    && (forall k :: 0 <= k < |c.stack| ==> 0 <= c.stack[k] < |p.tab.chk|)
  }

  function Top(c: Config): int
    requires |c.stack| > 0
  {
    c.stack[|c.stack| - 1]
  }

  /** Read a token unless one is held; past the end of the input the lexer gives `$end`. */
  function Lex(input: seq<int>, c: Config): Config {
    if c.token >= 0 then c
    else c.(token := if c.pos < |input| then input[c.pos] else END_TOKEN, pos := c.pos + 1)
  }

  /** Pop the right-hand side of production n and push the goto on its left-hand side. */
  function ReduceBy(p: Parser, c: Config, n: int): Outcome
    requires ParserOk(p) && ConfigOk(p, c)
  {
    if !(0 <= n < |p.r2|) || !(0 <= p.r2[n] < |c.stack|) || !(1 <= p.r1[n] < |p.tab.pgo|) then Crashed
    else
      var rest := c.stack[..|c.stack| - p.r2[n]];
      Running(c.(stack := rest + [GotoLookup(p.tab, p.r1[n], rest[|rest| - 1])]))
  }

  function Conclude(p: Parser, c: Config, d: Decision): Outcome
    requires ParserOk(p) && ConfigOk(p, c)
  {
    match d
    case Accept => Accepted(c)
    case Error => Rejected(c)
    case Lost => Crashed
    case Reduce(n) => ReduceBy(p, c, n)
    case Shift(q) => Running(c.(stack := c.stack + [q], token := -1))
  }

  /** One turn of the machine: from a state on top of the stack to the next push, or to the end. */
  function Step(p: Parser, input: seq<int>, c: Config): Outcome
    requires ParserOk(p) && ConfigOk(p, c)
  {
    var s := Top(c);
    var c1 := if p.tab.pact[s] <= YYFLAG then c else Lex(input, c);
    var q := if p.tab.pact[s] <= YYFLAG then 0 else ShiftLookup(p.tab, s, c1.token);
    if q != 0 then Conclude(p, c1, Shift(q))
    else
      var c2 := if p.def[s] == -2 then Lex(input, c1) else c1;
      Conclude(p, c2, Fallback(p.def[s], p.exca, s, c2.token))
  }

  const Start := Config([0], -1, 0)

  /** A machine that has stopped stays stopped; a state number outside the tables stops it. */
  function Next(p: Parser, input: seq<int>, o: Outcome): Outcome
    requires ParserOk(p)
  {
    if !o.Running? then o else if ConfigOk(p, o.c) then Step(p, input, o.c) else Crashed
  }

  function Turns(p: Parser, input: seq<int>): Outcome -> Outcome
    requires ParserOk(p)
  {
    o => Next(p, input, o)
  }

  /** The machine after n turns. */
  function Run(p: Parser, input: seq<int>, n: nat): Outcome
    requires ParserOk(p)
  {
    Iterate(Turns(p, input), Running(Start), n)
  }

  // ---------------------------------------------------------------- what the tables must say

  ghost predicate ShiftSound(g: Grammar, ks: seq<seq<KItem>>, p: Parser, s: int, t: int)
    requires WellFormed(g) && KernelsOk(g, ks) && ParserOk(p) && |ks| == |p.tab.chk| && 0 <= s < |ks|
  {
    var q := ShiftLookup(p.tab, s, t);
    q != 0 ==> t > 1 && IsGoto(g, ks, s, t, q)
  }

  ghost predicate FallbackSound(g: Grammar, ks: seq<seq<KItem>>, p: Parser, s: int, t: int)
    requires WellFormed(g) && KernelsOk(g, ks) && ParserOk(p) && |ks| == |p.tab.chk| && 0 <= s < |ks|
  {
    ShiftLookup(p.tab, s, t) == 0 ==>
      match Fallback(p.def[s], p.exca, s, t)
      case Reduce(n) => CanReduce(g, ks, s, n)
      case Accept => s == 1 && t == END_TOKEN
      case Error => true
      case Lost => false
      case Shift(_) => false
  }

  ghost predicate GotoSound(g: Grammar, ks: seq<seq<KItem>>, p: Parser, s: int, n: int)
    requires WellFormed(g) && KernelsOk(g, ks) && ParserOk(p) && |ks| == |p.tab.chk| && 0 <= s < |ks|
  {
    1 <= n < |p.tab.pgo| && (Wants(g, ks, s, NTBASE + n) ==> IsGoto(g, ks, s, NTBASE + n, GotoLookup(p.tab, n, s)))
  }

  /** What the tables say is right by the automaton: shifts and gotos are gotos, what is reduced can be, and no
      search runs off a table. */
  ghost predicate Faithful(g: Grammar, ks: seq<seq<KItem>>, p: Parser)
    requires WellFormed(g)
  {
    && KernelsOk(g, ks) && |ks| >= 2 && IsGoto(g, ks, 0, StartSymbol(g), 1)
    && ParserOk(p) && |ks| == |p.tab.chk|
    && |p.r1| == |g.prods|
    && (forall i :: 1 <= i < |g.prods| ==> p.r1[i] == Lhs(g, i) - NTBASE && p.r2[i] == |g.prods[i]| - 2)
    && (forall s, t :: 0 <= s < |ks| && 1 <= t <= g.ntokens ==> ShiftSound(g, ks, p, s, t))
    && (forall s, t :: 0 <= s < |ks| && 1 <= t <= g.ntokens ==> FallbackSound(g, ks, p, s, t))
    && (forall s, n :: 0 <= s < |ks| && 1 <= n <= g.nnonter ==> GotoSound(g, ks, p, s, n))
  }

  // ---------------------------------------------------------------- the invariant

  /** The trees on the stack lead from each state to the next. */
  ghost predicate Linked(g: Grammar, ks: seq<seq<KItem>>, stack: seq<int>, trees: seq<Tree>)
    requires WellFormed(g) && KernelsOk(g, ks)
  {
    && |stack| == |trees| + 1
    && stack[0] == 0
    && (forall k :: 0 <= k < |stack| ==> 0 <= stack[k] < |ks|)
    && (forall k :: 0 <= k < |trees| ==> ValidTree(g, trees[k]))
    && (forall k :: 0 <= k < |trees| ==> LinkAt(g, ks, stack, trees, k))
  }

  ghost predicate LinkAt(g: Grammar, ks: seq<seq<KItem>>, stack: seq<int>, trees: seq<Tree>, k: int)
    requires WellFormed(g) && KernelsOk(g, ks)
  {
    && 0 <= k < |trees| && k + 1 < |stack| && 0 <= stack[k] < |ks|
    && IsGoto(g, ks, stack[k], Root(g, trees[k]), stack[k + 1])
  }

  /** How many tokens have been shifted. */
  function Consumed(c: Config): int {
    if c.token >= 0 then c.pos - 1 else c.pos
  }

  /** The stack spells the shifted tokens; a token held is the next one of the input. */
  ghost predicate Spells(g: Grammar, ks: seq<seq<KItem>>, input: seq<int>, c: Config, trees: seq<Tree>)
    requires WellFormed(g) && KernelsOk(g, ks)
  {
    && Linked(g, ks, c.stack, trees)
    && 0 <= Consumed(c) <= |input| && YieldAll(trees) == input[..Consumed(c)]
    && (c.token >= 0 ==> c.token == if Consumed(c) < |input| then input[Consumed(c)] else END_TOKEN)
  }

  predicate InputOk(g: Grammar, input: seq<int>) {
    forall k :: 0 <= k < |input| ==> IsToken(g, input[k])
  }

  lemma StartKernelSet(g: Grammar, ks: seq<seq<KItem>>)
    requires WellFormed(g) && KernelsOk(g, ks)
    ensures KernelSet(ks[0]) == {Item(-1, 1)}
  {
    assert StateOk(g, ks, 0);
    assert ks[0][0].item == Item(-1, 1);
  }

  /** The symbols before an item's dot are the roots on top of the stack; below them its production is entered. */
  lemma {:induction false} BeforeDot(g: Grammar, ks: seq<seq<KItem>>, stack: seq<int>, trees: seq<Tree>, top: nat,
                                     it: Item)
    requires WellFormed(g) && KernelsOk(g, ks) && Linked(g, ks, stack, trees) && top < |stack|
    requires it in CloOf(g, ks[stack[top]]) && ValidItem(g, it) && it.p >= 0
    ensures it.off <= top
    ensures forall m :: 0 <= m < it.off ==> Root(g, trees[top - it.off + m]) == At(g, it.p, m)
    ensures Item(it.p, 0) in CloOf(g, ks[stack[top - it.off]])
    decreases it.off
  {
    if it.off > 0 {
      var s := stack[top];
      assert it in KernelSet(ks[s]);
      StartKernelSet(g, ks);
      assert LinkAt(g, ks, stack, trees, top - 1);
      var below := Item(it.p, it.off - 1);
      assert below in CloOf(g, ks[stack[top - 1]]) && First(g, below) == Root(g, trees[top - 1]);
      BeforeDot(g, ks, stack, trees, top - 1, below);
      forall m | 0 <= m < it.off ensures Root(g, trees[top - it.off + m]) == At(g, it.p, m) {
        assert top - it.off + m == top - 1 - below.off + m;
      }
    }
  }

  /** Above a stack spelled up to state s, the items of s with the dot in front were called for. */
  lemma FrontIsWanted(g: Grammar, ks: seq<seq<KItem>>, s: int, q: int)
    requires WellFormed(g) && KernelsOk(g, ks) && 0 <= s < |ks| && 0 <= q < |g.prods| && Item(q, 0) in CloOf(g, ks[s])
    ensures Wants(g, ks, s, Lhs(g, q))
  {
    forall i | 0 <= i < |ks[s]| ensures ks[s][i].item != Item(q, 0) {
      assert KernelItem(ks[s][i].item);
    }
    var it := CalledFor(g, KernelSet(ks[s]), q);
  }

  /** The accepting state stands only on state 0: the stack is the start symbol alone. */
  lemma AcceptStack(g: Grammar, ks: seq<seq<KItem>>, stack: seq<int>, trees: seq<Tree>)
    requires WellFormed(g) && KernelsOk(g, ks) && |ks| >= 2 && IsGoto(g, ks, 0, StartSymbol(g), 1)
    requires Linked(g, ks, stack, trees) && stack[|stack| - 1] == 1
    ensures |trees| == 1 && Root(g, trees[0]) == StartSymbol(g)
  {
    var start := Item(-1, 1);
    assert StateOk(g, ks, 0);
    assert WfProd(g, 0, g.prods[0]);
    assert ks[0][0].item == start && start in KernelSet(ks[0]) && First(g, start) == StartSymbol(g);
    assert Item(-1, 2) in KernelSet(ks[1]);
    var k := |trees| - 1;
    assert LinkAt(g, ks, stack, trees, k);
    assert k > 0 ==> LinkAt(g, ks, stack, trees, k - 1);
    var s := stack[k];
    assert start in CloOf(g, ks[s]) && First(g, start) == Root(g, trees[k]);
    if s > 0 { StartItemElsewhere(g, ks, s); }
  }

  lemma StartItemElsewhere(g: Grammar, ks: seq<seq<KItem>>, s: int)
    requires WellFormed(g) && KernelsOk(g, ks) && 0 < s < |ks|
    ensures Item(-1, 1) !in CloOf(g, ks[s])
  {
    assert StateOk(g, ks, s);
    forall i | 0 <= i < |ks[s]| ensures ks[s][i].item != Item(-1, 1) {
      assert Moved(g, ks[s][i].item, Acc(g, ks[s]));
    }
  }

  // ---------------------------------------------------------------- every turn keeps the invariant

  lemma LexKeeps(g: Grammar, ks: seq<seq<KItem>>, input: seq<int>, c: Config, trees: seq<Tree>)
    requires WellFormed(g) && KernelsOk(g, ks) && InputOk(g, input) && Spells(g, ks, input, c, trees)
    ensures var c' := Lex(input, c); Spells(g, ks, input, c', trees) && c'.stack == c.stack && IsToken(g, c'.token)
  {
  }

  lemma LinkedPush(g: Grammar, ks: seq<seq<KItem>>, stack: seq<int>, trees: seq<Tree>, q: int, t: Tree)
    requires WellFormed(g) && KernelsOk(g, ks) && Linked(g, ks, stack, trees) && ValidTree(g, t)
    requires IsGoto(g, ks, stack[|stack| - 1], Root(g, t), q)
    ensures Linked(g, ks, stack + [q], trees + [t])
  {
    var stack', trees' := stack + [q], trees + [t];
    forall k | 0 <= k < |trees'| ensures LinkAt(g, ks, stack', trees', k) {
      if k < |trees| { assert LinkAt(g, ks, stack, trees, k); }
    }
  }

  lemma LinkedPop(g: Grammar, ks: seq<seq<KItem>>, stack: seq<int>, trees: seq<Tree>, n: nat)
    requires WellFormed(g) && KernelsOk(g, ks) && Linked(g, ks, stack, trees) && n <= |trees|
    ensures Linked(g, ks, stack[..n + 1], trees[..n])
  {
    var stack', trees' := stack[..n + 1], trees[..n];
    forall k | 0 <= k < |trees'| ensures LinkAt(g, ks, stack', trees', k) {
      assert LinkAt(g, ks, stack, trees, k);
    }
  }

  lemma ShiftKeeps(g: Grammar, ks: seq<seq<KItem>>, input: seq<int>, c: Config, trees: seq<Tree>, q: int)
    requires WellFormed(g) && KernelsOk(g, ks) && InputOk(g, input) && Spells(g, ks, input, c, trees)
    requires c.token > 1 && IsGoto(g, ks, Top(c), c.token, q)
    ensures Spells(g, ks, input, c.(stack := c.stack + [q], token := -1), trees + [Leaf(c.token)])
  {
    var n := Consumed(c);
    assert c.token == input[n];
    LinkedPush(g, ks, c.stack, trees, q, Leaf(c.token));
    YieldConcat(trees, [Leaf(c.token)]);
    YieldOne(Leaf(c.token));
    assert input[..n + 1] == input[..n] + [input[n]];
  }

  /** The top trees are a forest for the right-hand side of a production that can be reduced, and the state
      below them wants its left-hand side. */
  lemma Handle(g: Grammar, ks: seq<seq<KItem>>, stack: seq<int>, trees: seq<Tree>, n: int)
    requires WellFormed(g) && KernelsOk(g, ks) && Linked(g, ks, stack, trees) && CanReduce(g, ks, stack[|trees|], n)
    ensures var d := Len(g, n) - 1;
            && d <= |trees| && ValidForest(g, trees[|trees| - d..], Rhs(g, n))
            && Wants(g, ks, stack[|trees| - d], Lhs(g, n))
  {
    var top, d := |trees|, Len(g, n) - 1;
    assert WfProd(g, n, g.prods[n]);
    BeforeDot(g, ks, stack, trees, top, Item(n, d));
    var forest := trees[top - d..];
    forall m | 0 <= m < d ensures Root(g, forest[m]) == Rhs(g, n)[m] && ValidTree(g, forest[m]) {
      assert forest[m] == trees[top - d + m];
      assert Rhs(g, n)[m] == g.prods[n][m + 1] == At(g, n, m);
    }
    FrontIsWanted(g, ks, stack[top - d], n);
  }

  lemma YieldReplace(trees: seq<Tree>, base: nat, node: Tree)
    requires base <= |trees| && Yield(node) == YieldAll(trees[base..])
    ensures YieldAll(trees[..base] + [node]) == YieldAll(trees)
  {
    assert trees == trees[..base] + trees[base..];
    YieldConcat(trees[..base], trees[base..]);
    YieldConcat(trees[..base], [node]);
    YieldOne(node);
  }

  lemma RuleTables(g: Grammar, ks: seq<seq<KItem>>, p: Parser, n: int, s: int)
    requires WellFormed(g) && Faithful(g, ks, p) && 1 <= n < |g.prods| && 0 <= s < |ks| && Wants(g, ks, s, Lhs(g, n))
    ensures n < |p.r2| && p.r2[n] == Len(g, n) - 1 && 1 <= p.r1[n] < |p.tab.pgo|
    ensures IsGoto(g, ks, s, Lhs(g, n), GotoLookup(p.tab, p.r1[n], s))
  {
    assert WfProd(g, n, g.prods[n]);
    assert p.r1[n] == Lhs(g, n) - NTBASE;
    assert GotoSound(g, ks, p, s, p.r1[n]);
  }

  /** The stack after a reduction, for any production and any goto. */
  lemma LinkedReduce(g: Grammar, ks: seq<seq<KItem>>, stack: seq<int>, trees: seq<Tree>, n: int, base: nat, q: int)
    requires WellFormed(g) && KernelsOk(g, ks) && Linked(g, ks, stack, trees) && 1 <= n < |g.prods| && base <= |trees|
    requires ValidForest(g, trees[base..], Rhs(g, n)) && IsGoto(g, ks, stack[base], Lhs(g, n), q)
    ensures Linked(g, ks, stack[..base + 1] + [q], trees[..base] + [Node(n, trees[base..])])
    ensures YieldAll(trees[..base] + [Node(n, trees[base..])]) == YieldAll(trees)
  {
    var node := Node(n, trees[base..]);
    MakeNode(g, n, trees[base..]);
    LinkedPop(g, ks, stack, trees, base);
    LinkedPush(g, ks, stack[..base + 1], trees[..base], q, node);
    YieldReplace(trees, base, node);
  }

  /** Reducing replaces the trees of the right-hand side by one tree for the left-hand side. */
  lemma ReduceKeeps(g: Grammar, ks: seq<seq<KItem>>, p: Parser, input: seq<int>, c: Config, trees: seq<Tree>, n: int)
    returns (trees': seq<Tree>)
    requires WellFormed(g) && Faithful(g, ks, p) && Spells(g, ks, input, c, trees) && ConfigOk(p, c)
    requires CanReduce(g, ks, Top(c), n)
    ensures var o := ReduceBy(p, c, n); o.Running? && Spells(g, ks, input, o.c, trees')
  {
    var d := Len(g, n) - 1;
    Handle(g, ks, c.stack, trees, n);
    var base := |trees| - d;
    RuleTables(g, ks, p, n, c.stack[base]);
    assert |c.stack| - p.r2[n] == base + 1;
    LinkedReduce(g, ks, c.stack, trees, n, base, GotoLookup(p.tab, p.r1[n], c.stack[base]));
    trees' := trees[..base] + [Node(n, trees[base..])];
  }

  lemma SpellsOk(g: Grammar, ks: seq<seq<KItem>>, p: Parser, input: seq<int>, c: Config, trees: seq<Tree>)
    requires WellFormed(g) && Faithful(g, ks, p) && Spells(g, ks, input, c, trees)
    ensures ConfigOk(p, c)
  {
  }

  /** What a turn may end in. */
  ghost predicate Sound(g: Grammar, ks: seq<seq<KItem>>, input: seq<int>, o: Outcome)
    requires WellFormed(g) && KernelsOk(g, ks)
  {
    match o
    case Running(c) => exists trees :: Spells(g, ks, input, c, trees)
    case Accepted(c) => AcceptedOk(g, input, c)
    case Rejected(c) => exists trees :: Spells(g, ks, input, c, trees)
    case Crashed => false
  }

  /** The start symbol derives the tokens shifted, which are the input up to its end or its first `$end`. */
  ghost predicate AcceptedOk(g: Grammar, input: seq<int>, c: Config)
    requires WellFormed(g)
  {
    var n := Consumed(c);
    0 <= n <= |input| && Derives(g, StartSymbol(g), input[..n]) && (n < |input| ==> input[n] == END_TOKEN)
  }

  lemma ConcludeSound(g: Grammar, ks: seq<seq<KItem>>, p: Parser, input: seq<int>, c: Config, trees: seq<Tree>,
                      d: Decision)
    requires WellFormed(g) && Faithful(g, ks, p) && InputOk(g, input) && Spells(g, ks, input, c, trees)
    requires ConfigOk(p, c)
    requires d != Lost && (d.Reduce? ==> CanReduce(g, ks, Top(c), d.prod))
    requires d.Accept? ==> Top(c) == 1 && c.token == END_TOKEN
    requires d.Shift? ==> c.token > 1 && IsGoto(g, ks, Top(c), c.token, d.state)
    ensures Sound(g, ks, input, Conclude(p, c, d))
  {
    match d
    case Error =>
    case Reduce(n) =>
      var trees' := ReduceKeeps(g, ks, p, input, c, trees, n);
    case Shift(q) =>
      ShiftKeeps(g, ks, input, c, trees, q);
    case Accept =>
      AcceptStack(g, ks, c.stack, trees);
      YieldOne(trees[0]);
      assert trees == [trees[0]];
      assert DerivationOf(g, trees[0], StartSymbol(g), input[..Consumed(c)]);
  }

  /** The decision of a state on a token the shift table does not hold. */
  lemma FallbackOf(g: Grammar, ks: seq<seq<KItem>>, p: Parser, s: int, c: Config)
    requires WellFormed(g) && Faithful(g, ks, p) && 0 <= s < |ks|
    requires p.tab.pact[s] > YYFLAG ==> ShiftLookup(p.tab, s, c.token) == 0
    requires p.tab.pact[s] > YYFLAG || p.def[s] == -2 ==> IsToken(g, c.token)
    ensures var d := Fallback(p.def[s], p.exca, s, c.token);
            && d != Lost && !d.Shift? && (d.Reduce? ==> CanReduce(g, ks, s, d.prod))
            && (d.Accept? ==> s == 1 && c.token == END_TOKEN)
  {
    var t := if IsToken(g, c.token) then c.token else END_TOKEN;
    assert FallbackSound(g, ks, p, s, t);
    assert FallbackSound(g, ks, p, s, END_TOKEN) && ShiftSound(g, ks, p, s, END_TOKEN);
  }

  lemma StepSound(g: Grammar, ks: seq<seq<KItem>>, p: Parser, input: seq<int>, c: Config)
    requires WellFormed(g) && Faithful(g, ks, p) && InputOk(g, input) && Sound(g, ks, input, Running(c))
    ensures ConfigOk(p, c) && Sound(g, ks, input, Step(p, input, c))
  {
    var trees :| Spells(g, ks, input, c, trees);
    SpellsOk(g, ks, p, input, c, trees);
    var s := Top(c);
    LexKeeps(g, ks, input, c, trees);
    var c1 := if p.tab.pact[s] <= YYFLAG then c else Lex(input, c);
    var q := if p.tab.pact[s] <= YYFLAG then 0 else ShiftLookup(p.tab, s, c1.token);
    if q != 0 {
      assert ShiftSound(g, ks, p, s, c1.token);
      ConcludeSound(g, ks, p, input, c1, trees, Shift(q));
    } else {
      LexKeeps(g, ks, input, c1, trees);
      var c2 := if p.def[s] == -2 then Lex(input, c1) else c1;
      FallbackOf(g, ks, p, s, c2);
      ConcludeSound(g, ks, p, input, c2, trees, Fallback(p.def[s], p.exca, s, c2.token));
    }
  }

  lemma StartSound(g: Grammar, ks: seq<seq<KItem>>, input: seq<int>)
    requires WellFormed(g) && KernelsOk(g, ks)
    ensures Sound(g, ks, input, Running(Start))
  {
    assert YieldAll([]) == input[..0];
    assert Spells(g, ks, input, Start, []);
  }

  lemma NextSound(g: Grammar, ks: seq<seq<KItem>>, p: Parser, input: seq<int>, o: Outcome)
    requires WellFormed(g) && Faithful(g, ks, p) && InputOk(g, input) && Sound(g, ks, input, o)
    ensures Sound(g, ks, input, Next(p, input, o))
  {
    if o.Running? { StepSound(g, ks, p, input, o.c); }
  }

  /** LR soundness: whatever the number of turns, the machine does not crash, and if it accepts, the start symbol
      derives the tokens it shifted. */
  lemma RunSound(g: Grammar, ks: seq<seq<KItem>>, p: Parser, input: seq<int>, n: nat)
    requires WellFormed(g) && Faithful(g, ks, p) && InputOk(g, input)
    ensures Sound(g, ks, input, Run(p, input, n))
  {
    StartSound(g, ks, input);
    forall o | Sound(g, ks, input, o) ensures Sound(g, ks, input, Turns(p, input)(o)) { NextSound(g, ks, p, input, o); }
    Kept(Turns(p, input), o => Sound(g, ks, input, o), Running(Start), n);
  }

  // ---------------------------------------------------------------- the machine as it runs

  /** `$$ParserImpl`: the stack, the lookahead and the input position, changed in place turn by turn. */
  class ParserImpl {
    const p: Parser
    const input: seq<int>
    var stack: seq<int>
    var token: int
    var pos: nat

    ghost function Cfg(): Config
      reads this
    {
      Config(stack, token, pos)
    }

    ghost predicate Valid()
      reads this
    {
      ParserOk(p) && ConfigOk(p, Cfg()) && forall k :: 0 <= k < |input| ==> input[k] >= 0
    }

    constructor (p: Parser, input: seq<int>)
      requires ParserOk(p) && forall k :: 0 <= k < |input| ==> input[k] >= 0
      ensures this.p == p && this.input == input && Valid() && Cfg() == Start
    {
      this.p, this.input := p, input;
      stack, token, pos := [0], -1, 0;
    }

    /** `$$lex1`, called only when no token is held. */
    method ReadAhead()
      modifies this
      ensures Cfg() == Lex(input, old(Cfg()))
    {
      if token < 0 {
        token := if pos < |input| then input[pos] else END_TOKEN;
        pos := pos + 1;
      }
    }

    /** The search of the exception table for this state and token; nothing is where the source's index runs off. */
    method Exception(s: int) returns (r: Reading)
      ensures r == ExcaLookup(p.exca, s, token)
    {
      var xi := 0;
      while xi < |p.exca| && p.exca[xi] != (-1, s)
        invariant 0 <= xi <= |p.exca| && FindHeader(p.exca, s, xi) == FindHeader(p.exca, s, 0)
      {
        xi := xi + 1;
      }
      if xi == |p.exca| {
        return Nothing;
      }
      xi := xi + 1;
      while xi < |p.exca| && !(p.exca[xi].0 < 0 || p.exca[xi].0 == token)
        invariant 0 < xi <= |p.exca| && ScanSection(p.exca, token, xi) == ExcaLookup(p.exca, s, token)
      {
        xi := xi + 1;
      }
      r := if xi < |p.exca| then Number(p.exca[xi].1) else Nothing;
    }

    /** Reduction by production n: pop, consult the goto table, push. */
    method Reduce(n: int) returns (ok: bool)
      requires Valid()
      modifies this`stack
      ensures ReduceBy(p, old(Cfg()), n) == if ok then Running(Cfg()) else Crashed
    {
      if !(0 <= n < |p.r2|) || !(0 <= p.r2[n] < |stack|) || !(1 <= p.r1[n] < |p.tab.pgo|) {
        return false;
      }
      stack := stack[..|stack| - p.r2[n]];
      var nt := p.r1[n];
      var g := p.tab.pgo[nt];
      var j := g + stack[|stack| - 1] + 1;
      var state;
      if j >= |p.tab.act| {
        state := p.tab.act[g];
      } else {
        state := p.tab.act[j];
        if p.tab.chk[state] != -nt {
          state := p.tab.act[g];
        }
      }
      stack := stack + [state];
      ok := true;
    }

    /** One turn: shift if the packed tables say so, else act on the default or the exception. */
    method Turn() returns (o: Outcome)
      requires Valid()
      modifies this
      ensures o == Step(p, input, old(Cfg()))
      ensures o.Running? ==> Cfg() == o.c
    {
      var state := stack[|stack| - 1];
      var n := p.tab.pact[state];
      if n > YYFLAG {
        ReadAhead();
        n := n + token;
        if 0 <= n < |p.tab.act| {
          n := p.tab.act[n];
          if p.tab.chk[n] == token {
            stack := stack + [n];
            token := -1;
            return Running(Config(stack, token, pos));
          }
        }
      }
      n := p.def[state];
      if n == -2 {
        ReadAhead();
        var r := Exception(state);
        if r.Nothing? {
          return Crashed;
        }
        n := r.n;
        if n < 0 {
          return Accepted(Config(stack, token, pos));
        }
      }
      if n == 0 {
        return Rejected(Config(stack, token, pos));
      }
      var ok := Reduce(n);
      o := if ok then Running(Config(stack, token, pos)) else Crashed;
    }

    /** At most `limit` turns of the parse. */
    method Parse(limit: nat) returns (o: Outcome)
      requires Valid() && Cfg() == Start
      modifies this
      ensures o == Run(p, input, limit)
    {
      o := Running(Config(stack, token, pos));
      var k := 0;
      while k < limit
        invariant 0 <= k <= limit && o == Run(p, input, k)
        invariant ParserOk(p) && (o.Running? ==> Cfg() == o.c) && forall k :: 0 <= k < |input| ==> input[k] >= 0
      {
        if !o.Running? {
          Stopped(Turns(p, input), Running(Start), k, limit);
          return;
        }
        if !ConfigOk(p, o.c) {
          Stopped(Turns(p, input), Running(Start), k + 1, limit);
          return Crashed;
        }
        o := Turn();
        k := k + 1;
      }
    }
  }
}
