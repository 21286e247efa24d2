/** A parser without conflicts accepts every sentence. */
module Completeness {
  import opened Iteration
  import opened Grammars
  import opened Items
  import opened Lookahead
  import opened Closure
  import opened Automaton
  import opened Carrying
  import opened StateGen
  import opened Lalr
  import opened Generation
  import opened Actions
  import opened Compress
  import opened Engine
  import opened ViablePrefix
  import opened RowMachine
  import opened Conflicts

  // ---------------------------------------------------------------- what the rows and columns have to say

  ghost predicate SaysShift(g: Grammar, ks: seq<seq<KItem>>, m: Plain, s: int, t: int)
    requires WellFormed(g) && KernelsOk(g, ks) && |m.rows| == |ks| && 0 <= s < |ks|
  {
    Wants(g, ks, s, t) ==> 0 <= t < |m.rows[s]| && IsGoto(g, ks, s, t, m.rows[s][t])
  }

  ghost predicate SaysReduce(cx: Context, ks: seq<seq<KItem>>, m: Plain, s: int, t: int, it: Item)
    requires ContextOk(cx) && KernelsOk(cx.g, ks) && |m.rows| == |ks| && 0 <= s < |ks|
  {
    ReducesOn(cx, ks, s, it, t) ==> 0 <= t < |m.rows[s]| && m.rows[s][t] == -it.p && 1 <= it.p < |cx.g.prods|
  }

  ghost predicate SaysGoto(g: Grammar, ks: seq<seq<KItem>>, m: Plain, s: int, n: int)
    requires WellFormed(g) && KernelsOk(g, ks) && 0 <= s < |ks|
  {
    Wants(g, ks, s, NTBASE + n) ==>
      0 <= n < |m.cols| && s < |m.cols[n]| && IsGoto(g, ks, s, NTBASE + n, m.cols[n][s])
  }

  /** The rows shift, reduce and accept, and the columns go, wherever the automaton does. */
  ghost predicate SaysAll(cx: Context, ks: seq<seq<KItem>>, m: Plain)
    requires ContextOk(cx) && KernelsOk(cx.g, ks)
  {
    var g := cx.g;
    && 2 <= |ks| < NSTATES && |m.rows| == |m.defaults| == |ks| && |m.lhs| == |m.len| == |g.prods|
    && (forall s :: 0 <= s < |ks| ==> m.defaults[s] >= 0 && |m.rows[s]| == g.ntokens + 1)
    && (forall s, t :: 0 <= s < |ks| && 1 < t <= g.ntokens ==> SaysShift(g, ks, m, s, t))
    && (forall s, t, it :: 0 <= s < |ks| && 1 <= t <= g.ntokens ==> SaysReduce(cx, ks, m, s, t, it))
    && (forall s, n :: 0 <= s < |ks| && 1 <= n <= g.nnonter ==> SaysGoto(g, ks, m, s, n))
    && (forall i :: 1 <= i < |g.prods| ==> m.lhs[i] == Lhs(g, i) - NTBASE && m.len[i] == |g.prods[i]| - 2)
    && m.rows[1][END_TOKEN] == ACCEPTCODE
  }

  /** The automaton is finished: every state has its gotos and has sent on what it carries. */
  ghost predicate Settled(cx: Context, st: States)
    requires ContextOk(cx)
  {
    && StatesOk(cx.g, st)
    && (forall s :: 0 <= s < |st.kernels| ==> CarriesOn(cx, st.kernels, s))
  }

  // ---------------------------------------------------------------- turns of the machine

  /** The token at position i, `$end` past the input. */
  function Upcoming(input: seq<int>, i: nat): int {
    if i < |input| then input[i] else END_TOKEN
  }

  /** The machine has this stack and i tokens shifted, whether or not it has read the next one. */
  predicate Ready(input: seq<int>, c: Config, stack: seq<int>, i: nat) {
    c.stack == stack && ((c.token == -1 && c.pos == i) || (c.token == Upcoming(input, i) && c.pos == i + 1))
  }

  ghost predicate Gets(m: Plain, input: seq<int>, c: Config, n: nat, stack: seq<int>, i: nat) {
    var o := Iterate(PlainTurns(m, input), Running(c), n);
    o.Running? && Ready(input, o.c, stack, i)
  }

  ghost predicate CanGet(m: Plain, input: seq<int>, c: Config, stack: seq<int>, i: nat) {
    exists n: nat :: Gets(m, input, c, n, stack, i)
  }

  /** From one stack and position the machine gets to another. */
  ghost predicate Moves(m: Plain, input: seq<int>, stack: seq<int>, i: nat, stack': seq<int>, i': nat) {
    forall c :: Ready(input, c, stack, i) ==> CanGet(m, input, c, stack', i')
  }

  lemma Stays(m: Plain, input: seq<int>, stack: seq<int>, i: nat)
    ensures Moves(m, input, stack, i, stack, i)
  {
    forall c | Ready(input, c, stack, i) ensures CanGet(m, input, c, stack, i) {
      assert Gets(m, input, c, 0, stack, i);
    }
  }

  lemma MovesOn(m: Plain, input: seq<int>, s0: seq<int>, i0: nat, s1: seq<int>, i1: nat, s2: seq<int>, i2: nat)
    requires Moves(m, input, s0, i0, s1, i1) && Moves(m, input, s1, i1, s2, i2)
    ensures Moves(m, input, s0, i0, s2, i2)
  {
    var turns := PlainTurns(m, input);
    forall c | Ready(input, c, s0, i0) ensures CanGet(m, input, c, s2, i2) {
      var a: nat :| Gets(m, input, c, a, s1, i1);
      var c1 := Iterate(turns, Running(c), a).c;
      var b: nat :| Gets(m, input, c1, b, s2, i2);
      Further(turns, Running(c), a, b);
      assert Gets(m, input, c, a + b, s2, i2);
    }
  }

  lemma OneTurn(m: Plain, input: seq<int>, c: Config, stack: seq<int>, i: nat)
    requires var o := PlainStep(m, input, c); o.Running? && Ready(input, o.c, stack, i)
    ensures CanGet(m, input, c, stack, i)
  {
    var turns := PlainTurns(m, input);
    assert Iterate(turns, Running(c), 0) == Running(c);
    assert Iterate(turns, Running(c), 1) == turns(Running(c));
    assert Gets(m, input, c, 1, stack, i);
  }

  lemma LexReady(input: seq<int>, c: Config, stack: seq<int>, i: nat)
    requires Ready(input, c, stack, i) && Upcoming(input, i) >= 0
    ensures Ready(input, Lex(input, c), stack, i) && Lex(input, c).token == Upcoming(input, i)
  {
  }

  /** A row decides on the next token, whether it is asked for one or not. */
  lemma Decides(m: Plain, input: seq<int>, c: Config, stack: seq<int>, i: nat, s: int) returns (c': Config)
    requires stack != [] && stack[|stack| - 1] == s && 0 <= s < |m.rows| == |m.defaults| && m.defaults[s] >= 0
    requires Ready(input, c, stack, i) && 0 <= Upcoming(input, i) < |m.rows[s]|
    ensures Ready(input, c', stack, i)
    ensures PlainStep(m, input, c) == PlainConclude(m, c', RowDecision(m.rows[s], m.defaults[s], Upcoming(input, i)))
    ensures IsShift(m.rows[s][Upcoming(input, i)]) ==> c'.pos == i + 1
  {
    var row, lastred := m.rows[s], m.defaults[s];
    LexReady(input, c, stack, i);
    if HasShift(row) || HasException(row, lastred) {
      c' := Lex(input, c);
    } else {
      c' := c;
      UnaskedRow(row, lastred, Upcoming(input, i));
    }
  }

  lemma ShiftMoves(m: Plain, input: seq<int>, stack: seq<int>, i: nat, s: int, q: int)
    requires stack != [] && stack[|stack| - 1] == s && 0 <= s < |m.rows| == |m.defaults| && m.defaults[s] >= 0
    requires 0 <= Upcoming(input, i) < |m.rows[s]| && m.rows[s][Upcoming(input, i)] == q && IsShift(q)
    ensures Moves(m, input, stack, i, stack + [q], i + 1)
  {
    forall c | Ready(input, c, stack, i) ensures CanGet(m, input, c, stack + [q], i + 1) {
      var c' := Decides(m, input, c, stack, i, s);
      OneTurn(m, input, c, stack + [q], i + 1);
    }
  }

  lemma ReduceMoves(m: Plain, input: seq<int>, stack: seq<int>, i: nat, s: int, n: int, base: nat, q: int)
    requires stack != [] && stack[|stack| - 1] == s && 0 <= s < |m.rows| == |m.defaults| && m.defaults[s] >= 0
    requires 0 <= Upcoming(input, i) < |m.rows[s]| && m.rows[s][Upcoming(input, i)] == -n && 1 <= n < |m.len| == |m.lhs|
    requires base < |stack| && m.len[n] == |stack| - 1 - base
    requires 0 <= m.lhs[n] < |m.cols| && 0 <= stack[base] < |m.cols[m.lhs[n]]|
    requires m.cols[m.lhs[n]][stack[base]] == q != 0
    ensures Moves(m, input, stack, i, stack[..base + 1] + [q], i)
  {
    var stack' := stack[..base + 1] + [q];
    forall c | Ready(input, c, stack, i) ensures CanGet(m, input, c, stack', i) {
      var c' := Decides(m, input, c, stack, i, s);
      assert c'.stack[..|c'.stack| - m.len[n]] == stack[..base + 1];
      OneTurn(m, input, c, stack', i);
    }
  }

  // ---------------------------------------------------------------- what comes next

  /** The input from i to j is w. */
  predicate Spans(input: seq<int>, i: nat, j: nat, w: seq<int>) {
    i <= j <= |input| && input[i..j] == w
  }

  /** At position i comes what the trees begin with, or z if they are empty. */
  ghost predicate Follows(input: seq<int>, i: nat, rest: seq<Tree>, z: int) {
    Upcoming(input, i) == if YieldAll(rest) != [] then YieldAll(rest)[0] else z
  }

  lemma SpansSplit(input: seq<int>, i: nat, j: nat, a: seq<int>, b: seq<int>) returns (k: nat)
    requires Spans(input, i, j, a + b)
    ensures Spans(input, i, k, a) && Spans(input, k, j, b)
    ensures Upcoming(input, k) == if b != [] then b[0] else Upcoming(input, j)
  {
    k := i + |a|;
    var w := input[i..j];
    assert input[i..k] == w[..|a|] == a;
    assert input[k..j] == w[|a|..] == b;
    if b != [] { assert w[|a|] == b[0]; }
  }

  /** The first of some trees ends somewhere, and the others follow. */
  lemma FirstSpans(input: seq<int>, i: nat, j: nat, ts: seq<Tree>) returns (k: nat)
    requires ts != [] && Spans(input, i, j, YieldAll(ts))
    ensures Spans(input, i, k, Yield(ts[0])) && Spans(input, k, j, YieldAll(ts[1..]))
    ensures Follows(input, k, ts[1..], Upcoming(input, j))
  {
    k := SpansSplit(input, i, j, Yield(ts[0]), YieldAll(ts[1..]));
  }

  /** What follows the next symbol of an item is handed to that symbol's productions. */
  lemma NextHanded(cx: Context, it: Item, l: set<int>, rest: seq<Tree>, z: int)
    requires ContextExact(cx) && BeforeNonterminal(cx.g, it) && it.off + 1 < Len(cx.g, it.p) && IsLook(cx.g, l)
    requires ValidForest(cx.g, rest, Tail(cx.g, it.p, it.off + 1))
    requires if YieldAll(rest) != [] then z == YieldAll(rest)[0] else z in l
    ensures z in Handed(cx, it, l)
  {
    RoomAfter(cx.g, it);
    LookAfterExact(cx, it.p, it.off + 1, l, z);
  }

  // ---------------------------------------------------------------- parsing a tree

  /** What parsing works with. */
  ghost predicate Works(cx: Context, st: States, m: Plain, input: seq<int>) {
    && ContextExact(cx) && Settled(cx, st) && SaysAll(cx, st.kernels, m)
    && InputOk(cx.g, input) && END_TOKEN !in input
  }

  /** State s is on top. */
  ghost predicate OnTop(st: States, stack: seq<int>, s: int) {
    stack != [] && stack[|stack| - 1] == s && 0 <= s < |st.kernels|
  }

  /** State s has the item, which carries token z. */
  ghost predicate Carries(cx: Context, st: States, s: int, it: Item, z: int)
    requires ContextOk(cx) && StatesOk(cx.g, st)
  {
    && 0 <= s < |st.kernels| && it in CloOf(cx.g, st.kernels[s]) && ValidItem(cx.g, it)
    && z in Carry(cx, st.kernels[s], it)
  }

  /** State s waits for the root of the tree, and what comes behind the tree may come behind its production. */
  ghost predicate Awaits(cx: Context, st: States, s: int, t: Tree, z: int)
    requires ContextOk(cx) && StatesOk(cx.g, st)
  {
    && 0 <= s < |st.kernels| && ValidTree(cx.g, t) && Wants(cx.g, st.kernels, s, Root(cx.g, t))
    && (t.Node? ==> Carries(cx, st, s, Item(t.prod, 0), z))
  }

  lemma UpcomingIsToken(cx: Context, input: seq<int>, i: nat)
    requires ContextOk(cx) && InputOk(cx.g, input)
    ensures 1 <= Upcoming(input, i) <= cx.g.ntokens
  {
  }

  lemma GotoIsShift(g: Grammar, ks: seq<seq<KItem>>, s: int, x: int, q: int)
    requires WellFormed(g) && KernelsOk(g, ks) && 0 <= s < |ks| < NSTATES && IsGoto(g, ks, s, x, q)
    ensures IsShift(q) && 1 <= q < |ks|
  {
  }

  /** A token is shifted. */
  lemma ParseLeaf(cx: Context, st: States, m: Plain, input: seq<int>, stack: seq<int>, i: nat, j: nat, s: int, a: int)
    returns (q: int)
    requires Works(cx, st, m, input) && OnTop(st, stack, s) && Spans(input, i, j, [a]) && Wants(cx.g, st.kernels, s, a)
    ensures IsGoto(cx.g, st.kernels, s, a, q) && Moves(m, input, stack, i, stack + [q], j)
  {
    assert j == i + 1 && input[i] == input[i..j][0] == a;
    assert IsToken(cx.g, a) && a in input;
    assert SaysShift(cx.g, st.kernels, m, s, a);
    q := m.rows[s][a];
    GotoIsShift(cx.g, st.kernels, s, a, q);
    ShiftMoves(m, input, stack, i, s, q);
  }

  /** The state below a finished right-hand side goes on its left-hand side. */
  lemma ReduceTo(cx: Context, st: States, m: Plain, input: seq<int>, stack: seq<int>, more: seq<int>, i: nat, s: int,
                 top: int, n: int)
    returns (q: int)
    requires Works(cx, st, m, input) && OnTop(st, stack, s) && OnTop(st, stack + more, top)
    requires 0 <= n < |cx.g.prods| && |more| == Len(cx.g, n) - 1 && Wants(cx.g, st.kernels, s, Lhs(cx.g, n))
    requires ReducesOn(cx, st.kernels, top, Item(n, Len(cx.g, n) - 1), Upcoming(input, i))
    ensures IsGoto(cx.g, st.kernels, s, Lhs(cx.g, n), q) && Moves(m, input, stack + more, i, stack + [q], i)
  {
    UpcomingIsToken(cx, input, i);
    assert SaysReduce(cx, st.kernels, m, top, Upcoming(input, i), Item(n, Len(cx.g, n) - 1));
    assert WfProd(cx.g, n, cx.g.prods[n]);
    assert SaysGoto(cx.g, st.kernels, m, s, m.lhs[n]);
    q := m.cols[m.lhs[n]][s];
    BelowMore(stack, more);
    ReduceMoves(m, input, stack + more, i, top, n, |stack| - 1, q);
  }

  lemma BelowMore(stack: seq<int>, more: seq<int>)
    requires stack != []
    ensures (stack + more)[|stack| - 1] == stack[|stack| - 1] && (stack + more)[..|stack| - 1 + 1] == stack
  {
  }

  /** The end of a production's trees: reduce. */
  lemma EndTree(cx: Context, st: States, m: Plain, input: seq<int>, stack: seq<int>, more: seq<int>, i: nat, j: nat,
                s: int, top: int, n: int)
    returns (q: int)
    requires Works(cx, st, m, input) && OnTop(st, stack, s) && OnTop(st, stack + more, top)
    requires 0 <= n < |cx.g.prods| && |more| == Len(cx.g, n) - 1 && Wants(cx.g, st.kernels, s, Lhs(cx.g, n))
    requires Carries(cx, st, top, Item(n, Len(cx.g, n) - 1), Upcoming(input, j))
    requires Moves(m, input, stack, i, stack + more, j)
    ensures IsGoto(cx.g, st.kernels, s, Lhs(cx.g, n), q) && Moves(m, input, stack, i, stack + [q], j)
  {
    ItemBasics(cx.g, Item(n, Len(cx.g, n) - 1));
    q := ReduceTo(cx, st, m, input, stack, more, j, s, top, n);
    MovesOn(m, input, stack, i, stack + more, j, stack + [q], j);
  }

  /** The machine parses a tree that its state awaits. */
  lemma {:induction false} ParseTree(cx: Context, st: States, m: Plain, input: seq<int>, stack: seq<int>, i: nat,
                                     j: nat, s: int, t: Tree)
    returns (q: int)
    requires Works(cx, st, m, input) && OnTop(st, stack, s) && Spans(input, i, j, Yield(t))
    requires Awaits(cx, st, s, t, Upcoming(input, j))
    ensures IsGoto(cx.g, st.kernels, s, Root(cx.g, t), q) && Moves(m, input, stack, i, stack + [q], j)
    decreases t, 0
  {
    match t
    case Leaf(a) =>
      q := ParseLeaf(cx, st, m, input, stack, i, j, s, a);
    case Node(n, kids) =>
      KidsForest(cx.g, n, kids);
      var more, top := ParseKids(cx, st, m, input, stack, i, j, s, Item(n, 0), kids);
      q := EndTree(cx, st, m, input, stack, more, i, j, s, top, n);
  }

  lemma KidsForest(g: Grammar, n: int, kids: seq<Tree>)
    requires WellFormed(g) && ValidTree(g, Node(n, kids))
    ensures 0 <= n < |g.prods| && ValidItem(g, Item(n, 0)) && ValidForest(g, kids, Tail(g, n, 0))
    ensures |kids| == Len(g, n) - 1
  {
    assert WfProd(g, n, g.prods[n]);
    RhsSplits(g, n, 0);
    assert Rhs(g, n)[..0] + Tail(g, n, 0) == Tail(g, n, 0);
  }

  /** The machine parses the trees for the rest of an item, one by one. */
  lemma {:induction false} ParseKids(cx: Context, st: States, m: Plain, input: seq<int>, stack: seq<int>, i: nat,
                                     j: nat, s: int, it: Item, ts: seq<Tree>)
    returns (more: seq<int>, top: int)
    requires Works(cx, st, m, input) && OnTop(st, stack, s) && Spans(input, i, j, YieldAll(ts))
    requires Carries(cx, st, s, it, Upcoming(input, j)) && it.p >= 0 && ValidForest(cx.g, ts, Tail(cx.g, it.p, it.off))
    ensures |more| == |ts| && OnTop(st, stack + more, top) && Moves(m, input, stack, i, stack + more, j)
    ensures Carries(cx, st, top, Item(it.p, Len(cx.g, it.p) - 1), Upcoming(input, j))
    decreases ts, 1
  {
    if ts == [] {
      more, top := [], s;
      NoKids(cx, st, m, input, stack, i, j, s, it, ts);
    } else {
      var k := FirstSpans(input, i, j, ts);
      var q := ParseNext(cx, st, m, input, stack, i, k, s, it, ts, Upcoming(input, j));
      var more1;
      more1, top := ParseKids(cx, st, m, input, stack + [q], k, j, q, Item(it.p, it.off + 1), ts[1..]);
      more := [q] + more1;
      KidsJoin(st, m, input, stack, q, more1, more, top, i, k, j);
    }
  }

  lemma NoKids(cx: Context, st: States, m: Plain, input: seq<int>, stack: seq<int>, i: nat, j: nat, s: int, it: Item,
               ts: seq<Tree>)
    requires ContextOk(cx) && StatesOk(cx.g, st) && OnTop(st, stack, s) && Spans(input, i, j, YieldAll(ts))
    requires Carries(cx, st, s, it, Upcoming(input, j)) && it.p >= 0
    requires ts == [] && ValidForest(cx.g, ts, Tail(cx.g, it.p, it.off))
    ensures OnTop(st, stack + [], s) && Moves(m, input, stack, i, stack + [], j)
    ensures Carries(cx, st, s, Item(it.p, Len(cx.g, it.p) - 1), Upcoming(input, j))
  {
    TailSymbols(cx.g, it.p, it.off);
    assert stack + [] == stack && i == j;
    Stays(m, input, stack, i);
  }

  lemma KidsJoin(st: States, m: Plain, input: seq<int>, stack: seq<int>, q: int, more1: seq<int>, more: seq<int>,
                 top: int, i: nat, k: nat, j: nat)
    requires Moves(m, input, stack, i, stack + [q], k) && Moves(m, input, stack + [q], k, stack + [q] + more1, j)
    requires more == [q] + more1 && OnTop(st, stack + [q] + more1, top)
    ensures Moves(m, input, stack, i, stack + more, j) && OnTop(st, stack + more, top)
  {
    assert stack + [q] + more1 == stack + more;
    MovesOn(m, input, stack, i, stack + [q], k, stack + more, j);
  }

  /** The next tree of an item: parsed, with what comes after the item carried along. */
  lemma {:induction false} ParseNext(cx: Context, st: States, m: Plain, input: seq<int>, stack: seq<int>, i: nat,
                                     k: nat, s: int, it: Item, ts: seq<Tree>, z: int)
    returns (q: int)
    requires Works(cx, st, m, input) && OnTop(st, stack, s) && Carries(cx, st, s, it, z)
    requires it.p >= 0 && ts != [] && ValidForest(cx.g, ts, Tail(cx.g, it.p, it.off))
    requires Spans(input, i, k, Yield(ts[0])) && Follows(input, k, ts[1..], z)
    ensures OnTop(st, stack + [q], q) && Moves(m, input, stack, i, stack + [q], k)
    ensures Carries(cx, st, q, Item(it.p, it.off + 1), z)
    ensures ValidForest(cx.g, ts[1..], Tail(cx.g, it.p, it.off + 1))
    decreases ts, 0
  {
    NextSymbol(cx.g, it, ts);
    FirstIsReal(cx, input, i, k, ts[0]);
    NextAwaited(cx, st, s, it, ts[0], ts[1..], Upcoming(input, k), z);
    q := ParseTree(cx, st, m, input, stack, i, k, s, ts[0]);
    Advance(cx, st, s, it, q, z);
  }

  lemma NextSymbol(g: Grammar, it: Item, ts: seq<Tree>)
    requires WellFormed(g) && ValidItem(g, it) && ts != [] && ValidForest(g, ts, Tail(g, it.p, it.off))
    ensures it.off + 1 < Len(g, it.p) && First(g, it) == Root(g, ts[0]) && ValidTree(g, ts[0])
    ensures ValidForest(g, ts[1..], Tail(g, it.p, it.off + 1))
  {
    TailSymbols(g, it.p, it.off);
    UnconsForest(g, ts, At(g, it.p, it.off), Tail(g, it.p, it.off + 1));
  }

  /** No symbol that has to be moved over is `$end`. */
  lemma FirstIsReal(cx: Context, input: seq<int>, i: nat, j: nat, t: Tree)
    requires ContextOk(cx) && ValidTree(cx.g, t) && Spans(input, i, j, Yield(t)) && END_TOKEN !in input
    ensures Root(cx.g, t) > 1
  {
    RootIsSymbol(cx.g, t);
    if t.Leaf? {
      assert input[i] == input[i..j][0] == t.token;
      assert t.token in input;
    }
  }

  /** The state of an item awaits a tree for the symbol after its dot. */
  lemma NextAwaited(cx: Context, st: States, s: int, it: Item, t: Tree, rest: seq<Tree>, z1: int, z: int)
    requires ContextExact(cx) && StatesOk(cx.g, st) && Carries(cx, st, s, it, z)
    requires it.off + 1 < Len(cx.g, it.p) && ValidTree(cx.g, t) && First(cx.g, it) == Root(cx.g, t)
    requires ValidForest(cx.g, rest, Tail(cx.g, it.p, it.off + 1))
    requires z1 == if YieldAll(rest) != [] then YieldAll(rest)[0] else z
    ensures Awaits(cx, st, s, t, z1)
  {
    var k := st.kernels[s];
    RootIsSymbol(cx.g, t);
    if t.Node? {
      CloIsClosed(cx.g, KernelSet(k));
      CarryIsLook(cx, k, it);
      NextHanded(cx, it, Carry(cx, k, it), rest, z1);
      CarryHands(cx, k, it, t.prod);
    }
  }

  /** A goto takes what an item carries along. */
  lemma Advance(cx: Context, st: States, s: int, it: Item, q: int, z: int)
    requires ContextOk(cx) && Settled(cx, st) && Carries(cx, st, s, it, z)
    requires First(cx.g, it) > 1 && IsGoto(cx.g, st.kernels, s, First(cx.g, it), q)
    ensures Carries(cx, st, q, Item(it.p, it.off + 1), z)
  {
    CarriedArrives(cx, st, s, it, q);
    RoomAfter(cx.g, it);
  }

  // ---------------------------------------------------------------- acceptance

  lemma AcceptTurn(m: Plain, input: seq<int>, c: Config, stack: seq<int>, i: nat, s: int)
    requires stack != [] && stack[|stack| - 1] == s && 0 <= s < |m.rows| == |m.defaults| && m.defaults[s] >= 0
    requires Ready(input, c, stack, i) && Upcoming(input, i) == END_TOKEN < |m.rows[s]|
    requires m.rows[s][END_TOKEN] == ACCEPTCODE
    ensures PlainStep(m, input, c).Accepted?
  {
    var c' := Decides(m, input, c, stack, i, s);
  }

  /** Every string that the start symbol derives is accepted. */
  lemma PlainComplete(cx: Context, st: States, m: Plain, input: seq<int>)
    requires Works(cx, st, m, input) && IsGoto(cx.g, st.kernels, 0, StartSymbol(cx.g), 1)
    requires Derives(cx.g, StartSymbol(cx.g), input)
    ensures exists n: nat :: PlainRun(m, input, n).Accepted?
  {
    var t :| DerivationOf(cx.g, t, StartSymbol(cx.g), input);
    StartWanted(cx, st, t);
    assert Spans(input, 0, |input|, Yield(t));
    var q := ParseTree(cx, st, m, input, [0], 0, |input|, 0, t);
    GotoUnique(cx.g, st, 0, StartSymbol(cx.g), 1, q);
    Finished(m, input);
  }

  lemma Finished(m: Plain, input: seq<int>)
    requires 1 < |m.rows| == |m.defaults| && m.defaults[1] >= 0 && END_TOKEN < |m.rows[1]|
    requires m.rows[1][END_TOKEN] == ACCEPTCODE && Moves(m, input, [0], 0, [0] + [1], |input|)
    ensures exists n: nat :: PlainRun(m, input, n).Accepted?
  {
    var stack := [0] + [1];
    assert Ready(input, Start, [0], 0);
    assert CanGet(m, input, Start, stack, |input|);
    var n: nat :| Gets(m, input, Start, n, stack, |input|);
    var o := PlainRun(m, input, n);
    AcceptTurn(m, input, o.c, stack, |input|, 1);
    assert PlainRun(m, input, n + 1) == PlainTurns(m, input)(o);
  }

  /** State 0 awaits the start symbol, with `$end` behind it. */
  lemma StartWanted(cx: Context, st: States, t: Tree)
    requires ContextOk(cx) && StatesOk(cx.g, st) && ValidTree(cx.g, t) && Root(cx.g, t) == StartSymbol(cx.g)
    ensures Awaits(cx, st, 0, t, END_TOKEN)
  {
    var g, k, it := cx.g, st.kernels[0], Item(-1, 1);
    StartKernelSet(g, st.kernels);
    assert it in KernelSet(k) && ValidItem(g, it) && First(g, it) == StartSymbol(g);
    if t.Node? {
      RootIsSymbol(g, t);
      CloIsClosed(g, KernelSet(k));
      CarryHands(cx, k, it, t.prod);
    }
  }
}
