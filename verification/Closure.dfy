/** `closure`: the worklist that closes a state's kernel. */
module Closure {
  import opened Grammars
  import opened GrammarSets
  import opened Items
  import opened ClosureOrder

  datatype KItem = KItem(item: Item, look: set<int>)
  datatype Wset = Wset(item: Item, flag: bool, ws: set<int>)

  ghost function KernelSet(kernel: seq<KItem>): set<Item> {
    set i | 0 <= i < |kernel| :: kernel[i].item
  }

  ghost function ItemSet(ws: seq<Wset>): set<Item> {
    set i | 0 <= i < |ws| :: ws[i].item
  }

  ghost function ItemList(ws: seq<Wset>): seq<Item> {
    seq(|ws|, i requires 0 <= i < |ws| => ws[i].item)
  }

  ghost function KernelList(kernel: seq<KItem>): seq<Item> {
    seq(|kernel|, i requires 0 <= i < |kernel| => kernel[i].item)
  }

  predicate KernelOk(g: Grammar, kernel: seq<KItem>)
    requires WellFormed(g)
  {
    forall i :: 0 <= i < |kernel| ==>
      ValidItem(g, kernel[i].item) && KernelItem(kernel[i].item) && IsLook(g, kernel[i].look)
  }

  // ---------------------------------------------------------------- the LR(1) closure, as a specification

  /** A family of lookahead sets closed under the LR(1) closure rule. */
  ghost predicate Lr1Closed(cx: Context, w: map<Item, set<int>>)
    requires ContextOk(cx)
  {
    && (forall it :: it in w ==> IsLook(cx.g, w[it]))
    && (forall it, q ::
          it in w && BeforeNonterminal(cx.g, it) && 0 <= q < |cx.g.prods| && First(cx.g, it) == Lhs(cx.g, q) ==>
          Item(q, 0) in w && Handed(cx, it, w[it]) <= w[Item(q, 0)])
  }

  ghost predicate AboveKernel(kernel: seq<KItem>, w: map<Item, set<int>>) {
    forall i :: 0 <= i < |kernel| ==> kernel[i].item in w && kernel[i].look <= w[kernel[i].item]
  }

  /** Every item of the worklist, with its lookahead, is in w. */
  ghost predicate Below(ws: seq<Wset>, w: map<Item, set<int>>) {
    forall i :: 0 <= i < |ws| ==> ws[i].item in w && ws[i].ws <= w[ws[i].item]
  }

  // ---------------------------------------------------------------- worklist invariant

  /** Production q is in the worklist with the dot in front and at least lookahead s. */
  ghost predicate Covers(ws: seq<Wset>, q: int, s: set<int>) {
    exists v :: 0 <= v < |ws| && ws[v].item == Item(q, 0) && s <= ws[v].ws
  }

  /** The worklist starts with the kernel, then holds entered productions, each once, dot in front. */
  ghost predicate Shape(cx: Context, kernel: seq<KItem>, ws: seq<Wset>)
    requires ContextOk(cx) && KernelOk(cx.g, kernel)
  {
    && |kernel| <= |ws|
    && (forall i :: 0 <= i < |ws| ==> ValidItem(cx.g, ws[i].item) && IsLook(cx.g, ws[i].ws))
    && (forall i :: 0 <= i < |kernel| ==> ws[i].item == kernel[i].item && ws[i].ws == kernel[i].look)
    && (forall i :: |kernel| <= i < |ws| ==> ws[i].item.off == 0 && Entered(cx.g, KernelSet(kernel), ws[i].item.p))
    && (forall i, j :: |kernel| <= i < j < |ws| ==> ws[i].item != ws[j].item)
  }

  ghost function Handing(cx: Context, w: Wset, nolook: bool): set<int>
    requires ContextOk(cx) && BeforeNonterminal(cx.g, w.item) && IsLook(cx.g, w.ws)
  {
    if nolook then {} else Handed(cx, w.item, w.ws)
  }

  /** Item w has passed its lookahead on to every production of the nonterminal after its dot. */
  ghost predicate Propagated(cx: Context, ws: seq<Wset>, w: Wset, nolook: bool)
    requires ContextOk(cx) && ValidItem(cx.g, w.item) && IsLook(cx.g, w.ws)
  {
    forall q :: 0 <= q < |cx.g.prods| && First(cx.g, w.item) == Lhs(cx.g, q) && BeforeNonterminal(cx.g, w.item) ==>
      Covers(ws, q, Handing(cx, w, nolook))
  }

  ghost predicate Inv(cx: Context, kernel: seq<KItem>, ws: seq<Wset>, nolook: bool)
    requires ContextOk(cx) && KernelOk(cx.g, kernel)
  {
    && Shape(cx, kernel, ws)
    && (forall i :: 0 <= i < |ws| && !ws[i].flag ==> Propagated(cx, ws, ws[i], nolook))
  }

  ghost predicate Least(cx: Context, kernel: seq<KItem>, ws: seq<Wset>)
    requires ContextOk(cx)
  {
    forall w :: Lr1Closed(cx, w) && AboveKernel(kernel, w) ==> Below(ws, w)
  }

  /** ws' extends ws: entries only grow, a grown or new entry is flagged. */
  ghost predicate Extends(ws: seq<Wset>, ws': seq<Wset>) {
    && |ws| <= |ws'|
    && (forall i :: 0 <= i < |ws| ==> ws'[i].item == ws[i].item && ws[i].ws <= ws'[i].ws)
    && (forall i :: 0 <= i < |ws| ==> ws'[i] == ws[i] || (ws'[i].flag && ws'[i].ws != ws[i].ws))
    && (forall i :: |ws| <= i < |ws'| ==> ws'[i].flag)
  }

  lemma ExtendsTrans(a: seq<Wset>, b: seq<Wset>, c: seq<Wset>)
    requires Extends(a, b) && Extends(b, c)
    ensures Extends(a, c)
  {
  }

  /** The part of Extends that says nothing of flags. */
  ghost predicate Grow(ws: seq<Wset>, ws': seq<Wset>) {
    && |ws| <= |ws'|
    && (forall i :: 0 <= i < |ws| ==> ws'[i].item == ws[i].item && ws[i].ws <= ws'[i].ws)
  }

  lemma CoversGrow(ws: seq<Wset>, ws': seq<Wset>, q: int, s: set<int>)
    requires Grow(ws, ws') && Covers(ws, q, s)
    ensures Covers(ws', q, s)
  {
    var v :| 0 <= v < |ws| && ws[v].item == Item(q, 0) && s <= ws[v].ws;
    assert ws'[v].item == ws[v].item && ws[v].ws <= ws'[v].ws;
  }

  // ---------------------------------------------------------------- termination measure

  ghost predicate Has(ws: seq<Wset>, q: int, a: int) {
    exists v :: 0 <= v < |ws| && ws[v].item == Item(q, 0) && (a == -1 || a in ws[v].ws)
  }

  /** The (production, token) bits not yet in the worklist; token -1 stands for the item itself. */
  ghost function Todo(g: Grammar, ws: seq<Wset>): set<(int, int)> {
    set q, a | 0 <= q < |g.prods| && -1 <= a <= g.ntokens && !Has(ws, q, a) :: (q, a)
  }

  lemma TodoShrinks(g: Grammar, ws: seq<Wset>, ws': seq<Wset>)
    requires Extends(ws, ws')
    ensures Todo(g, ws') <= Todo(g, ws)
  {
    forall q, a | Has(ws, q, a) ensures Has(ws', q, a) {
      var v :| 0 <= v < |ws| && ws[v].item == Item(q, 0) && (a == -1 || a in ws[v].ws);
      assert ws'[v].item == ws[v].item && ws[v].ws <= ws'[v].ws;
    }
  }

  lemma TodoStrict(g: Grammar, ws: seq<Wset>, ws': seq<Wset>, q: int, a: int)
    requires Extends(ws, ws') && 0 <= q < |g.prods| && -1 <= a <= g.ntokens
    requires Has(ws', q, a) && !Has(ws, q, a)
    ensures Todo(g, ws') < Todo(g, ws)
  {
    TodoShrinks(g, ws, ws');
    assert (q, a) in Todo(g, ws) && (q, a) !in Todo(g, ws');
  }

  /** Either nothing changed or the measure shrank; `work` is raised exactly for changes with lookahead on. */
  ghost predicate Progress(g: Grammar, ws: seq<Wset>, ws': seq<Wset>, nolook: bool, work: bool) {
    && (ws' == ws || Todo(g, ws') < Todo(g, ws))
    && work == (!nolook && ws' != ws)
  }

  lemma ProgressTrans(g: Grammar, a: seq<Wset>, b: seq<Wset>, c: seq<Wset>, nolook: bool, w1: bool, w2: bool)
    requires Progress(g, a, b, nolook, w1) && Progress(g, b, c, nolook, w2)
    ensures Progress(g, a, c, nolook, w1 || w2)
  {
    var ta, tb, tc := Todo(g, a), Todo(g, b), Todo(g, c);
    assert tb < ta && tc < tb ==> tc < ta;
    assert !(ta < ta);
  }

  // ---------------------------------------------------------------- one production

  /** ws' is ws with production q present, dot in front, lookahead clset added; nothing else moved. */
  ghost predicate MergedOne(ws: seq<Wset>, ws': seq<Wset>, q: int, clset: set<int>) {
    && Extends(ws, ws')
    && Covers(ws', q, clset)
    && (forall i :: 0 <= i < |ws'| && (i >= |ws| || ws'[i] != ws[i]) ==>
          ws'[i].item == Item(q, 0) && ws'[i].ws == (if i < |ws| then ws[i].ws else {}) + clset)
  }

  lemma Widen(cx: Context, kernel: seq<KItem>, ws: seq<Wset>, v: int, q: int, clset: set<int>)
    requires ContextOk(cx) && KernelOk(cx.g, kernel) && Shape(cx, kernel, ws)
    requires 0 <= q < |cx.g.prods| && IsLook(cx.g, clset)
    requires 0 <= v < |ws| && ws[v].item == Item(q, 0) && ws[v].ws + clset != ws[v].ws
    ensures var ws' := ws[v := Wset(ws[v].item, true, ws[v].ws + clset)];
            Shape(cx, kernel, ws') && MergedOne(ws, ws', q, clset) && Todo(cx.g, ws') < Todo(cx.g, ws)
  {
    var ws' := ws[v := Wset(ws[v].item, true, ws[v].ws + clset)];
    assert forall i :: 0 <= i < |kernel| ==> KernelItem(ws[i].item);
    assert v >= |kernel|;
    assert ws'[v].item == Item(q, 0);
    var a := NewBit(ws[v].ws, clset);
    assert Has(ws', q, a);
    assert forall i :: 0 <= i < |ws| && ws[i].item == Item(q, 0) ==> i == v;
    TodoStrict(cx.g, ws, ws', q, a);
  }

  lemma AppendShape(cx: Context, kernel: seq<KItem>, ws: seq<Wset>, q: int, clset: set<int>)
    requires ContextOk(cx) && KernelOk(cx.g, kernel) && Shape(cx, kernel, ws)
    requires 0 <= q < |cx.g.prods| && Entered(cx.g, KernelSet(kernel), q) && IsLook(cx.g, clset)
    requires forall i :: 0 <= i < |ws| ==> ws[i].item != Item(q, 0)
    ensures Shape(cx, kernel, ws + [Wset(Item(q, 0), true, clset)])
  {
    var ws' := ws + [Wset(Item(q, 0), true, clset)];
    assert WfProd(cx.g, q, cx.g.prods[q]);
    assert forall i :: 0 <= i < |ws| ==> ws'[i] == ws[i];
    assert ws'[|ws|].item == Item(q, 0);
  }

  lemma Append(cx: Context, kernel: seq<KItem>, ws: seq<Wset>, q: int, clset: set<int>)
    requires ContextOk(cx) && KernelOk(cx.g, kernel) && Shape(cx, kernel, ws)
    requires 0 <= q < |cx.g.prods| && Entered(cx.g, KernelSet(kernel), q) && IsLook(cx.g, clset)
    requires forall i :: 0 <= i < |ws| ==> ws[i].item != Item(q, 0)
    ensures var ws' := ws + [Wset(Item(q, 0), true, clset)];
            Shape(cx, kernel, ws') && MergedOne(ws, ws', q, clset) && Todo(cx.g, ws') < Todo(cx.g, ws)
  {
    var ws' := ws + [Wset(Item(q, 0), true, clset)];
    AppendShape(cx, kernel, ws, q, clset);
    assert ws'[|ws|].item == Item(q, 0);
    assert Has(ws', q, -1) && !Has(ws, q, -1);
    TodoStrict(cx.g, ws, ws', q, -1);
  }

  /** Put production q into the worklist with lookahead clset, or widen the entry it has. */
  method MergeOne(cx: Context, kernel: seq<KItem>, ws: seq<Wset>, q: int, clset: set<int>, nolook: bool)
    returns (ws': seq<Wset>, work: bool)
    requires ContextOk(cx) && KernelOk(cx.g, kernel) && Shape(cx, kernel, ws)
    requires 0 <= q < |cx.g.prods| && Entered(cx.g, KernelSet(kernel), q)
    requires IsLook(cx.g, clset) && (nolook ==> clset == {})
    ensures Shape(cx, kernel, ws') && MergedOne(ws, ws', q, clset) && ItemList(ws') == AddRule(ItemList(ws), q)
    ensures Progress(cx.g, ws, ws', nolook, work)
  {
    work := false;
    var v := 0;
    while v < |ws|
      invariant 0 <= v <= |ws|
      invariant forall i :: 0 <= i < v ==> ws[i].item != Item(q, 0)
    {
      if ws[v].item.off == 0 && ws[v].item.p == q {
        ws' := ws;
        assert ItemList(ws)[v] == Item(q, 0);
        var y := ws[v].ws + clset;
        if !nolook && y != ws[v].ws {
          Widen(cx, kernel, ws, v, q, clset);
          ws' := ws[v := Wset(ws[v].item, true, y)];
          assert ws'[v] != ws[v];
          assert ItemList(ws') == ItemList(ws);
          work := true;
        } else {
          assert ws[v].item == Item(q, 0) && clset <= ws[v].ws;
        }
        return;
      }
      v := v + 1;
    }
    Append(cx, kernel, ws, q, clset);
    ws' := ws + [Wset(Item(q, 0), true, if nolook then {} else clset)];
    assert ItemList(ws') == ItemList(ws) + [Item(q, 0)];
    work := !nolook;
  }

  lemma NewBit(x: set<int>, y: set<int>) returns (a: int)
    requires x + y != x
    ensures a in y && a !in x
  {
    assert (forall b :: b in y ==> b in x) ==> x + y == x;
    a :| a in y && a !in x;
  }

  // ---------------------------------------------------------------- all productions of one nonterminal

  /** ws' is ws with every production of c present; only productions of c moved, by at most clset. */
  ghost predicate MergedAll(cx: Context, ws: seq<Wset>, ws': seq<Wset>, c: int, clset: set<int>)
    requires ContextOk(cx)
  {
    && Extends(ws, ws')
    && (forall i :: 0 <= i < |ws'| && (i >= |ws| || ws'[i] != ws[i]) ==>
          && ws'[i].item.off == 0 && 0 <= ws'[i].item.p < |cx.g.prods| && Lhs(cx.g, ws'[i].item.p) == c
          && ws'[i].ws <= (if i < |ws| then ws[i].ws else {}) + clset)
  }

  lemma MergeStep(cx: Context, a: seq<Wset>, b: seq<Wset>, c: seq<Wset>, q: int, nt: int, clset: set<int>)
    requires ContextOk(cx) && MergedAll(cx, a, b, nt, clset) && MergedOne(b, c, q, clset)
    requires 0 <= q < |cx.g.prods| && Lhs(cx.g, q) == nt
    ensures MergedAll(cx, a, c, nt, clset)
  {
    ExtendsTrans(a, b, c);
  }

  /** The list of items has the first n rules added. */
  ghost predicate AddsRules(ws: seq<Wset>, ws': seq<Wset>, rules: seq<int>, n: nat) {
    n <= |rules| && ItemList(ws') == AddRules(ItemList(ws), rules, n)
  }

  method MergeAll(cx: Context, kernel: seq<KItem>, ws: seq<Wset>, c: int, curres: seq<int>, clset: set<int>,
                  nolook: bool)
    returns (ws': seq<Wset>, work: bool)
    requires ContextOk(cx) && KernelOk(cx.g, kernel) && Shape(cx, kernel, ws)
    requires IsNonterminal(cx.g, c) && RulesFor(cx.g, curres, c - NTBASE)
    requires forall q :: 0 <= q < |cx.g.prods| && Lhs(cx.g, q) == c ==> Entered(cx.g, KernelSet(kernel), q)
    requires IsLook(cx.g, clset) && (nolook ==> clset == {})
    ensures Shape(cx, kernel, ws') && MergedAll(cx, ws, ws', c, clset)
    ensures forall q :: 0 <= q < |cx.g.prods| && Lhs(cx.g, q) == c ==> Covers(ws', q, clset)
    ensures AddsRules(ws, ws', curres, |curres|)
    ensures Progress(cx.g, ws, ws', nolook, work)
  {
    ws', work := ws, false;
    var s := 0;
    while s < |curres|
      invariant 0 <= s <= |curres|
      invariant MergeInv(cx, kernel, ws, ws', c, clset, nolook, work, curres, s)
    {
      ws', work := MergeNext(cx, kernel, ws, ws', c, clset, nolook, work, curres, s);
      s := s + 1;
    }
    assert curres[..s] == curres;
    RulesCovered(cx.g, curres, c, ws', clset);
  }

  ghost predicate MergeInv(cx: Context, kernel: seq<KItem>, ws: seq<Wset>, ws': seq<Wset>, c: int, clset: set<int>,
                           nolook: bool, work: bool, rules: seq<int>, s: nat)
    requires ContextOk(cx) && KernelOk(cx.g, kernel)
  {
    && Shape(cx, kernel, ws') && MergedAll(cx, ws, ws', c, clset)
    && s <= |rules| && CoversRules(ws', rules[..s], clset) && AddsRules(ws, ws', rules, s)
    && Progress(cx.g, ws, ws', nolook, work)
  }

  /** The next production of c. */
  method MergeNext(cx: Context, kernel: seq<KItem>, ghost ws: seq<Wset>, ws1: seq<Wset>, c: int, clset: set<int>,
                   nolook: bool, work: bool, rules: seq<int>, s: nat)
    returns (ws': seq<Wset>, work': bool)
    requires ContextOk(cx) && KernelOk(cx.g, kernel) && s < |rules|
    requires 0 <= rules[s] < |cx.g.prods| && Lhs(cx.g, rules[s]) == c && Entered(cx.g, KernelSet(kernel), rules[s])
    requires IsLook(cx.g, clset) && (nolook ==> clset == {})
    requires MergeInv(cx, kernel, ws, ws1, c, clset, nolook, work, rules, s)
    ensures MergeInv(cx, kernel, ws, ws', c, clset, nolook, work', rules, s + 1)
  {
    var w;
    ws', w := MergeOne(cx, kernel, ws1, rules[s], clset, nolook);
    ProgressTrans(cx.g, ws, ws1, ws', nolook, work, w);
    work' := work || w;
    MergeStep(cx, ws, ws1, ws', rules[s], c, clset);
    CoversNext(ws1, ws', rules, s, clset);
  }

  lemma RulesCovered(g: Grammar, rules: seq<int>, c: int, ws: seq<Wset>, s: set<int>)
    requires WellFormed(g) && RulesFor(g, rules, c - NTBASE) && CoversRules(ws, rules, s)
    ensures forall q :: 0 <= q < |g.prods| && Lhs(g, q) == c ==> Covers(ws, q, s)
  {
    forall q | 0 <= q < |g.prods| && Lhs(g, q) == c ensures Covers(ws, q, s) {
      assert q in rules;
    }
  }

  ghost predicate CoversRules(ws: seq<Wset>, rules: seq<int>, s: set<int>) {
    forall r :: 0 <= r < |rules| ==> Covers(ws, rules[r], s)
  }

  lemma CoversNext(ws: seq<Wset>, ws': seq<Wset>, rules: seq<int>, s: nat, clset: set<int>)
    requires s < |rules| && Extends(ws, ws') && CoversRules(ws, rules[..s], clset) && Covers(ws', rules[s], clset)
    ensures CoversRules(ws', rules[..s + 1], clset)
  {
    forall r | 0 <= r < s + 1 ensures Covers(ws', rules[r], clset) {
      if r < s {
        assert rules[..s][r] == rules[r];
        CoversGrow(ws, ws', rules[r], clset);
      }
    }
  }

  // ---------------------------------------------------------------- items waiting on one nonterminal

  predicate Waiting(cx: Context, w: Wset, c: int)
    requires ContextOk(cx)
  {
    w.flag && ValidItem(cx.g, w.item) && First(cx.g, w.item) == c
  }

  /** The entries from u on that wait on c have been unflagged. */
  ghost predicate Gathered(cx: Context, ws: seq<Wset>, ws': seq<Wset>, u: int, c: int)
    requires ContextOk(cx)
  {
    && |ws'| == |ws|
    && (forall i :: 0 <= i < |ws| ==> ws'[i] == ws[i].(flag := ws[i].flag && !(u <= i && Waiting(cx, ws[i], c))))
  }

  /** clset is the union of what the waiting entries hand on. */
  ghost predicate Collected(cx: Context, ws: seq<Wset>, u: int, c: int, clset: set<int>, nolook: bool)
    requires ContextOk(cx) && c >= NTBASE && forall i :: 0 <= i < |ws| ==> ValidItem(cx.g, ws[i].item)
    requires ContextOk(cx) && c >= NTBASE && forall i :: 0 <= i < |ws| ==> IsLook(cx.g, ws[i].ws)
  {
    && (forall i :: u <= i < |ws| && i >= 0 && Waiting(cx, ws[i], c) ==> Handing(cx, ws[i], nolook) <= clset)
    && (forall a :: a in clset ==>
          exists i :: 0 <= i < |ws| && Waiting(cx, ws[i], c) && a in Handing(cx, ws[i], nolook))
  }

  /** Union of what the tail of a slice may start with into clset, as the inner loop of `closure` does it. */
  method AddLookahead(cx: Context, it: Item, l: set<int>, clset: set<int>) returns (clset': set<int>)
    requires ContextOk(cx) && BeforeNonterminal(cx.g, it) && IsLook(cx.g, l)
    ensures clset' == clset + Handed(cx, it, l)
  {
    clset' := clset;
    RoomAfter(cx.g, it);
    var ipi := it.off + 1;
    var ch := At(cx.g, it.p, ipi);
    ItemBasics(cx.g, Item(it.p, ipi));
    while ch > 0
      invariant it.off + 1 <= ipi < Len(cx.g, it.p) && ch == At(cx.g, it.p, ipi)
      invariant ch > 0 ==> IsSymbol(cx.g, ch)
      invariant clset' + LookAfter(cx, it.p, ipi, l) == clset + Handed(cx, it, l)
      decreases Len(cx.g, it.p) - ipi
    {
      if ch < NTBASE {
        clset' := clset' + {ch};
        return;
      }
      clset' := clset' + cx.pfirst[ch - NTBASE];
      if cx.pempty[ch - NTBASE] == 0 {
        return;
      }
      RoomAfter(cx.g, Item(it.p, ipi));
      ipi := ipi + 1;
      ch := At(cx.g, it.p, ipi);
      ItemBasics(cx.g, Item(it.p, ipi));
    }
    clset' := clset' + l;
  }

  method Gather(cx: Context, ws: seq<Wset>, u: nat, c: int, nolook: bool) returns (ws': seq<Wset>, clset: set<int>)
    requires ContextOk(cx) && u < |ws| && c >= NTBASE
    requires forall i :: 0 <= i < |ws| ==> ValidItem(cx.g, ws[i].item) && IsLook(cx.g, ws[i].ws)
    ensures Gathered(cx, ws, ws', u, c) && Collected(cx, ws, u, c, clset, nolook)
    ensures nolook ==> clset == {}
  {
    ws', clset := ws, {};
    var v := u;
    while v < |ws|
      invariant u <= v <= |ws| && |ws'| == |ws|
      invariant forall i :: 0 <= i < |ws| ==>
                  ws'[i] == ws[i].(flag := ws[i].flag && !(u <= i < v && Waiting(cx, ws[i], c)))
      invariant forall i :: u <= i < v && Waiting(cx, ws[i], c) ==> Handing(cx, ws[i], nolook) <= clset
      invariant forall a :: a in clset ==>
                  exists i :: 0 <= i < |ws| && Waiting(cx, ws[i], c) && a in Handing(cx, ws[i], nolook)
      invariant nolook ==> clset == {}
    {
      if ws'[v].flag && First(cx.g, ws'[v].item) == c {
        assert Waiting(cx, ws[v], c);
        ws' := ws'[v := ws'[v].(flag := false)];
        if !nolook {
          clset := AddLookahead(cx, ws[v].item, ws[v].ws, clset);
        }
      }
      v := v + 1;
    }
  }

  // ---------------------------------------------------------------- one entry's turn

  lemma TurnKeepsInv(cx: Context, kernel: seq<KItem>, ws: seq<Wset>, ws1: seq<Wset>, ws2: seq<Wset>, u: int, c: int,
                     clset: set<int>, nolook: bool)
    requires ContextOk(cx) && KernelOk(cx.g, kernel) && Inv(cx, kernel, ws, nolook) && c >= NTBASE
    requires Gathered(cx, ws, ws1, u, c) && Collected(cx, ws, u, c, clset, nolook)
    requires MergedAll(cx, ws1, ws2, c, clset) && Shape(cx, kernel, ws2)
    requires forall q :: 0 <= q < |cx.g.prods| && Lhs(cx.g, q) == c ==> Covers(ws2, q, clset)
    ensures Inv(cx, kernel, ws2, nolook)
  {
    assert Grow(ws, ws2);
    forall i | 0 <= i < |ws2| && !ws2[i].flag ensures Propagated(cx, ws2, ws2[i], nolook) {
      assert ws2[i] == ws1[i];
      forall q | 0 <= q < |cx.g.prods| && First(cx.g, ws2[i].item) == Lhs(cx.g, q) &&
                 BeforeNonterminal(cx.g, ws2[i].item)
        ensures Covers(ws2, q, Handing(cx, ws2[i], nolook))
      {
        if ws[i].flag {
          assert Waiting(cx, ws[i], c);
          CoversMono(ws2, q, clset, Handing(cx, ws2[i], nolook));
        } else {
          assert Propagated(cx, ws, ws[i], nolook);
          CoversGrow(ws, ws2, q, Handing(cx, ws[i], nolook));
        }
      }
    }
  }

  lemma CoversMono(ws: seq<Wset>, q: int, s: set<int>, s': set<int>)
    requires Covers(ws, q, s) && s' <= s
    ensures Covers(ws, q, s')
  {
  }

  lemma HandedIsBelow(cx: Context, e: Wset, c: int, q: int, nolook: bool, w: map<Item, set<int>>, a: int)
    requires ContextOk(cx) && c >= NTBASE && Waiting(cx, e, c) && IsLook(cx.g, e.ws)
    requires Lr1Closed(cx, w) && e.item in w && e.ws <= w[e.item]
    requires 0 <= q < |cx.g.prods| && Lhs(cx.g, q) == c
    requires a in Handing(cx, e, nolook)
    ensures Item(q, 0) in w && a in w[Item(q, 0)]
  {
    RoomAfter(cx.g, e.item);
    LookAfterMono(cx, e.item.p, e.item.off + 1, e.ws, w[e.item]);
    assert Handed(cx, e.item, w[e.item]) <= w[Item(q, 0)];
  }

  lemma TurnKeepsBelow(cx: Context, kernel: seq<KItem>, ws: seq<Wset>, ws1: seq<Wset>, ws2: seq<Wset>, u: int, c: int,
                       clset: set<int>, nolook: bool, w: map<Item, set<int>>)
    requires ContextOk(cx) && KernelOk(cx.g, kernel) && Shape(cx, kernel, ws) && c >= NTBASE
    requires 0 <= u < |ws| && Waiting(cx, ws[u], c)
    requires Gathered(cx, ws, ws1, u, c) && Collected(cx, ws, u, c, clset, nolook) && MergedAll(cx, ws1, ws2, c, clset)
    requires Lr1Closed(cx, w) && Below(ws, w)
    ensures Below(ws2, w)
  {
    forall i | 0 <= i < |ws2| ensures ws2[i].item in w && ws2[i].ws <= w[ws2[i].item] {
      if i >= |ws1| || ws2[i] != ws1[i] {
        var q := ws2[i].item.p;
        assert ws2[i].item == Item(q, 0) && Lhs(cx.g, q) == c;
        assert ws[u].item in w && First(cx.g, ws[u].item) == Lhs(cx.g, q);
        assert Item(q, 0) in w;
        forall a | a in clset ensures a in w[Item(q, 0)] {
          var j :| 0 <= j < |ws| && Waiting(cx, ws[j], c) && a in Handing(cx, ws[j], nolook);
          HandedIsBelow(cx, ws[j], c, q, nolook, w, a);
        }
      }
    }
  }

  lemma EnteredFrom(cx: Context, kernel: seq<KItem>, ws: seq<Wset>, u: int, q: int)
    requires ContextOk(cx) && KernelOk(cx.g, kernel) && Shape(cx, kernel, ws)
    requires 0 <= u < |ws| && 0 <= q < |cx.g.prods| && First(cx.g, ws[u].item) == Lhs(cx.g, q)
    ensures Entered(cx.g, KernelSet(kernel), q)
  {
    var g, ks := cx.g, KernelSet(kernel);
    if u < |kernel| {
      assert ws[u].item == kernel[u].item && kernel[u].item in ks;
    } else {
      assert ws[u].item == Item(ws[u].item.p, 0) && ws[u].item in Clo(g, ks);
    }
    CloIsClosed(g, ks);
    assert ws[u].item in Clo(g, ks);
    assert Item(q, 0) in Clo(g, ks);
    forall i | 0 <= i < |kernel| ensures kernel[i].item != Item(q, 0) {
      assert KernelItem(kernel[i].item);
    }
  }

  /** What the turn of an entry that waits on c comes to: the waiting entries are unflagged, then c's productions
      are merged in with what those entries hand on. */
  ghost predicate Turned(cx: Context, kernel: seq<KItem>, ws: seq<Wset>, ws1: seq<Wset>, ws2: seq<Wset>, u: int, c: int,
                         clset: set<int>, nolook: bool)
    requires ContextOk(cx) && KernelOk(cx.g, kernel)
  {
    && Shape(cx, kernel, ws) && c >= NTBASE && 0 <= u < |ws| && Waiting(cx, ws[u], c)
    && Gathered(cx, ws, ws1, u, c) && Collected(cx, ws, u, c, clset, nolook) && (nolook ==> clset == {})
    && Shape(cx, kernel, ws2) && MergedAll(cx, ws1, ws2, c, clset)
    && (forall q :: 0 <= q < |cx.g.prods| && Lhs(cx.g, q) == c ==> Covers(ws2, q, clset))
  }

  lemma TurnKeeps(cx: Context, kernel: seq<KItem>, ws: seq<Wset>, ws1: seq<Wset>, ws2: seq<Wset>, u: int, c: int,
                  clset: set<int>, nolook: bool)
    requires ContextOk(cx) && KernelOk(cx.g, kernel) && Turned(cx, kernel, ws, ws1, ws2, u, c, clset, nolook)
    requires Inv(cx, kernel, ws, nolook) && Least(cx, kernel, ws)
    ensures Inv(cx, kernel, ws2, nolook) && Least(cx, kernel, ws2)
  {
    TurnKeepsInv(cx, kernel, ws, ws1, ws2, u, c, clset, nolook);
    forall w | Lr1Closed(cx, w) && AboveKernel(kernel, w) ensures Below(ws2, w) {
      TurnKeepsBelow(cx, kernel, ws, ws1, ws2, u, c, clset, nolook, w);
    }
  }

  lemma GatheredSame(cx: Context, kernel: seq<KItem>, ws: seq<Wset>, ws1: seq<Wset>, u: int, c: int)
    requires ContextOk(cx) && KernelOk(cx.g, kernel) && Shape(cx, kernel, ws) && Gathered(cx, ws, ws1, u, c)
    ensures Shape(cx, kernel, ws1) && ItemList(ws1) == ItemList(ws) && Todo(cx.g, ws1) == Todo(cx.g, ws)
  {
    TodoSame(cx.g, ws, ws1);
  }

  /** Entry u waits on nonterminal c: gather what the entries waiting on c hand on, and merge c's productions in. */
  method Serve(cx: Context, kernel: seq<KItem>, ws: seq<Wset>, u: nat, c: int, curres: seq<int>, nolook: bool)
    returns (ws': seq<Wset>, work: bool, ghost ws1: seq<Wset>, ghost clset: set<int>)
    requires ContextOk(cx) && KernelOk(cx.g, kernel) && Shape(cx, kernel, ws)
    requires u < |ws| && Waiting(cx, ws[u], c) && IsNonterminal(cx.g, c) && RulesFor(cx.g, curres, c - NTBASE)
    ensures Turned(cx, kernel, ws, ws1, ws', u, c, clset, nolook)
    ensures AddsRules(ws, ws', curres, |curres|)
    ensures Progress(cx.g, ws1, ws', nolook, work) && Todo(cx.g, ws1) == Todo(cx.g, ws)
  {
    var gathered, handed := Gather(cx, ws, u, c, nolook);
    ws1, clset := gathered, handed;
    GatheredSame(cx, kernel, ws, ws1, u, c);
    CollectedIsLook(cx, ws, u, c, clset, nolook);
    forall q | 0 <= q < |cx.g.prods| && Lhs(cx.g, q) == c ensures Entered(cx.g, KernelSet(kernel), q) {
      EnteredFrom(cx, kernel, ws, u, q);
    }
    ws', work := MergeAll(cx, kernel, gathered, c, curres, handed, nolook);
  }

  lemma TurnFlags(cx: Context, kernel: seq<KItem>, ws: seq<Wset>, ws1: seq<Wset>, ws2: seq<Wset>, u: int, c: int,
                  clset: set<int>, nolook: bool, work: bool)
    requires ContextOk(cx) && KernelOk(cx.g, kernel) && Turned(cx, kernel, ws, ws1, ws2, u, c, clset, nolook)
    requires Progress(cx.g, ws1, ws2, nolook, work) && Todo(cx.g, ws1) == Todo(cx.g, ws)
    ensures |ws| <= |ws2| && Todo(cx.g, ws2) <= Todo(cx.g, ws)
    ensures |ws2| > |ws| || work ==> Todo(cx.g, ws2) < Todo(cx.g, ws)
    ensures !work ==> !ws2[u].flag && forall i :: 0 <= i < |ws| && ws2[i].flag ==> ws[i].flag
  {
    if nolook {
      forall i | 0 <= i < |ws1| ensures ws2[i] == ws1[i] {
        assert ws2[i].ws <= ws1[i].ws + {} || ws2[i] == ws1[i];
      }
    }
  }

  /** What a turn of entry u leaves: the invariants, progress, and the item list taken one step on. */
  ghost predicate TurnEnds(cx: Context, kernel: seq<KItem>, ws: seq<Wset>, ws': seq<Wset>, u: nat, curres: seq<int>,
                           nolook: bool, work: bool)
    requires ContextOk(cx) && KernelOk(cx.g, kernel) && u < |ws|
  {
    && Inv(cx, kernel, ws', nolook) && Least(cx, kernel, ws')
    && |ws| <= |ws'| && (|ws'| > |ws| || work ==> Todo(cx.g, ws') < Todo(cx.g, ws))
    && Todo(cx.g, ws') <= Todo(cx.g, ws)
    && (!work ==> !ws'[u].flag && forall i :: 0 <= i < |ws| && ws'[i].flag ==> ws[i].flag)
    && AddsRules(ws, ws', curres, |curres|)
  }

  lemma TurnResult(cx: Context, kernel: seq<KItem>, ws: seq<Wset>, ws1: seq<Wset>, ws2: seq<Wset>, u: nat, c: int,
                   curres: seq<int>, clset: set<int>, nolook: bool, work: bool)
    requires ContextOk(cx) && KernelOk(cx.g, kernel) && Inv(cx, kernel, ws, nolook) && Least(cx, kernel, ws)
    requires Turned(cx, kernel, ws, ws1, ws2, u, c, clset, nolook)
    requires Progress(cx.g, ws1, ws2, nolook, work) && Todo(cx.g, ws1) == Todo(cx.g, ws)
    requires AddsRules(ws, ws2, curres, |curres|)
    ensures TurnEnds(cx, kernel, ws, ws2, u, curres, nolook, work)
  {
    TurnKeeps(cx, kernel, ws, ws1, ws2, u, c, clset, nolook);
    TurnFlags(cx, kernel, ws, ws1, ws2, u, c, clset, nolook, work);
  }

  method Turn(cx: Context, kernel: seq<KItem>, ws: seq<Wset>, u: nat, curres: seq<int>, nolook: bool)
    returns (ws': seq<Wset>, work: bool)
    requires ContextOk(cx) && KernelOk(cx.g, kernel) && Inv(cx, kernel, ws, nolook) && Least(cx, kernel, ws)
    requires u < |ws| && ws[u].flag && First(cx.g, ws[u].item) >= NTBASE
    requires RulesFor(cx.g, curres, First(cx.g, ws[u].item) - NTBASE)
    ensures TurnEnds(cx, kernel, ws, ws', u, curres, nolook, work)
  {
    var c := First(cx.g, ws[u].item);
    ItemBasics(cx.g, ws[u].item);
    ghost var ws1, clset;
    ws', work, ws1, clset := Serve(cx, kernel, ws, u, c, curres, nolook);
    TurnResult(cx, kernel, ws, ws1, ws', u, c, curres, clset, nolook, work);
  }

  lemma CollectedIsLook(cx: Context, ws: seq<Wset>, u: int, c: int, clset: set<int>, nolook: bool)
    requires ContextOk(cx) && c >= NTBASE
    requires forall i :: 0 <= i < |ws| ==> ValidItem(cx.g, ws[i].item) && IsLook(cx.g, ws[i].ws)
    requires Collected(cx, ws, u, c, clset, nolook)
    ensures IsLook(cx.g, clset)
  {
    forall a | a in clset ensures 0 <= a <= cx.g.ntokens {
      var j :| 0 <= j < |ws| && Waiting(cx, ws[j], c) && a in Handing(cx, ws[j], nolook);
    }
  }

  lemma TodoSame(g: Grammar, ws: seq<Wset>, ws': seq<Wset>)
    requires |ws| == |ws'| && forall i :: 0 <= i < |ws| ==> ws'[i].item == ws[i].item && ws'[i].ws == ws[i].ws
    ensures Todo(g, ws) == Todo(g, ws')
  {
    forall q, a ensures Has(ws, q, a) <==> Has(ws', q, a) {
      if Has(ws, q, a) {
        var v :| 0 <= v < |ws| && ws[v].item == Item(q, 0) && (a == -1 || a in ws[v].ws);
        assert ws'[v].item == Item(q, 0);
      }
      if Has(ws', q, a) {
        var v :| 0 <= v < |ws'| && ws'[v].item == Item(q, 0) && (a == -1 || a in ws'[v].ws);
        assert ws[v].item == Item(q, 0);
      }
    }
  }

  // ---------------------------------------------------------------- closure

  /** What `closure` promises: the flags are clear, the items are the closure of the kernel in their order, the
      lookaheads (when they are asked for) are closed, and nothing is more than any closed family has. */
  ghost predicate Closed(cx: Context, kernel: seq<KItem>, ws: seq<Wset>, nolook: bool)
    requires ContextOk(cx) && KernelOk(cx.g, kernel)
  {
    && Inv(cx, kernel, ws, nolook)
    && (forall i :: 0 <= i < |ws| ==> !ws[i].flag)
    && ItemSet(ws) == Clo(cx.g, KernelSet(kernel))
    && Least(cx, kernel, ws)
    && ItemList(ws) == Listing(cx, kernel)
  }

  /** The items of a closed state, in the order `closure` lists them: the kernel, then the productions in the order
      they are called for. */
  ghost function Listing(cx: Context, kernel: seq<KItem>): seq<Item>
    requires ContextOk(cx) && KernelOk(cx.g, kernel)
  {
    Expand(cx, KernelList(kernel), 0)
  }

  lemma FlagsClearMeansClosed(cx: Context, kernel: seq<KItem>, ws: seq<Wset>, nolook: bool)
    requires ContextOk(cx) && KernelOk(cx.g, kernel) && Inv(cx, kernel, ws, nolook)
    requires forall i :: 0 <= i < |ws| ==> !ws[i].flag
    ensures ItemSet(ws) == Clo(cx.g, KernelSet(kernel))
  {
    var g, ks, c := cx.g, KernelSet(kernel), ItemSet(ws);
    forall it, q | it in c && ValidItem(g, it) && 0 <= q < |g.prods| && First(g, it) == Lhs(g, q)
      ensures Item(q, 0) in c
    {
      var i :| 0 <= i < |ws| && ws[i].item == it;
      assert WfProd(g, q, g.prods[q]);
      assert Propagated(cx, ws, ws[i], nolook);
      assert Covers(ws, q, Handing(cx, ws[i], nolook));
      var v :| 0 <= v < |ws| && ws[v].item == Item(q, 0);
    }
    forall k | k in ks ensures k in c {
      var i :| 0 <= i < |kernel| && kernel[i].item == k;
      assert ws[i].item == k;
    }
    CloLeast(g, ks, c);
    forall it | it in c ensures it in Clo(g, ks) {
      var i :| 0 <= i < |ws| && ws[i].item == it;
      if i < |kernel| {
        assert kernel[i].item in ks;
      } else {
        assert it == Item(it.p, 0);
      }
    }
  }

  /** The kernel, every entry flagged. */
  predicate Copied(kernel: seq<KItem>, ws: seq<Wset>) {
    |ws| <= |kernel| && forall i :: 0 <= i < |ws| ==> ws[i] == Wset(kernel[i].item, true, kernel[i].look)
  }

  method CopyKernel(kernel: seq<KItem>) returns (ws: seq<Wset>)
    ensures |ws| == |kernel| && Copied(kernel, ws)
  {
    ws := [];
    var p := 0;
    while p < |kernel|
      invariant 0 <= p <= |kernel| && |ws| == p && Copied(kernel, ws)
    {
      ws := ws + [Wset(kernel[p].item, true, kernel[p].look)];
      p := p + 1;
    }
  }

  lemma CopiedBegins(cx: Context, kernel: seq<KItem>, ws: seq<Wset>, nolook: bool)
    requires ContextOk(cx) && KernelOk(cx.g, kernel) && |ws| == |kernel| && Copied(kernel, ws)
    ensures CloseInv(cx, kernel, ws, nolook, 0, Listing(cx, kernel))
  {
    assert ItemList(ws) == KernelList(kernel);
    assert Shape(cx, kernel, ws);
  }

  /** What holds of the worklist when the pass has come to entry u: the items are on their way to the whole list. */
  ghost predicate CloseInv(cx: Context, kernel: seq<KItem>, ws: seq<Wset>, nolook: bool, u: nat, all: seq<Item>)
    requires ContextOk(cx) && KernelOk(cx.g, kernel)
  {
    Inv(cx, kernel, ws, nolook) && Least(cx, kernel, ws) && ComesTo(cx, ws, u, all)
  }

  method Close(cx: Context, kernel: seq<KItem>, nolook: bool) returns (ws: seq<Wset>)
    requires ContextOk(cx) && KernelOk(cx.g, kernel)
    ensures Closed(cx, kernel, ws, nolook)
  {
    ws := CopyKernel(kernel);
    ghost var all := Listing(cx, kernel);
    CopiedBegins(cx, kernel, ws, nolook);
    var work := true;
    while work
      invariant CloseInv(cx, kernel, ws, nolook, 0, all)
      invariant !work ==> FlagsClear(ws, |ws|) && ComesTo(cx, ws, |ws|, all)
      decreases Todo(cx.g, ws), work
    {
      ws, work := Pass(cx, kernel, ws, nolook, all);
    }
    CloseDone(cx, kernel, ws, nolook);
  }

  lemma CloseDone(cx: Context, kernel: seq<KItem>, ws: seq<Wset>, nolook: bool)
    requires ContextOk(cx) && KernelOk(cx.g, kernel) && CloseInv(cx, kernel, ws, nolook, 0, Listing(cx, kernel))
    requires FlagsClear(ws, |ws|) && ComesTo(cx, ws, |ws|, Listing(cx, kernel))
    ensures Closed(cx, kernel, ws, nolook)
  {
    FlagsClearMeansClosed(cx, kernel, ws, nolook);
  }

  /** Where the pass begun with ws stands at entry u. */
  ghost predicate PassInv(cx: Context, kernel: seq<KItem>, ws: seq<Wset>, ws': seq<Wset>, nolook: bool, u: nat,
                          all: seq<Item>, work: bool)
    requires ContextOk(cx) && KernelOk(cx.g, kernel)
  {
    && CloseInv(cx, kernel, ws', nolook, u, all) && PassProgress(Todo(cx.g, ws), Todo(cx.g, ws'), work)
    && u <= |ws'| && (!work ==> FlagsClear(ws', u))
  }

  /** Entry u's turn in a pass. */
  method PassNext(cx: Context, kernel: seq<KItem>, ghost ws: seq<Wset>, ws1: seq<Wset>, nolook: bool, u: nat,
                  ghost all: seq<Item>, work: bool)
    returns (ws': seq<Wset>, work': bool)
    requires ContextOk(cx) && KernelOk(cx.g, kernel) && PassInv(cx, kernel, ws, ws1, nolook, u, all, work) && u < |ws1|
    ensures PassInv(cx, kernel, ws, ws', nolook, u + 1, all, work')
    ensures Todo(cx.g, ws') < Todo(cx.g, ws1) || (Todo(cx.g, ws') == Todo(cx.g, ws1) && |ws'| == |ws1|)
  {
    var w;
    ws', w := Visit(cx, kernel, ws1, u, RulesAfter(cx, ws1[u].item), nolook);
    VisitOrder(cx, kernel, ws1, u, ws', nolook, all);
    PassStep(Todo(cx.g, ws), Todo(cx.g, ws1), Todo(cx.g, ws'), work, w);
    work' := work || w;
  }

  lemma PassBegins(cx: Context, kernel: seq<KItem>, ws: seq<Wset>, nolook: bool, all: seq<Item>)
    requires ContextOk(cx) && KernelOk(cx.g, kernel) && CloseInv(cx, kernel, ws, nolook, 0, all)
    ensures PassInv(cx, kernel, ws, ws, nolook, 0, all, false)
  {
  }

  /** A pass that has come to the end may begin again. */
  lemma PassEnds(cx: Context, kernel: seq<KItem>, ws: seq<Wset>, ws': seq<Wset>, nolook: bool, u: nat, work: bool)
    requires ContextOk(cx) && KernelOk(cx.g, kernel) && u >= |ws'|
    requires PassInv(cx, kernel, ws, ws', nolook, u, Listing(cx, kernel), work)
    ensures CloseInv(cx, kernel, ws', nolook, 0, Listing(cx, kernel))
    ensures PassProgress(Todo(cx.g, ws), Todo(cx.g, ws'), work)
    ensures !work ==> FlagsClear(ws', |ws'|) && ComesTo(cx, ws', |ws'|, Listing(cx, kernel))
  {
    ListingStays(cx, kernel);
  }

  /** The full listing calls for nothing more. */
  lemma ListingStays(cx: Context, kernel: seq<KItem>)
    requires ContextOk(cx) && KernelOk(cx.g, kernel)
    ensures AllValid(cx.g, Listing(cx, kernel)) && Expand(cx, Listing(cx, kernel), 0) == Listing(cx, kernel)
  {
    ExpandSaturates(cx, KernelList(kernel), 0);
    SaturatedStays(cx, Listing(cx, kernel), 0);
  }

  lemma UnflagKeeps(cx: Context, kernel: seq<KItem>, ws: seq<Wset>, u: nat, nolook: bool)
    requires ContextOk(cx) && KernelOk(cx.g, kernel) && Inv(cx, kernel, ws, nolook) && Least(cx, kernel, ws)
    requires u < |ws| && First(cx.g, ws[u].item) < NTBASE
    ensures var ws' := ws[u := ws[u].(flag := false)];
            Inv(cx, kernel, ws', nolook) && Least(cx, kernel, ws') && Todo(cx.g, ws') == Todo(cx.g, ws)
  {
    var ws' := ws[u := ws[u].(flag := false)];
    TodoSame(cx.g, ws, ws');
    assert Shape(cx, kernel, ws');
    forall i | 0 <= i < |ws'| && !ws'[i].flag ensures Propagated(cx, ws', ws'[i], nolook) {
      if i != u {
        assert Propagated(cx, ws, ws[i], nolook);
        forall q | 0 <= q < |cx.g.prods| && First(cx.g, ws[i].item) == Lhs(cx.g, q) &&
                   BeforeNonterminal(cx.g, ws[i].item)
          ensures Covers(ws', q, Handing(cx, ws[i], nolook))
        {
          CoversGrow(ws, ws', q, Handing(cx, ws[i], nolook));
        }
      }
    }
    forall w | Lr1Closed(cx, w) && AboveKernel(kernel, w) ensures Below(ws', w) {
      assert Below(ws, w);
    }
  }

  /** The list of items after a visit: an entry whose flag is clear adds nothing. */
  ghost predicate Listed(ws: seq<Wset>, ws': seq<Wset>, flag: bool, rules: seq<int>) {
    if flag then AddsRules(ws, ws', rules, |rules|) else ws' == ws
  }

  /** Unflagging an entry that calls for no rules adds none. */
  lemma UnflagListed(ws: seq<Wset>, u: nat)
    requires u < |ws|
    ensures Listed(ws, ws[u := ws[u].(flag := false)], true, [])
  {
    assert ItemList(ws[u := ws[u].(flag := false)]) == ItemList(ws);
  }

  /** Entry u's turn: nothing when its flag is clear or its dot is before a token or at the end. The rules it calls
      for are curres. */
  method Visit(cx: Context, kernel: seq<KItem>, ws: seq<Wset>, u: nat, curres: seq<int>, nolook: bool)
    returns (ws': seq<Wset>, work: bool)
    requires ContextOk(cx) && KernelOk(cx.g, kernel) && Inv(cx, kernel, ws, nolook) && Least(cx, kernel, ws)
    requires u < |ws| && curres == RulesAfter(cx, ws[u].item)
    ensures Inv(cx, kernel, ws', nolook) && Least(cx, kernel, ws')
    ensures |ws| <= |ws'| && (|ws'| > |ws| || work ==> Todo(cx.g, ws') < Todo(cx.g, ws))
    ensures Todo(cx.g, ws') <= Todo(cx.g, ws)
    ensures !work && FlagsClear(ws, u) ==> FlagsClear(ws', u + 1)
    ensures Listed(ws, ws', ws[u].flag, curres)
  {
    ws', work := ws, false;
    if ws[u].flag {
      if First(cx.g, ws[u].item) < NTBASE {
        UnflagKeeps(cx, kernel, ws, u, nolook);
        ws' := ws[u := ws[u].(flag := false)];
        UnflagListed(ws, u);
      } else {
        RulesAfterIs(cx, ws[u].item);
        ws', work := Turn(cx, kernel, ws, u, curres, nolook);
      }
    }
  }

  /** An entry whose flag is clear has its productions in the list. */
  lemma UnflaggedStep(cx: Context, kernel: seq<KItem>, ws: seq<Wset>, u: nat, nolook: bool)
    requires ContextOk(cx) && KernelOk(cx.g, kernel) && Inv(cx, kernel, ws, nolook) && u < |ws| && !ws[u].flag
    ensures Step(cx, ItemList(ws), ws[u].item) == ItemList(ws)
  {
    var rules := RulesAfter(cx, ws[u].item);
    assert Propagated(cx, ws, ws[u], nolook);
    forall r | 0 <= r < |rules| ensures Item(rules[r], 0) in ItemList(ws) {
      var c := First(cx.g, ws[u].item);
      ItemBasics(cx.g, ws[u].item);
      assert RulesFor(cx.g, cx.pres[c - NTBASE], c - NTBASE);
      assert Covers(ws, rules[r], Handing(cx, ws[u], nolook));
      var v :| 0 <= v < |ws| && ws[v].item == Item(rules[r], 0);
      assert ItemList(ws)[v] == Item(rules[r], 0);
    }
    AddRulesHas(ItemList(ws), rules, |rules|);
  }

  /** The items from u on, followed up, make the whole list. */
  ghost predicate ComesTo(cx: Context, ws: seq<Wset>, u: nat, all: seq<Item>)
    requires ContextOk(cx)
  {
    u <= |ws| && AllValid(cx.g, ItemList(ws)) && Expand(cx, ItemList(ws), u) == all
  }

  /** A visit leaves what is to come of the list as it was. */
  lemma VisitOrder(cx: Context, kernel: seq<KItem>, ws: seq<Wset>, u: nat, ws': seq<Wset>, nolook: bool,
                   all: seq<Item>)
    requires ContextOk(cx) && KernelOk(cx.g, kernel) && Inv(cx, kernel, ws, nolook) && u < |ws|
    requires Listed(ws, ws', ws[u].flag, RulesAfter(cx, ws[u].item)) && ComesTo(cx, ws, u, all)
    ensures ComesTo(cx, ws', u + 1, all)
  {
    if !ws[u].flag { UnflaggedStep(cx, kernel, ws, u, nolook); }
    assert ItemList(ws)[u] == ws[u].item;
    ExpandStep(cx, ItemList(ws), u);
  }

  /** One pass of the outer loop over the growing worklist. */
  method Pass(cx: Context, kernel: seq<KItem>, ws: seq<Wset>, nolook: bool, ghost all: seq<Item>)
    returns (ws': seq<Wset>, work: bool)
    requires ContextOk(cx) && KernelOk(cx.g, kernel) && CloseInv(cx, kernel, ws, nolook, 0, all)
    requires all == Listing(cx, kernel)
    ensures CloseInv(cx, kernel, ws', nolook, 0, all)
    ensures PassProgress(Todo(cx.g, ws), Todo(cx.g, ws'), work)
    ensures !work ==> FlagsClear(ws', |ws'|) && ComesTo(cx, ws', |ws'|, all)
  {
    ws', work := ws, false;
    var u := 0;
    PassBegins(cx, kernel, ws, nolook, all);
    while u < |ws'|
      invariant PassInv(cx, kernel, ws, ws', nolook, u, all, work)
      decreases Todo(cx.g, ws'), |ws'| - u
    {
      ws', work := PassNext(cx, kernel, ws, ws', nolook, u, all, work);
      u := u + 1;
    }
    PassEnds(cx, kernel, ws, ws', nolook, u, work);
  }

  predicate FlagsClear(ws: seq<Wset>, n: nat)
    requires n <= |ws|
  {
    forall i :: 0 <= i < n ==> !ws[i].flag
  }

  ghost predicate PassProgress(t0: set<(int, int)>, t: set<(int, int)>, work: bool) {
    t <= t0 && (work ==> t < t0)
  }

  lemma PassStep(t0: set<(int, int)>, t1: set<(int, int)>, t2: set<(int, int)>, work: bool, w: bool)
    requires PassProgress(t0, t1, work) && t2 <= t1 && (w ==> t2 < t1)
    ensures PassProgress(t0, t2, work || w)
  {
  }
}
