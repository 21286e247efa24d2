/** A grammar whose lookaheads `stagen` does not complete. */
module LostLookahead {
  import opened Grammars
  import opened GrammarSets
  import opened Items
  import opened ClosureOrder
  import opened Closure
  import opened Automaton
  import opened Carrying
  import opened StateGen
  import opened Spreading
  import opened Lalr
  import opened StateCount
  import opened StaGen
  import opened Generator

  // $accept: A $end;  A: a A c | B b;  B: ;   with a, b, c the tokens 4, 5, 6 and A, B the nonterminals 1, 2.

  const NTA := NTBASE + 1
  const NTB := NTBASE + 2

  function G(): Grammar {
    Grammar(6, 2, [[NTBASE, NTA, 1, 0], [NTA, 4, NTA, 6, -1], [NTA, NTB, 5, -2], [NTB, -3]])
  }

  lemma GOk()
    ensures WellFormed(G())
  {
  }

  predicate Of(cx: Context) {
    ContextOk(cx) && cx.g == G()
  }

  // ---------------------------------------------------------------- items

  /** A: a . A c */
  const Inner := Item(1, 1)
  /** A: a A . c */
  const Outer := Item(1, 2)

  lemma OnA(it: Item)
    requires WellFormed(G()) && ValidItem(G(), it)
    ensures First(G(), it) == 4 ==> it == Item(1, 0)
    ensures First(G(), it) == NTA ==> it == Item(-1, 1) || it == Item(0, 0) || it == Inner
    ensures First(G(), it) == NTBASE ==> it == Item(-1, 0)
  {
  }

  lemma {:induction false} AtMost(r: seq<int>, lo: int, hi: int)
    requires (forall s :: 0 <= s < |r| ==> lo <= r[s] <= hi) && (forall s, t :: 0 <= s < t < |r| ==> r[s] < r[t])
    ensures |r| <= if lo <= hi then hi - lo + 1 else 0
    decreases |r|
  {
    if r != [] { AtMost(r[..|r| - 1], lo, r[|r| - 1] - 1); }
  }

  lemma RulesAre(cx: Context)
    requires Of(cx)
    ensures cx.pres[1] == [1, 2] && cx.pres[2] == [3]
  {
    var ra, rb := cx.pres[1], cx.pres[2];
    assert RulesFor(cx.g, ra, 1) && RulesFor(cx.g, rb, 2);
    assert Lhs(cx.g, 1) == NTA && Lhs(cx.g, 2) == NTA && Lhs(cx.g, 3) == NTB && Lhs(cx.g, 0) == NTBASE;
    assert 1 in ra && 2 in ra && 3 in rb;
    assert forall s :: 0 <= s < |ra| ==> ra[s] == 1 || ra[s] == 2;
    assert forall s :: 0 <= s < |rb| ==> rb[s] == 3;
    AtMost(ra, 1, 2);
    AtMost(rb, 3, 3);
  }

  lemma StepsAre(cx: Context)
    requires Of(cx)
    ensures var l1, l3 := [Inner], [Inner, Item(1, 0), Item(2, 0)];
            Step(cx, l1, Inner) == l3 && Step(cx, l3, Item(1, 0)) == l3 && Step(cx, l3, Item(2, 0)) == l3 + [Item(3, 0)]
  {
    RulesAre(cx);
    var l1, l3 := [Inner], [Inner, Item(1, 0), Item(2, 0)];
    assert RulesAfter(cx, Inner) == [1, 2] && RulesAfter(cx, Item(1, 0)) == [] && RulesAfter(cx, Item(2, 0)) == [3];
    assert AddRules(l1, [1, 2], 1) == [Inner, Item(1, 0)];
    assert AddRules(l3, [3], 0) == l3;
  }

  /** The closure of `A: a . A c` lists `B: .` last. */
  lemma ListingIs(cx: Context, k: seq<KItem>)
    requires Of(cx) && KernelOk(cx.g, k) && KernelList(k) == [Inner]
    ensures Listing(cx, k) == [Inner, Item(1, 0), Item(2, 0), Item(3, 0)]
  {
    StepsAre(cx);
    var l1, l3, l4 := [Inner], [Inner, Item(1, 0), Item(2, 0)], [Inner, Item(1, 0), Item(2, 0), Item(3, 0)];
    assert AllValid(cx.g, l1) && AllValid(cx.g, l3) && AllValid(cx.g, l4) && l3 + [Item(3, 0)] == l4;
    assert RulesAfter(cx, Item(3, 0)) == [];
    assert Step(cx, l4, Item(3, 0)) == l4;
    ExpandStep(cx, l1, 0);
    ExpandStep(cx, l3, 1);
    ExpandStep(cx, l3, 2);
    ExpandStep(cx, l4, 3);
  }

  lemma InnerOpens(k: set<Item>)
    requires WellFormed(G()) && k == {Inner}
    ensures Item(1, 0) in Clo(G(), k) && GotoSet(G(), Clo(G(), k), 4) == {Inner}
  {
    CloIsClosed(G(), k);
    assert Inner in Clo(G(), k) && First(G(), Inner) == Lhs(G(), 1);
    forall it | it in Clo(G(), k) && ValidItem(G(), it) && First(G(), it) == 4 ensures it == Item(1, 0) {
      OnA(it);
    }
  }

  lemma OneItem(k: seq<KItem>, it: Item)
    requires OneEach(k) && |k| > 0 && forall j :: 0 <= j < |k| ==> k[j].item == it
    ensures |k| == 1
  {
    var j := |k| - 1;
    assert k[j].item == k[0].item;
  }

  /** The state of `A: a . A c` has that item alone. */
  lemma InnerAlone(ks: seq<seq<KItem>>, s: int)
    requires WellFormed(G()) && KernelsOk(G(), ks) && 0 <= s < |ks| && Inner in KernelSet(ks[s])
    ensures s > 0 && Acc(G(), ks[s]) == 4 && KernelList(ks[s]) == [Inner] && KernelSet(ks[s]) == {Inner}
  {
    var k := ks[s];
    var i :| 0 <= i < |k| && k[i].item == Inner;
    assert StateOk(G(), ks, s);
    assert s > 0;
    assert Moved(G(), k[i].item, Acc(G(), k));
    forall j | 0 <= j < |k| ensures k[j].item == Inner {
      assert Moved(G(), k[j].item, 4);
      OnA(Before(k[j].item));
    }
    KernelsOneEach(G(), ks, s);
    OneItem(k, Inner);
  }

  lemma InnerLossy(cx: Context, ks: seq<seq<KItem>>, s: int)
    requires Of(cx) && KernelsOk(cx.g, ks) && 0 <= s < |ks| && Inner in KernelSet(ks[s])
    ensures Lossy(cx, ks[s])
  {
    InnerAlone(ks, s);
    InnerOpens(KernelSet(ks[s]));
    ListingIs(cx, ks[s]);
    assert LateAfter(cx, ks[s], 1, 3);
  }

  lemma OneInner(st: States, s: int, t: int)
    requires WellFormed(G()) && StatesOk(G(), st) && 0 <= s < |st.kernels| && 0 <= t < |st.kernels|
    requires Inner in KernelSet(st.kernels[s]) && Inner in KernelSet(st.kernels[t])
    ensures s == t
  {
    InnerAlone(st.kernels, s);
    InnerAlone(st.kernels, t);
    assert KernelList(st.kernels[s])[0] == KernelList(st.kernels[t])[0];
    assert SameCore(st.kernels[s], st.kernels[t]) && SameCore(st.kernels[t], st.kernels[s]);
  }

  // ---------------------------------------------------------------- who opens A

  /** `A: . a A c` is only in the closures of state 0 and of the state of `A: a . A c`. */
  lemma OpenedBy(ks: seq<seq<KItem>>, s: int)
    requires WellFormed(G()) && KernelsOk(G(), ks) && 0 <= s < |ks| && Item(1, 0) in CloOf(G(), ks[s])
    ensures s == 0 || Inner in KernelSet(ks[s])
  {
    var k := KernelSet(ks[s]);
    var it := CalledFor(G(), k, 1);
    OnA(it);
    if it == Item(0, 0) {
      var up := CalledFor(G(), k, 0);
      OnA(up);
    }
    if it == Item(-1, 1) { OnlyStart(ks, s); }
  }

  /** The first item is in the kernel of state 0 alone. */
  lemma OnlyStart(ks: seq<seq<KItem>>, s: int)
    requires WellFormed(G()) && KernelsOk(G(), ks) && 0 <= s < |ks| && Item(-1, 1) in CloOf(G(), ks[s])
    ensures s == 0
  {
    assert Item(-1, 1) in KernelSet(ks[s]);
    var i :| 0 <= i < |ks[s]| && ks[s][i].item == Item(-1, 1);
    assert StateOk(G(), ks, s);
  }

  /** From state 0 nothing carries c to `A: . a A c`. */
  lemma StartCarries(cx: Context)
    requires Of(cx) && KernelOk(cx.g, StartKernel)
    ensures 6 !in Carry(cx, StartKernel, Item(1, 0))
  {
    var w: map<Item, set<int>> := map[Item(-1, 1) := {}, Item(1, 0) := {1}, Item(2, 0) := {1}, Item(3, 0) := {5}];
    forall it, q | it in w && BeforeNonterminal(cx.g, it) && 0 <= q < |cx.g.prods| && First(cx.g, it) == Lhs(cx.g, q)
      ensures Item(q, 0) in w && Handed(cx, it, w[it]) <= w[Item(q, 0)]
    {
      assert it == Item(-1, 1) || it == Item(2, 0);
    }
    assert Over(cx, StartKernel, w);
    CarryBelow(cx, StartKernel, w, Item(1, 0));
  }

  // ---------------------------------------------------------------- the invariant

  /** c never reaches `A: a A . c`, nor, while it is marked, the state of `A: a . A c`; state 0 has one turn. */
  ghost predicate NoC(st: States) {
    && |st.tystate| == |st.kernels| >= 1
    && (forall s :: 0 <= s < |st.kernels| ==> 6 !in LookAt(st.kernels[s], Outer))
    && (forall s :: 0 <= s < |st.kernels| && st.tystate[s] == MUSTDO ==> 6 !in LookAt(st.kernels[s], Inner))
    && (st.tystate[0] == MUSTDO ==> |st.kernels| == 1)
  }

  lemma OuterStep(cx: Context, st: States, st': States, i: int, t: int)
    requires Of(cx) && Turns(cx, st, st', i) && NoC(st) && 0 <= t < |st'.kernels|
    ensures 6 !in LookAt(st'.kernels[t], Outer)
  {
    assert Receives(cx, st, st', i, t, Outer);
    if IsGoto(cx.g, st'.kernels, i, Acc(cx.g, st'.kernels[t]), t) && Outer in KernelSet(st'.kernels[t]) {
      SameCoreSameSet(st.kernels[i], st'.kernels[i]);
      assert Before(Outer) == Inner && Inner in CloOf(cx.g, st.kernels[i]);
      assert Inner in KernelSet(st.kernels[i]);
      KernelCarries(cx, st.kernels, i, Inner);
    }
  }

  /** Only from state 0 can the state of `A: a . A c` get anything but from itself. */
  lemma InnerFrom(cx: Context, st: States, st': States, i: int, t: int)
    requires Of(cx) && Turns(cx, st, st', i) && NoC(st) && 0 <= t < |st'.kernels| && t != i
    requires Inner in KernelSet(st'.kernels[t]) && IsGoto(cx.g, st'.kernels, i, Acc(cx.g, st'.kernels[t]), t)
    ensures i == 0 && t >= |st.kernels|
  {
    assert exists it :: it in CloOf(cx.g, st'.kernels[i]) && ValidItem(cx.g, it) && Item(it.p, it.off + 1) == Inner;
    OpenedBy(st'.kernels, i);
    if i > 0 { OneInner(st', i, t); }
    InnerAlone(st'.kernels, t);
  }

  /** The kernel of `A: a . A c` is its lookahead. */
  lemma InnerSame(ks: seq<seq<KItem>>, ks': seq<seq<KItem>>, t: int)
    requires WellFormed(G()) && KernelsOk(G(), ks) && KernelsOk(G(), ks') && 0 <= t < |ks| && t < |ks'|
    requires Inner in KernelSet(ks[t]) && Inner in KernelSet(ks'[t]) && LookAt(ks[t], Inner) == LookAt(ks'[t], Inner)
    ensures ks[t] == ks'[t]
  {
    InnerAlone(ks, t);
    InnerAlone(ks', t);
    assert KernelList(ks[t])[0] == Inner && KernelList(ks'[t])[0] == Inner;
    assert |KernelList(ks[t])| == |ks[t]| && |KernelList(ks'[t])| == |ks'[t]|;
    LookAtIs(ks[t], 0);
    LookAtIs(ks'[t], 0);
  }

  lemma InnerReceives(cx: Context, st: States, st': States, i: int, t: int)
    requires Of(cx) && Turns(cx, st, st', i) && NoC(st) && 0 <= t < |st'.kernels| && t != i
    requires Inner in KernelSet(st'.kernels[t]) && st'.tystate[t] == MUSTDO
    ensures 6 !in LookAt(st'.kernels[t], Inner)
  {
    assert MarkedAsGrown(st, st', t);
    assert Receives(cx, st, st', i, t, Inner);
    if IsGoto(cx.g, st'.kernels, i, Acc(cx.g, st'.kernels[t]), t) {
      InnerFrom(cx, st, st', i, t);
      assert StateOk(cx.g, st.kernels, 0);
      StartCarries(cx);
    } else if t < |st.kernels| {
      SameCoreSameSet(st.kernels[t], st'.kernels[t]);
      InnerSame(st.kernels, st'.kernels, t);
    }
  }

  lemma InnerStep(cx: Context, st: States, st': States, i: int, t: int)
    requires Of(cx) && Turns(cx, st, st', i) && NoC(st) && 0 <= t < |st'.kernels| && st'.tystate[t] == MUSTDO
    ensures 6 !in LookAt(st'.kernels[t], Inner)
  {
    if Inner in KernelSet(st'.kernels[t]) {
      SameCoreSameSet(st.kernels[i], st'.kernels[i]);
      assert t != i by {
        if t == i { InnerLossy(cx, st.kernels, i); }
      }
      InnerReceives(cx, st, st', i, t);
    }
  }

  lemma NoCStep(cx: Context, st: States, st': States, i: int)
    requires Of(cx) && Turns(cx, st, st', i) && NoC(st)
    ensures NoC(st')
  {
    forall t | 0 <= t < |st'.kernels|
      ensures 6 !in LookAt(st'.kernels[t], Outer)
      ensures st'.tystate[t] == MUSTDO ==> 6 !in LookAt(st'.kernels[t], Inner)
    {
      OuterStep(cx, st, st', i, t);
      if st'.tystate[t] == MUSTDO { InnerStep(cx, st, st', i, t); }
    }
    assert StateOk(cx.g, st.kernels, 0) && StateOk(cx.g, st'.kernels, 0);
    assert i > 0 ==> MarkedAsGrown(st, st', 0);
  }

  lemma {:induction false} RunNoC(cx: Context, run: seq<States>, n: nat)
    requires Of(cx) && IsRun(cx, run) && n < |run|
    ensures NoC(run[n])
  {
    if n == 0 {
      InitialOk(cx.g);
    } else {
      RunNoC(cx, run, n - 1);
      assert Next(cx, run[n - 1], run[n - 1 + 1]);
      var i :| Turns(cx, run[n - 1], run[n], i);
      NoCStep(cx, run[n - 1], run[n], i);
    }
  }

  // ---------------------------------------------------------------- what is lost

  /** Families closed over the automaton have c for `A: a A . c`. */
  lemma FamiliesHaveC(cx: Context, st: States, fam: Families, s: int, t: int)
    requires Of(cx) && StatesOk(cx.g, st) && LalrClosed(cx, st.kernels, fam) && 0 <= s < |st.kernels|
    requires Inner in KernelSet(st.kernels[s]) && IsGoto(cx.g, st.kernels, s, 4, s)
    requires IsGoto(cx.g, st.kernels, s, NTA, t)
    ensures Outer in fam[t] && 6 in fam[t][Outer]
  {
    var k := KernelSet(st.kernels[s]);
    InnerAlone(st.kernels, s);
    InnerOpens(k);
    assert Inner in fam[s] && BeforeNonterminal(cx.g, Inner) && First(cx.g, Inner) == Lhs(cx.g, 1);
    assert Handed(cx, Inner, fam[s][Inner]) == {6};
    assert Item(1, 0) in fam[s] && 6 in fam[s][Item(1, 0)];
    assert PassesOn(cx, st.kernels, fam, s, Item(1, 0), s);
    assert PassesOn(cx, st.kernels, fam, s, Inner, t);
  }

  /** The state with `A: a A . c`, without c. */
  ghost predicate Lost(cx: Context, st: States, t: int)
    requires Of(cx) && StatesOk(cx.g, st)
  {
    && 0 <= t < |st.kernels| && Outer in KernelSet(st.kernels[t]) && 6 !in LookAt(st.kernels[t], Outer)
    && forall fam :: LalrClosed(cx, st.kernels, fam) ==> Outer in fam[t] && 6 in fam[t][Outer]
  }

  lemma GotoOf(cx: Context, st: States, s: int, it: Item) returns (t: int)
    requires Of(cx) && StatesOk(cx.g, st) && 0 <= s < |st.kernels| && Complete(cx.g, st.kernels, s)
    requires it in CloOf(cx.g, st.kernels[s]) && ValidItem(cx.g, it) && First(cx.g, it) > 1
    ensures IsGoto(cx.g, st.kernels, s, First(cx.g, it), t) && Item(it.p, it.off + 1) in KernelSet(st.kernels[t])
  {
    assert HasGoto(cx.g, st.kernels, s, First(cx.g, it));
    t :| IsGoto(cx.g, st.kernels, s, First(cx.g, it), t);
  }

  ghost predicate AllDone(st: States)
    requires WellFormed(G()) && StatesOk(G(), st)
  {
    forall s :: 0 <= s < |st.kernels| ==> Complete(G(), st.kernels, s)
  }

  /** The state of `A: a . A c` is reached from state 0. */
  lemma InnerState(cx: Context, st: States) returns (s: int)
    requires Of(cx) && StatesOk(cx.g, st) && AllDone(st)
    ensures 0 <= s < |st.kernels| && Inner in KernelSet(st.kernels[s])
  {
    var ks := st.kernels;
    assert StateOk(cx.g, ks, 0);
    CloIsClosed(cx.g, KernelSet(ks[0]));
    assert ks[0][0].item in KernelSet(ks[0]);
    assert Item(-1, 1) in CloOf(cx.g, ks[0]) && First(cx.g, Item(-1, 1)) == Lhs(cx.g, 1);
    s := GotoOf(cx, st, 0, Item(1, 0));
  }

  /** It is its own goto on a, and its goto on A has `A: a A . c`. */
  lemma InnerGotos(cx: Context, st: States, s: int) returns (t: int)
    requires Of(cx) && StatesOk(cx.g, st) && AllDone(st) && 0 <= s < |st.kernels| && Inner in KernelSet(st.kernels[s])
    ensures IsGoto(cx.g, st.kernels, s, 4, s) && IsGoto(cx.g, st.kernels, s, NTA, t)
    ensures Outer in KernelSet(st.kernels[t])
  {
    InnerAlone(st.kernels, s);
    InnerOpens(KernelSet(st.kernels[s]));
    var own := GotoOf(cx, st, s, Item(1, 0));
    OneInner(st, s, own);
    t := GotoOf(cx, st, s, Inner);
  }

  /** Every finished run on the grammar has lost the lookahead. */
  lemma LookaheadLost(cx: Context, run: seq<States>, st: States)
    requires Of(cx) && IsRun(cx, run) && run[|run| - 1] == st && StatesOk(cx.g, st) && AllDone(st)
    ensures exists t :: Lost(cx, st, t)
  {
    RunNoC(cx, run, |run| - 1);
    var s := InnerState(cx, st);
    var t := InnerGotos(cx, st, s);
    forall fam | LalrClosed(cx, st.kernels, fam) ensures Outer in fam[t] && 6 in fam[t][Outer] {
      FamiliesHaveC(cx, st, fam, s, t);
    }
    assert Lost(cx, st, t);
  }

  // ---------------------------------------------------------------- there is such a run

  lemma FewStates(st: States)
    requires WellFormed(G()) && StatesOk(G(), st)
    ensures |st.kernels| <= 1025
  {
    var v := {Item(-1, 1), Item(-1, 2), Item(-1, 3), Item(0, 1), Item(0, 2), Item(1, 1), Item(1, 2), Item(1, 3),
              Item(2, 1), Item(2, 2)};
    StatesBound(G(), st, v);
    assert |v| <= 10;
    PowUp(|v|, 10);
    assert Pow2(10) == 1024;
  }

  lemma AllDerive()
    requires WellFormed(G())
    ensures forall n :: 0 <= n <= 2 ==> !HasNoProduction(G(), n)
    ensures forall n :: 1 <= n <= 2 ==> !Unproductive(G(), n)
  {
    var tb := Node(3, []);
    assert Lhs(G(), 0) == NTBASE && Lhs(G(), 1) == NTA && Lhs(G(), 2) == NTA && Lhs(G(), 3) == NTB;
    assert Rhs(G(), 2) == [NTB, 5] && Rhs(G(), 3) == [];
    MakeNode(G(), 3, []);
    MakeNode(G(), 2, [tb, Leaf(5)]);
  }

  /** `stagen` on the grammar, with an array of ACTSIZE cells: it ends, and the lookahead is lost. */
  method LoseLookahead() returns (cx: Context, st: States)
    ensures Of(cx) && StatesOk(cx.g, st) && exists t :: Lost(cx, st, t)
  {
    GOk();
    AllDerive();
    var v;
    v, cx := Prepare(G());
    var amem := new int[120000](_ => 0);
    var ok, indgo, at;
    ghost var run;
    ok, st, indgo, at, run := GenerateStates(cx, amem, 0);
    if !ok {
      FewStates(st);
      NotShort(cx.g, st, amem[..], at, 0 + RowCells(cx.g, at));
    }
    LookaheadLost(cx, run, st);
  }
}
