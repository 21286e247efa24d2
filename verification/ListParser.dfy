/** The parser generated for `S: S a | a;`, from the grammar to the strings it accepts. */
module ListParser {
  import opened Grammars
  import opened GrammarSets
  import opened Items
  import opened Closure
  import opened Automaton
  import opened Carrying
  import opened Spreading
  import opened Lalr
  import opened StateCount
  import opened StaGen
  import opened Placement
  import opened Capacity
  import opened Engine
  import opened Conflicts
  import opened Generator
  import opened Recognition

  const NTS := NTBASE + 1

  function L(): Grammar {
    Grammar(4, 1, [[NTBASE, NTS, 1, 0], [NTS, NTS, 4, -1], [NTS, 4, -2]])
  }

  lemma LOk()
    ensures WellFormed(L())
  {
  }

  // ---------------------------------------------------------------- the language

  predicate IsList(input: seq<int>) {
    input != [] && forall k :: 0 <= k < |input| ==> input[k] == 4
  }

  lemma Sides()
    requires WellFormed(L())
    ensures Lhs(L(), 0) == NTBASE && Lhs(L(), 1) == NTS && Lhs(L(), 2) == NTS
    ensures Rhs(L(), 1) == [NTS, 4] && Rhs(L(), 2) == [4]
  {
  }

  lemma {:induction false} TreeOf(input: seq<int>) returns (t: Tree)
    requires WellFormed(L()) && IsList(input)
    ensures DerivationOf(L(), t, NTS, input)
    decreases |input|
  {
    Sides();
    var n := |input| - 1;
    if n == 0 {
      MakeNode(L(), 2, [Leaf(4)]);
      YieldOne(Leaf(4));
      t := Node(2, [Leaf(4)]);
      assert input == [4];
    } else {
      var front := TreeOf(input[..n]);
      MakeNode(L(), 1, [front, Leaf(4)]);
      YieldConcat([front], [Leaf(4)]);
      YieldOne(front);
      YieldOne(Leaf(4));
      assert [front] + [Leaf(4)] == [front, Leaf(4)];
      t := Node(1, [front, Leaf(4)]);
      assert input == input[..n] + [4];
    }
  }

  lemma {:induction false} YieldIsList(t: Tree)
    requires WellFormed(L()) && ValidTree(L(), t) && Root(L(), t) == NTS
    ensures IsList(Yield(t))
    decreases t
  {
    Sides();
    RootIsSymbol(L(), t);
    if t.prod == 1 {
      var front, last := t.kids[0], t.kids[1];
      YieldIsList(front);
      assert t.kids == [front] + [last];
      YieldConcat([front], [last]);
      YieldOne(front);
      YieldOne(last);
      RootIsSymbol(L(), last);
    } else {
      assert t.kids == [t.kids[0]];
      YieldOne(t.kids[0]);
      RootIsSymbol(L(), t.kids[0]);
    }
  }

  lemma DerivesLists(input: seq<int>)
    requires WellFormed(L())
    ensures Derives(L(), NTS, input) <==> IsList(input)
  {
    if IsList(input) { var t := TreeOf(input); }
    if t :| DerivationOf(L(), t, NTS, input) { YieldIsList(t); }
  }

  // ---------------------------------------------------------------- the automaton

  const C0: set<Item> := {Item(-1, 1)}
  const C1: set<Item> := {Item(-1, 2), Item(1, 1)}
  const C2: set<Item> := {Item(2, 1)}
  const C3: set<Item> := {Item(1, 2)}

  ghost predicate Known(c: set<Item>) {
    c == C0 || c == C1 || c == C2 || c == C3
  }

  lemma Closures()
    requires WellFormed(L())
    ensures Clo(L(), C0) <= {Item(-1, 1), Item(1, 0), Item(2, 0)}
    ensures Clo(L(), C1) == C1 && Clo(L(), C2) == C2 && Clo(L(), C3) == C3
  {
    var c0 := {Item(-1, 1), Item(1, 0), Item(2, 0)};
    assert ItemsClosed(L(), c0) && ItemsClosed(L(), C1) && ItemsClosed(L(), C2) && ItemsClosed(L(), C3);
    CloLeast(L(), C0, c0);
    CloLeast(L(), C1, C1);
    CloLeast(L(), C2, C2);
    CloLeast(L(), C3, C3);
  }

  lemma StartCloses()
    requires WellFormed(L())
    ensures Clo(L(), C0) == {Item(-1, 1), Item(1, 0), Item(2, 0)}
  {
    Closures();
    CloIsClosed(L(), C0);
    assert Item(-1, 1) in Clo(L(), C0) && First(L(), Item(-1, 1)) == NTS == Lhs(L(), 1) == Lhs(L(), 2);
  }

  lemma StartGotos(x: int)
    requires WellFormed(L())
    ensures var c := {Item(-1, 1), Item(1, 0), Item(2, 0)};
            GotoSet(L(), c, x) == if x == NTS then {Item(-1, 2), Item(1, 1)} else if x == 4 then {Item(2, 1)} else {}
  {
  }

  lemma OtherGotos(x: int)
    requires WellFormed(L()) && x > 1
    ensures GotoSet(L(), C1, x) == if x == 4 then C3 else {}
    ensures GotoSet(L(), C2, x) == {} && GotoSet(L(), C3, x) == {}
  {
  }

  /** The gotos of the known cores are known. */
  lemma GotosKnown(c: set<Item>, x: int)
    requires WellFormed(L()) && Known(c) && x > 1 && GotoSet(L(), Clo(L(), c), x) != {}
    ensures Known(GotoSet(L(), Clo(L(), c), x))
  {
    Closures();
    StartCloses();
    StartGotos(x);
    OtherGotos(x);
  }

  lemma {:induction false} CoreKnown(ks: seq<seq<KItem>>, t: int)
    requires WellFormed(L()) && KernelsOk(L(), ks) && 0 <= t < |ks|
    requires forall s :: 0 < s < |ks| ==> Reached(L(), ks, s)
    ensures Known(KernelSet(ks[t]))
    decreases t
  {
    if t == 0 {
      StartKernelSet(L(), ks);
    } else {
      assert Reached(L(), ks, t);
      var s :| 0 <= s < t && MadeBy(L(), ks, s, t);
      CoreKnown(ks, s);
      assert KernelSet(ks[t]) == GotoSet(L(), Clo(L(), KernelSet(ks[s])), Acc(L(), ks[t]));
      assert StateOk(L(), ks, t);
      assert ks[t][0].item in KernelSet(ks[t]);
      GotosKnown(KernelSet(ks[s]), Acc(L(), ks[t]));
    }
  }

  /** What is finished in a known closure. */
  lemma Finished(c: set<Item>, it: Item)
    requires WellFormed(L()) && Known(c) && it in Clo(L(), c) && ValidItem(L(), it) && First(L(), it) <= 0
    ensures Clo(L(), c) == {it} && c != C0 && c != C1
  {
    Closures();
    StartCloses();
  }

  /** A state that reduces has nothing else to do. */
  lemma OneThing(cx: Context, ks: seq<seq<KItem>>, s: int, t: int)
    requires ContextOk(cx) && cx.g == L() && KernelsOk(L(), ks) && 0 <= s < |ks| && Known(KernelSet(ks[s]))
    requires s == 1 ==> KernelSet(ks[s]) == C1
    ensures Undisputed(cx, ks, s, t)
  {
    forall it | ReducesOn(cx, ks, s, it, t)
      ensures !ShiftsOn(cx.g, ks, s, t) && forall it' :: ReducesOn(cx, ks, s, it', t) ==> it' == it
    {
      Finished(KernelSet(ks[s]), it);
    }
  }

  lemma StateOne(st: States)
    requires WellFormed(L()) && StatesOk(L(), st) && 1 < |st.kernels|
    requires IsGoto(L(), st.kernels, 0, NTS, 1) && Known(KernelSet(st.kernels[1]))
    ensures KernelSet(st.kernels[1]) == C1
  {
    StartKernelSet(L(), st.kernels);
    assert Item(-1, 1) in Clo(L(), C0) && First(L(), Item(-1, 1)) == NTS;
    assert Item(-1, 2) in KernelSet(st.kernels[1]);
  }

  lemma AllKnown(src: Source, s: int)
    requires SourceOk(src) && src.cx.g == L() && 0 <= s < |src.st.kernels|
    ensures Known(KernelSet(src.st.kernels[s]))
    ensures s == 1 ==> KernelSet(src.st.kernels[s]) == C1
  {
    CoreKnown(src.st.kernels, s);
    if s == 1 { StateOne(src.st); }
  }

  lemma ListsFree(src: Source)
    requires SourceOk(src) && src.cx.g == L()
    ensures ConflictFree(src.cx, src.st.kernels)
  {
    var ks := src.st.kernels;
    forall s, t | 0 <= s < |ks| && 1 <= t <= src.cx.g.ntokens ensures Undisputed(src.cx, ks, s, t) {
      AllKnown(src, s);
      OneThing(src.cx, ks, s, t);
    }
  }

  /** The automaton is clean. */
  lemma ListsClean(src: Source)
    requires SourceOk(src) && src.cx.g == L()
    ensures Clean(src)
  {
    var ks := src.st.kernels;
    ListsFree(src);
    NothingLate();
    forall s | 0 <= s < |ks| ensures !Lossy(src.cx, ks[s]) { NoLateNoLoss(src.cx, ks[s]); }
  }

  lemma NothingLate()
    requires WellFormed(L())
    ensures forall q :: !LateAt(L(), q)
  {
  }

  // ---------------------------------------------------------------- the run

  lemma FewStates(st: States)
    requires WellFormed(L()) && StatesOk(L(), st) && forall s :: 0 < s < |st.kernels| ==> Reached(L(), st.kernels, s)
    ensures |st.kernels| <= 5
  {
    var q := Cores(st.kernels);
    var known: set<set<Item>> := {C0, C1, C2, C3};
    CoresDistinct(L(), st);
    CountApart(q);
    forall y | y in Range(q) ensures y in known {
      var i :| 0 <= i < |q| && q[i] == y;
      CoreKnown(st.kernels, i + 1);
    }
    SubsetSize(Range(q), known);
  }

  lemma SomeStates(st: States)
    requires WellFormed(L()) && StatesOk(L(), st)
    ensures |st.kernels| <= 257
  {
    var v := {Item(-1, 1), Item(-1, 2), Item(-1, 3), Item(0, 1), Item(0, 2), Item(1, 1), Item(1, 2), Item(2, 1)};
    StatesBound(L(), st, v);
    assert |v| <= 8;
    PowUp(|v|, 8);
    assert Pow2(8) == 256;
  }

  lemma AllDerive()
    requires WellFormed(L())
    ensures forall n :: 0 <= n <= 1 ==> !HasNoProduction(L(), n)
    ensures !Unproductive(L(), 1)
  {
    Sides();
    var t := TreeOf([4]);
  }

  lemma StatesSuffice(st: States, a: seq<int>, at: nat)
    requires WellFormed(L()) && |a| == 120000 && FreePast(L(), a, 0, at)
    ensures !Short(L(), st, a, at)
  {
    if Short(L(), st, a, at) {
      SomeStates(st);
      if at < |st.kernels| {
        assert RowCells(L(), at) == at;
        NotShort(L(), st, a, at, 0 + RowCells(L(), at));
      }
    }
  }

  lemma CellsSuffice(src: Source, m: Product, i: int)
    requires Filled(src, m) && src.cx.g == L() && |m.a| == 120000 && IsRow(m.rows, i)
    ensures !NoFit(m.rows, m.a, m.pk, i)
  {
    FewStates(src.st);
    FewCells(|src.st.kernels|);
    CellsEnough(src, m, i);
  }

  lemma FewCells(nstate: nat)
    requires nstate <= 5
    ensures CellsNeeded(L(), nstate) < 120000
  {
    TimesGrows(nstate + 2, 2 * (nstate + 5), 7, 20);
    TimesIs(7, 20);
  }

  /** Nothing stops a run on this grammar. */
  lemma Finishes(v: Ending, src: Source, m: Product, a: seq<int>)
    requires WellFormed(L()) && GrammarEnding(L(), v) && |a| == 120000
    requires v.NoStates? ==> Short(L(), src.st, a, v.at) && FreePast(L(), a, 0, v.at)
    requires v.NoCells? ==> src.cx.g == L() && Filled(src, m) && m.a == a
    requires v.NoCells? ==> IsNext(m.rows, m.sdone, m.gdone, v.row) && NoFit(m.rows, a, m.pk, v.row)
    ensures v.Finished?
  {
    AllDerive();
    if v.NoStates? { StatesSuffice(src.st, a, v.at); }
    if v.NoCells? { CellsSuffice(src, m, v.row); }
  }

  /** The whole of goyacc on this grammar: the parser it makes accepts one or more a's, and nothing else. */
  method RecognizeLists() returns (p: Parser)
    ensures ParserOk(p)
    ensures forall input :: InputOk(L(), input) && END_TOKEN !in input ==>
              ((exists n: nat :: Run(p, input, n).Accepted?) <==> IsList(input))
  {
    LOk();
    var amem := new int[120000](_ => 0);
    var v;
    ghost var src, m;
    v, p, src, m := Generate(L(), [0, 0, 0], [0, 0, 0, 0, 0], amem, 0);
    Finishes(v, src, m, amem[..]);
    ListsClean(src);
    LowTokens(src, m);
    EmitFaithful(src, m);
    forall input | InputOk(L(), input) && END_TOKEN !in input
      ensures (exists n: nat :: Run(p, input, n).Accepted?) <==> IsList(input)
    {
      GeneratedParserDecides(src, m, input);
      DerivesLists(input);
    }
  }
}
