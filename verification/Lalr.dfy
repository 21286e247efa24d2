/** Runs of `stagen`: the lookaheads over the whole automaton. */
module Lalr {
  import opened Grammars
  import opened Items
  import opened ClosureOrder
  import opened Closure
  import opened Automaton
  import opened Carrying
  import opened StateGen
  import opened Spreading

  // ---------------------------------------------------------------- runs

  /** The states `stagen` starts from. */
  function InitialStates(g: Grammar): States {
    States([StartKernel], [MUSTDO], seq(g.ntokens + 1, _ => 0), seq(g.nnonter + 1, _ => 0), [0])
  }

  lemma InitialOk(g: Grammar)
    requires WellFormed(g)
    ensures StatesOk(g, InitialStates(g))
  {
    var st := InitialStates(g);
    assert WfProd(g, 0, g.prods[0]);
    assert StateOk(g, st.kernels, 0) && KernelOk(g, st.kernels[0]);
  }

  /** State i, marked, has its turn. */
  ghost predicate Turns(cx: Context, st: States, st': States, i: int)
    requires ContextOk(cx)
  {
    && StatesOk(cx.g, st) && StatesOk(cx.g, st') && Worked(cx, st, st', i)
    && st.tystate[i] == MUSTDO && Complete(cx.g, st'.kernels, i)
  }

  ghost predicate Next(cx: Context, st: States, st': States)
    requires ContextOk(cx)
  {
    exists i :: Turns(cx, st, st', i)
  }

  /** A run of `stagen`: turns of marked states, one after another. */
  ghost predicate IsRun(cx: Context, run: seq<States>)
    requires ContextOk(cx)
  {
    && |run| >= 1 && run[0] == InitialStates(cx.g)
    && (forall n :: 0 <= n < |run| - 1 ==> Next(cx, run[n], run[n + 1]))
  }

  lemma RunExtends(cx: Context, run: seq<States>, st: States)
    requires ContextOk(cx) && IsRun(cx, run) && Next(cx, run[|run| - 1], st)
    ensures IsRun(cx, run + [st])
  {
    var run' := run + [st];
    forall n | 0 <= n < |run'| - 1 ensures Next(cx, run'[n], run'[n + 1]) {
      if n < |run| - 1 { assert Next(cx, run[n], run[n + 1]); }
    }
  }

  // ---------------------------------------------------------------- marks

  /** A state that is not to be done needs lookahead iff its closure has late productions. */
  ghost predicate MarkExact(g: Grammar, st: States, s: int)
    requires WellFormed(g) && StatesOk(g, st) && 0 <= s < |st.kernels|
  {
    st.tystate[s] != MUSTDO ==> (st.tystate[s] == MUSTLOOKAHEAD <==> Late(g, st.kernels[s]))
  }

  lemma MarkExactStep(cx: Context, st: States, st': States, i: int, s: int)
    requires ContextOk(cx) && Turns(cx, st, st', i) && 0 <= s < |st'.kernels|
    requires s < |st.kernels| ==> MarkExact(cx.g, st, s)
    ensures MarkExact(cx.g, st', s)
  {
    if s == i {
      CoreDecides(cx, st.kernels[i], st'.kernels[i]);
    } else {
      assert MarkedAsGrown(st, st', s);
    }
  }

  // ---------------------------------------------------------------- what is carried arrives

  /** The goto over the symbol after the dot of `it` has at least what `it` carries. */
  ghost predicate CarriedTo(cx: Context, ks: seq<seq<KItem>>, s: int, it: Item, t: int)
    requires ContextOk(cx) && KernelsOk(cx.g, ks) && 0 <= s < |ks| && ValidItem(cx.g, it)
  {
    IsGoto(cx.g, ks, s, First(cx.g, it), t) && Carry(cx, ks[s], it) <= LookAt(ks[t], Item(it.p, it.off + 1))
  }

  /** All that the closure of s carries is in the kernels of its gotos. */
  ghost predicate CarriesOn(cx: Context, ks: seq<seq<KItem>>, s: int)
    requires ContextOk(cx) && KernelsOk(cx.g, ks) && 0 <= s < |ks|
  {
    forall it :: it in CloOf(cx.g, ks[s]) && ValidItem(cx.g, it) && First(cx.g, it) > 1 ==>
      exists t :: CarriedTo(cx, ks, s, it, t)
  }

  ghost predicate SettledAt(cx: Context, st: States, s: int)
    requires ContextOk(cx) && StatesOk(cx.g, st) && 0 <= s < |st.kernels|
  {
    st.tystate[s] != MUSTDO && !Lossy(cx, st.kernels[s]) ==> CarriesOn(cx, st.kernels, s)
  }

  lemma LooksGrow(cx: Context, st: States, st': States, i: int, t: int, it: Item)
    requires ContextOk(cx) && StatesOk(cx.g, st) && StatesOk(cx.g, st') && Worked(cx, st, st', i)
    requires 0 <= t < |st.kernels|
    ensures LookAt(st.kernels[t], it) <= LookAt(st'.kernels[t], it)
  {
    assert Receives(cx, st, st', i, t, it);
  }

  /** A state whose kernel stood through its turn carries on. */
  lemma TurnCarries(cx: Context, st: States, st': States, i: int)
    requires ContextOk(cx) && Turns(cx, st, st', i) && st'.kernels[i] == st.kernels[i]
    ensures CarriesOn(cx, st'.kernels, i)
  {
    var ks := st'.kernels;
    forall it | it in CloOf(cx.g, ks[i]) && ValidItem(cx.g, it) && First(cx.g, it) > 1
      ensures exists t :: CarriedTo(cx, ks, i, it, t)
    {
      var t :| IsGoto(cx.g, ks, i, First(cx.g, it), t);
      GotoAcc(cx.g, ks, i, First(cx.g, it), t);
      var it' := Item(it.p, it.off + 1);
      assert it' in KernelSet(ks[t]) && Before(it') == it;
      assert Receives(cx, st, st', i, t, it');
      assert CarriedTo(cx, ks, i, it, t);
    }
  }

  /** It goes on doing so while it stands. */
  lemma StillCarries(cx: Context, st: States, st': States, i: int, s: int)
    requires ContextOk(cx) && Turns(cx, st, st', i) && 0 <= s < |st.kernels| && st'.kernels[s] == st.kernels[s]
    requires CarriesOn(cx, st.kernels, s)
    ensures CarriesOn(cx, st'.kernels, s)
  {
    var ks, ks' := st.kernels, st'.kernels;
    forall it | it in CloOf(cx.g, ks'[s]) && ValidItem(cx.g, it) && First(cx.g, it) > 1
      ensures exists t :: CarriedTo(cx, ks', s, it, t)
    {
      var t :| CarriedTo(cx, ks, s, it, t);
      IsGotoExt(cx.g, ks, ks', s, First(cx.g, it), t);
      LooksGrow(cx, st, st', i, t, Item(it.p, it.off + 1));
      assert CarriedTo(cx, ks', s, it, t);
    }
  }

  lemma SettledStep(cx: Context, st: States, st': States, i: int, s: int)
    requires ContextOk(cx) && Turns(cx, st, st', i) && 0 <= s < |st'.kernels|
    requires s < |st.kernels| ==> SettledAt(cx, st, s)
    ensures SettledAt(cx, st', s)
  {
    if st'.tystate[s] != MUSTDO && !Lossy(cx, st'.kernels[s]) {
      if s == i {
        CoreDecides(cx, st.kernels[i], st'.kernels[i]);
        TurnCarries(cx, st, st', i);
      } else {
        assert MarkedAsGrown(st, st', s);
        StillCarries(cx, st, st', i, s);
      }
    }
  }

  // ---------------------------------------------------------------- families over the whole automaton

  /** Lookaheads for the closure items of every state. */
  type Families = seq<map<Item, set<int>>>

  /** What the family of s has for an item is in that of its goto for the item moved. */
  ghost predicate PassesOn(cx: Context, ks: seq<seq<KItem>>, fam: Families, s: int, it: Item, t: int)
    requires ContextOk(cx) && KernelsOk(cx.g, ks) && |fam| == |ks| && 0 <= s < |ks| && ValidItem(cx.g, it)
  {
    var it' := Item(it.p, it.off + 1);
    IsGoto(cx.g, ks, s, First(cx.g, it), t) && it in CloOf(cx.g, ks[s]) && First(cx.g, it) > 1 && it in fam[s] ==>
      it' in fam[t] && fam[s][it] <= fam[t][it']
  }

  /** The families are closed under the closure of every state and under every goto. It is a matter of cores. */
  ghost predicate LalrClosed(cx: Context, ks: seq<seq<KItem>>, fam: Families)
    requires ContextOk(cx) && KernelsOk(cx.g, ks)
  {
    && |fam| == |ks|
    && (forall s :: 0 <= s < |ks| ==> Lr1Closed(cx, fam[s]) && KernelSet(ks[s]) <= fam[s].Keys)
    && (forall s, it, t :: 0 <= s < |ks| && ValidItem(cx.g, it) ==> PassesOn(cx, ks, fam, s, it, t))
  }

  ghost predicate LooksIn(ks: seq<seq<KItem>>, fam: Families, s: int, it: Item)
    requires 0 <= s < |ks| <= |fam|
  {
    it in KernelSet(ks[s]) ==> it in fam[s] && LookAt(ks[s], it) <= fam[s][it]
  }

  /** The lookaheads of all kernels are in the families. */
  ghost predicate Within(ks: seq<seq<KItem>>, fam: Families) {
    |ks| <= |fam| && forall s, it :: 0 <= s < |ks| ==> LooksIn(ks, fam, s, it)
  }

  /** No lookahead is there without need: closed families over whatever automaton is to come have it. */
  ghost predicate Justified(cx: Context, ks: seq<seq<KItem>>)
    requires ContextOk(cx)
  {
    forall ks', fam :: KernelsOk(cx.g, ks') && CoreExt(ks, ks') && LalrClosed(cx, ks', fam) ==> Within(ks, fam)
  }

  lemma WithinOver(cx: Context, ks: seq<seq<KItem>>, fam: Families, s: int)
    requires ContextOk(cx) && KernelsOk(cx.g, ks) && 0 <= s < |ks| && Within(ks, fam) && Lr1Closed(cx, fam[s])
    requires OneEach(ks[s])
    ensures Over(cx, ks[s], fam[s])
  {
    var k := ks[s];
    forall j | 0 <= j < |k| ensures k[j].item in fam[s] && k[j].look <= fam[s][k[j].item] {
      assert k[j].item in KernelSet(k);
      assert LooksIn(ks, fam, s, k[j].item);
      LookAtIs(k, j);
    }
  }

  lemma KernelsOneEach(g: Grammar, ks: seq<seq<KItem>>, s: int)
    requires WellFormed(g) && KernelsOk(g, ks) && 0 <= s < |ks|
    ensures OneEach(ks[s])
  {
    assert StateOk(g, ks, s);
    forall i, j | 0 <= i < j < |ks[s]| ensures ks[s][i].item != ks[s][j].item {
      assert s > 0 ==> Less(ks[s][i].item, ks[s][j].item);
    }
  }

  /** What is carried is in every closed family that has the kernels. */
  lemma CarriedBelow(cx: Context, ks: seq<seq<KItem>>, fam: Families, s: int, it: Item)
    requires ContextOk(cx) && KernelsOk(cx.g, ks) && 0 <= s < |ks| && Within(ks, fam) && Lr1Closed(cx, fam[s])
    requires it in CloOf(cx.g, ks[s])
    ensures it in fam[s] && Carry(cx, ks[s], it) <= fam[s][it]
  {
    KernelsOneEach(cx.g, ks, s);
    WithinOver(cx, ks, fam, s);
    OverHasItems(cx, ks[s], fam[s], it);
    CarryBelow(cx, ks[s], fam[s], it);
  }

  /** The item that a goto has moved. */
  lemma MovedFrom(g: Grammar, ks: seq<seq<KItem>>, i: int, t: int, it: Item)
    requires WellFormed(g) && KernelsOk(g, ks) && 0 <= i < |ks| && 0 <= t < |ks| && it in KernelSet(ks[t])
    requires IsGoto(g, ks, i, Acc(g, ks[t]), t)
    ensures Before(it) in CloOf(g, ks[i]) && ValidItem(g, Before(it)) && First(g, Before(it)) == Acc(g, ks[t]) > 1
    ensures Item(Before(it).p, Before(it).off + 1) == it
  {
    var it0 :| it0 in CloOf(g, ks[i]) && ValidItem(g, it0) && First(g, it0) == Acc(g, ks[t])
               && Item(it0.p, it0.off + 1) == it;
    assert it0 == Before(it);
    assert StateOk(g, ks, t);
  }

  /** What is received is in the families. */
  lemma ReceivedWithin(cx: Context, ks0: seq<seq<KItem>>, ks1: seq<seq<KItem>>, i: int, t: int, it: Item,
                       ks: seq<seq<KItem>>, fam: Families)
    requires ContextOk(cx) && KernelsOk(cx.g, ks0) && KernelsOk(cx.g, ks1) && KernelsOk(cx.g, ks) && |fam| == |ks|
    requires CoreExt(ks0, ks1) && CoreExt(ks1, ks) && Within(ks0, fam)
    requires 0 <= i < |ks0| && 0 <= t < |ks1| && it in KernelSet(ks1[t]) && IsGoto(cx.g, ks1, i, Acc(cx.g, ks1[t]), t)
    requires Lr1Closed(cx, fam[i]) && (ValidItem(cx.g, Before(it)) ==> PassesOn(cx, ks, fam, i, Before(it), t))
    ensures it in fam[t] && Carry(cx, ks0[i], Before(it)) <= fam[t][it]
  {
    MovedFrom(cx.g, ks1, i, t, it);
    IsGotoExt(cx.g, ks1, ks, i, Acc(cx.g, ks1[t]), t);
    CloOfSame(cx.g, ks0[i], ks1[i]);
    CloOfSame(cx.g, ks1[i], ks[i]);
    CarriedBelow(cx, ks0, fam, i, Before(it));
  }

  lemma CloOfSame(g: Grammar, k: seq<KItem>, k': seq<KItem>)
    requires WellFormed(g) && KernelOk(g, k) && KernelOk(g, k') && SameCore(k, k')
    ensures CloOf(g, k) == CloOf(g, k')
  {
    SameCoreSameSet(k, k');
  }

  /** The turn of state i keeps the lookahead of an item within the families. */
  lemma StaysWithin(cx: Context, st: States, st': States, i: int, t: int, it: Item, ks: seq<seq<KItem>>, fam: Families)
    requires ContextOk(cx) && StatesOk(cx.g, st) && StatesOk(cx.g, st') && Worked(cx, st, st', i)
    requires 0 <= t < |st'.kernels| && it in KernelSet(st'.kernels[t])
    requires KernelsOk(cx.g, ks) && CoreExt(st'.kernels, ks) && LalrClosed(cx, ks, fam) && Within(st.kernels, fam)
    ensures it in fam[t] && LookAt(st'.kernels[t], it) <= fam[t][it]
  {
    assert Receives(cx, st, st', i, t, it);
    SameCoreSameSet(st'.kernels[t], ks[t]);
    if t < |st.kernels| {
      SameCoreSameSet(st.kernels[t], st'.kernels[t]);
      assert LooksIn(st.kernels, fam, t, it);
    }
    if IsGoto(cx.g, st'.kernels, i, Acc(cx.g, st'.kernels[t]), t) {
      ReceivedWithin(cx, st.kernels, st'.kernels, i, t, it, ks, fam);
    }
  }

  lemma JustifiedStep(cx: Context, st: States, st': States, i: int)
    requires ContextOk(cx) && Turns(cx, st, st', i) && Justified(cx, st.kernels)
    ensures Justified(cx, st'.kernels)
  {
    forall ks, fam | KernelsOk(cx.g, ks) && CoreExt(st'.kernels, ks) && LalrClosed(cx, ks, fam)
      ensures Within(st'.kernels, fam)
    {
      CoreExtTrans(st.kernels, st'.kernels, ks);
      assert Within(st.kernels, fam);
      forall t, it | 0 <= t < |st'.kernels| ensures LooksIn(st'.kernels, fam, t, it) {
        if it in KernelSet(st'.kernels[t]) { StaysWithin(cx, st, st', i, t, it, ks, fam); }
      }
    }
  }

  lemma JustifiedStart(cx: Context)
    requires ContextOk(cx)
    ensures Justified(cx, InitialStates(cx.g).kernels)
  {
    var ks := InitialStates(cx.g).kernels;
    forall ks', fam | KernelsOk(cx.g, ks') && CoreExt(ks, ks') && LalrClosed(cx, ks', fam) ensures Within(ks, fam) {
      SameCoreSameSet(ks[0], ks'[0]);
      forall it ensures LooksIn(ks, fam, 0, it) {
        assert LookAt(ks[0], it) == {};
      }
    }
  }

  // ---------------------------------------------------------------- where states come from

  /** State t is a goto of a state before it. */
  ghost predicate Reached(g: Grammar, ks: seq<seq<KItem>>, t: int)
    requires WellFormed(g) && KernelsOk(g, ks) && 0 <= t < |ks|
  {
    exists s :: 0 <= s < t && MadeBy(g, ks, s, t)
  }

  lemma ReachedStep(cx: Context, st: States, st': States, i: int, t: int)
    requires ContextOk(cx) && Turns(cx, st, st', i) && 0 < t < |st'.kernels|
    requires t < |st.kernels| ==> Reached(cx.g, st.kernels, t)
    ensures Reached(cx.g, st'.kernels, t)
  {
    if t < |st.kernels| {
      var s :| 0 <= s < t && MadeBy(cx.g, st.kernels, s, t);
      SameCoreAcc(cx.g, st.kernels[t], st'.kernels[t]);
      IsGotoExt(cx.g, st.kernels, st'.kernels, s, Acc(cx.g, st.kernels[t]), t);
      assert MadeBy(cx.g, st'.kernels, s, t);
    } else {
      assert MadeBy(cx.g, st'.kernels, i, t);
    }
  }

  // ---------------------------------------------------------------- whole runs

  /** What holds of the states throughout a run. */
  ghost predicate Upheld(cx: Context, st: States)
    requires ContextOk(cx)
  {
    && StatesOk(cx.g, st) && Justified(cx, st.kernels)
    && (forall s :: 0 <= s < |st.kernels| ==> MarkExact(cx.g, st, s))
    && (forall s :: 0 <= s < |st.kernels| ==> SettledAt(cx, st, s))
    && (forall t :: 0 < t < |st.kernels| ==> Reached(cx.g, st.kernels, t))
  }

  lemma UpheldStart(cx: Context)
    requires ContextOk(cx)
    ensures Upheld(cx, InitialStates(cx.g))
  {
    InitialOk(cx.g);
    JustifiedStart(cx);
  }

  lemma UpheldStep(cx: Context, st: States, st': States)
    requires ContextOk(cx) && Upheld(cx, st) && Next(cx, st, st')
    ensures Upheld(cx, st')
  {
    var i :| Turns(cx, st, st', i);
    JustifiedStep(cx, st, st', i);
    forall s | 0 <= s < |st'.kernels| ensures MarkExact(cx.g, st', s) && SettledAt(cx, st', s) {
      MarkExactStep(cx, st, st', i, s);
      SettledStep(cx, st, st', i, s);
    }
    forall t | 0 < t < |st'.kernels| ensures Reached(cx.g, st'.kernels, t) { ReachedStep(cx, st, st', i, t); }
  }

  lemma {:induction false} RunUpholds(cx: Context, run: seq<States>, n: nat)
    requires ContextOk(cx) && IsRun(cx, run) && n < |run|
    ensures Upheld(cx, run[n])
  {
    if n == 0 {
      UpheldStart(cx);
    } else {
      RunUpholds(cx, run, n - 1);
      assert Next(cx, run[n - 1], run[n - 1 + 1]);
      UpheldStep(cx, run[n - 1], run[n]);
    }
  }

  // ---------------------------------------------------------------- the end of a run

  /** The finished lookaheads: every state needs lookahead iff it has late productions, what a state carries has
      arrived in its gotos unless the order of its closure lost its mark, no closed family has less, and every state is
      a goto of one before it. */
  ghost predicate Looked(cx: Context, st: States)
    requires ContextOk(cx)
  {
    && StatesOk(cx.g, st)
    && (forall s :: 0 <= s < |st.kernels| ==> (st.tystate[s] == MUSTLOOKAHEAD <==> Late(cx.g, st.kernels[s])))
    && (forall s :: 0 <= s < |st.kernels| && !Lossy(cx, st.kernels[s]) ==> CarriesOn(cx, st.kernels, s))
    && (forall fam :: LalrClosed(cx, st.kernels, fam) ==> Within(st.kernels, fam))
    && (forall t :: 0 < t < |st.kernels| ==> Reached(cx.g, st.kernels, t))
  }

  lemma NothingMarked(cx: Context, st: States, s: int)
    requires ContextOk(cx) && Upheld(cx, st) && MustDo(st) == {} && 0 <= s < |st.kernels|
    ensures st.tystate[s] == MUSTLOOKAHEAD <==> Late(cx.g, st.kernels[s])
    ensures !Lossy(cx, st.kernels[s]) ==> CarriesOn(cx, st.kernels, s)
  {
    assert s !in MustDo(st);
    assert MarkExact(cx.g, st, s) && SettledAt(cx, st, s);
  }

  lemma JustifiedNow(cx: Context, ks: seq<seq<KItem>>, fam: Families)
    requires ContextOk(cx) && KernelsOk(cx.g, ks) && Justified(cx, ks) && LalrClosed(cx, ks, fam)
    ensures Within(ks, fam)
  {
    forall s | 0 <= s < |ks| ensures SameCore(ks[s], ks[s]) {}
    assert CoreExt(ks, ks);
  }

  /** Every run that ends with nothing marked ends so. */
  lemma RunEnds(cx: Context, run: seq<States>)
    requires ContextOk(cx) && IsRun(cx, run) && MustDo(run[|run| - 1]) == {}
    ensures Looked(cx, run[|run| - 1])
  {
    var st := run[|run| - 1];
    RunUpholds(cx, run, |run| - 1);
    forall s | 0 <= s < |st.kernels|
      ensures st.tystate[s] == MUSTLOOKAHEAD <==> Late(cx.g, st.kernels[s])
      ensures !Lossy(cx, st.kernels[s]) ==> CarriesOn(cx, st.kernels, s)
    {
      NothingMarked(cx, st, s);
    }
    forall fam | LalrClosed(cx, st.kernels, fam) ensures Within(st.kernels, fam) {
      JustifiedNow(cx, st.kernels, fam);
    }
  }

  /** What the closures of all states carry. */
  ghost function Carried(cx: Context, ks: seq<seq<KItem>>): Families
    requires ContextOk(cx) && KernelsOk(cx.g, ks)
  {
    seq(|ks|, s requires 0 <= s < |ks| => CarriedIn(cx, ks[s]))
  }

  ghost function CarriedIn(cx: Context, k: seq<KItem>): map<Item, set<int>>
    requires ContextOk(cx) && KernelOk(cx.g, k)
  {
    map it | it in CloOf(cx.g, k) :: Carry(cx, k, it)
  }

  lemma CarriedInClosed(cx: Context, k: seq<KItem>)
    requires ContextOk(cx) && KernelOk(cx.g, k)
    ensures Lr1Closed(cx, CarriedIn(cx, k)) && KernelSet(k) <= CarriedIn(cx, k).Keys
  {
    var w := CarriedIn(cx, k);
    CloIsClosed(cx.g, KernelSet(k));
    forall it, q | it in w && BeforeNonterminal(cx.g, it) && 0 <= q < |cx.g.prods| && First(cx.g, it) == Lhs(cx.g, q)
      ensures Item(q, 0) in w && Handed(cx, it, w[it]) <= w[Item(q, 0)]
    {
      CarryHands(cx, k, it, q);
    }
  }

  /** What a kernel has for an item is what the item carries there. */
  lemma KernelCarries(cx: Context, ks: seq<seq<KItem>>, s: int, it: Item)
    requires ContextOk(cx) && KernelsOk(cx.g, ks) && 0 <= s < |ks| && it in KernelSet(ks[s])
    ensures LookAt(ks[s], it) == Carry(cx, ks[s], it)
  {
    KernelsOneEach(cx.g, ks, s);
    var j :| 0 <= j < |ks[s]| && ks[s][j].item == it;
    LookAtIs(ks[s], j);
    CarryKernel(cx, ks[s], j);
  }

  lemma CarriedArrives(cx: Context, st: States, s: int, it: Item, t: int)
    requires ContextOk(cx) && StatesOk(cx.g, st) && 0 <= s < |st.kernels| && CarriesOn(cx, st.kernels, s)
    requires it in CloOf(cx.g, st.kernels[s]) && ValidItem(cx.g, it) && First(cx.g, it) > 1
    requires IsGoto(cx.g, st.kernels, s, First(cx.g, it), t)
    ensures Item(it.p, it.off + 1) in KernelSet(st.kernels[t])
    ensures Carry(cx, st.kernels[s], it) <= Carry(cx, st.kernels[t], Item(it.p, it.off + 1))
  {
    var t' :| CarriedTo(cx, st.kernels, s, it, t');
    GotoUnique(cx.g, st, s, First(cx.g, it), t, t');
    KernelCarries(cx, st.kernels, t, Item(it.p, it.off + 1));
  }

  lemma CarriedPasses(cx: Context, st: States, fam: Families, s: int, it: Item, t: int)
    requires ContextOk(cx) && StatesOk(cx.g, st) && 0 <= s < |st.kernels| && CarriesOn(cx, st.kernels, s)
    requires |fam| == |st.kernels| && forall i :: 0 <= i < |fam| ==> fam[i] == CarriedIn(cx, st.kernels[i])
    requires ValidItem(cx.g, it)
    ensures PassesOn(cx, st.kernels, fam, s, it, t)
  {
    if IsGoto(cx.g, st.kernels, s, First(cx.g, it), t) && it in CloOf(cx.g, st.kernels[s]) && First(cx.g, it) > 1 {
      CarriedArrives(cx, st, s, it, t);
    }
  }

  /** Where no state is lossy, the lookaheads are those of LALR(1): closed over the whole automaton, and the least. */
  lemma LeastFamilies(cx: Context, st: States)
    requires ContextOk(cx) && Looked(cx, st) && forall s :: 0 <= s < |st.kernels| ==> !Lossy(cx, st.kernels[s])
    ensures LalrClosed(cx, st.kernels, Carried(cx, st.kernels))
    ensures forall fam, s, it ::
              LalrClosed(cx, st.kernels, fam) && 0 <= s < |st.kernels| && it in CloOf(cx.g, st.kernels[s]) ==>
              it in fam[s] && Carry(cx, st.kernels[s], it) <= fam[s][it]
  {
    var ks := st.kernels;
    forall s | 0 <= s < |ks|
      ensures Lr1Closed(cx, CarriedIn(cx, ks[s])) && KernelSet(ks[s]) <= CarriedIn(cx, ks[s]).Keys
    {
      CarriedInClosed(cx, ks[s]);
    }
    var carried := Carried(cx, ks);
    forall s, it, t | 0 <= s < |ks| && ValidItem(cx.g, it) ensures PassesOn(cx, ks, carried, s, it, t) {
      CarriedPasses(cx, st, carried, s, it, t);
    }
    forall fam, s, it | LalrClosed(cx, ks, fam) && 0 <= s < |ks| && it in CloOf(cx.g, ks[s])
      ensures it in fam[s] && Carry(cx, ks[s], it) <= fam[s][it]
    {
      assert Within(ks, fam);
      CarriedBelow(cx, ks, fam, s, it);
    }
  }

  /** Without empty productions, and ones that begin with `$end`, no state is lossy. */
  lemma NoLateNoLoss(cx: Context, k: seq<KItem>)
    requires ContextOk(cx) && KernelOk(cx.g, k) && forall q :: !LateAt(cx.g, q)
    ensures !Lossy(cx, k)
  {
    forall m: nat, j: nat ensures !LateAfter(cx, k, m, j) {
      if LateAfter(cx, k, m, j) { LateEntry(cx, k, m, j); }
    }
  }

  lemma LateFront(g: Grammar, items: seq<Item>, n: nat, j: nat)
    requires WellFormed(g) && AllValid(g, items) && Fronts(items, n) && n <= j < |items| && First(g, items[j]) <= 1
    ensures LateAt(g, items[j].p)
  {
    assert WfProd(g, items[j].p, g.prods[items[j].p]);
  }

  lemma LateEntry(cx: Context, k: seq<KItem>, m: nat, j: nat)
    requires ContextOk(cx) && KernelOk(cx.g, k) && LateAfter(cx, k, m, j)
    ensures exists q :: LateAt(cx.g, q)
  {
    ExpandFronts(cx, KernelList(k), 0, |k|);
    ExpandSaturates(cx, KernelList(k), 0);
    LateFront(cx.g, Listing(cx, k), |k|, j);
  }
}
