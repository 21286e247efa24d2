/** The LR automaton: kernels, chains by accessing symbol, and gotos. */
module Automaton {
  import opened Grammars
  import opened Items
  import opened Closure

  // ---------------------------------------------------------------- kernels

  /** The symbol the dot has just moved over. */
  function SymBefore(g: Grammar, it: Item): int
    requires WellFormed(g) && ValidItem(g, it) && KernelItem(it)
  {
    At(g, it.p, it.off - 1)
  }

  /** An item that a goto on x puts into a kernel. */
  predicate Moved(g: Grammar, it: Item, x: int)
    requires WellFormed(g)
  {
    ValidItem(g, it) && KernelItem(it) && SymBefore(g, it) == x && (it.p == -1 ==> it.off >= 2)
  }

  /** The order in which `state` sorts a kernel. */
  predicate Less(a: Item, b: Item) {
    Prodno(a) < Prodno(b) || (Prodno(a) == Prodno(b) && a.off < b.off)
  }

  predicate Sorted(k: seq<KItem>) {
    forall i, j :: 0 <= i < j < |k| ==> Less(k[i].item, k[j].item)
  }

  /** A kernel reached on symbol x. */
  predicate KernelOn(g: Grammar, k: seq<KItem>, x: int)
    requires WellFormed(g)
  {
    && |k| > 0
    && x > 1
    && (forall i :: 0 <= i < |k| ==> Moved(g, k[i].item, x) && IsLook(g, k[i].look))
    && Sorted(k)
  }

  predicate SameCore(k: seq<KItem>, k': seq<KItem>) {
    |k| == |k'| && forall i :: 0 <= i < |k| ==> k[i].item == k'[i].item
  }

  lemma SameCoreSameSet(k: seq<KItem>, k': seq<KItem>)
    requires SameCore(k, k')
    ensures KernelSet(k) == KernelSet(k')
  {
    forall it | it in KernelSet(k) ensures it in KernelSet(k') {
      var i :| 0 <= i < |k| && k[i].item == it;
      assert k'[i].item == it;
    }
    forall it | it in KernelSet(k') ensures it in KernelSet(k) {
      var i :| 0 <= i < |k'| && k'[i].item == it;
      assert k[i].item == it;
    }
  }

  /** The lookahead of an item in a kernel; none if it is not there. */
  ghost function LookAt(k: seq<KItem>, it: Item): set<int> {
    set i, a | 0 <= i < |k| && a in k[i].look && k[i].item == it :: a
  }

  lemma LookAtIs(k: seq<KItem>, i: nat)
    requires i < |k| && forall j :: 0 <= j < |k| && j != i ==> k[j].item != k[i].item
    ensures LookAt(k, k[i].item) == k[i].look
  {
    forall a | a in k[i].look ensures a in LookAt(k, k[i].item) {}
  }

  /** Items reached on a symbol above 1 that sort alike are equal: the two slices of production 0 never meet
      at one offset. */
  lemma KeyIsItem(g: Grammar, a: Item, b: Item, x: int)
    requires WellFormed(g) && x > 1 && Moved(g, a, x) && Moved(g, b, x)
    ensures a == b || Less(a, b) || Less(b, a)
  {
    assert WfProd(g, 0, g.prods[0]);
  }

  /** Equal item sets sort into equal kernels. */
  lemma SortedUnique(k: seq<KItem>, k': seq<KItem>)
    requires Sorted(k) && Sorted(k') && KernelSet(k) == KernelSet(k')
    ensures SameCore(k, k')
    decreases |k|
  {
    assert k != [] ==> k[0].item in KernelSet(k);
    assert k' != [] ==> k'[0].item in KernelSet(k');
    if k != [] {
      var n, n' := |k| - 1, |k'| - 1;
      LastIsMax(k, k');
      assert k[n].item == k'[n'].item;
      DropLast(k);
      DropLast(k');
      SortedUnique(k[..n], k'[..n']);
      forall i | 0 <= i < |k| ensures k[i].item == k'[i].item {
        if i < n { assert k[..n][i] == k[i] && k'[..n'][i] == k'[i]; }
      }
    }
  }

  lemma LastIsMax(k: seq<KItem>, k': seq<KItem>)
    requires Sorted(k) && Sorted(k') && KernelSet(k) == KernelSet(k') && |k| > 0 && |k'| > 0
    ensures k[|k| - 1].item == k'[|k'| - 1].item
  {
    var m, m' := k[|k| - 1].item, k'[|k'| - 1].item;
    assert m in KernelSet(k) && m' in KernelSet(k');
    var i :| 0 <= i < |k'| && k'[i].item == m;
    var j :| 0 <= j < |k| && k[j].item == m';
  }

  lemma DropLast(k: seq<KItem>)
    requires Sorted(k) && |k| > 0
    ensures Sorted(k[..|k| - 1]) && KernelSet(k[..|k| - 1]) == KernelSet(k) - {k[|k| - 1].item}
  {
    var n := |k| - 1;
    forall it | it in KernelSet(k) - {k[n].item} ensures it in KernelSet(k[..n]) {
      var i :| 0 <= i < |k| && k[i].item == it;
      assert k[..n][i].item == it;
    }
    forall it | it in KernelSet(k[..n]) ensures it in KernelSet(k) - {k[n].item} {
      var i :| 0 <= i < n && k[..n][i].item == it;
      assert k[i].item == it && Less(k[i].item, k[n].item);
    }
  }

  // ---------------------------------------------------------------- gotos

  /** The items of c with the dot before x, moved over it. */
  ghost function GotoSet(g: Grammar, c: set<Item>, x: int): set<Item>
    requires WellFormed(g)
  {
    set it | it in c && ValidItem(g, it) && First(g, it) == x :: Item(it.p, it.off + 1)
  }

  ghost function CloOf(g: Grammar, k: seq<KItem>): set<Item>
    requires WellFormed(g) && KernelOk(g, k)
  {
    Clo(g, KernelSet(k))
  }

  /** State t is the goto of state s on x. */
  ghost predicate IsGoto(g: Grammar, ks: seq<seq<KItem>>, s: int, x: int, t: int)
    requires WellFormed(g) && KernelsOk(g, ks) && 0 <= s < |ks|
  {
    1 <= t < |ks| && KernelSet(ks[t]) == GotoSet(g, CloOf(g, ks[s]), x)
  }

  ghost predicate HasGoto(g: Grammar, ks: seq<seq<KItem>>, s: int, x: int)
    requires WellFormed(g) && KernelsOk(g, ks) && 0 <= s < |ks|
  {
    exists t :: IsGoto(g, ks, s, x, t)
  }

  /** Every symbol above 1 after a dot in the closure of s has its goto state. */
  ghost predicate Complete(g: Grammar, ks: seq<seq<KItem>>, s: int)
    requires WellFormed(g) && KernelsOk(g, ks) && 0 <= s < |ks|
  {
    forall it :: it in CloOf(g, ks[s]) && ValidItem(g, it) && First(g, it) > 1 ==> HasGoto(g, ks, s, First(g, it))
  }

  // ---------------------------------------------------------------- states and chains

  datatype States = States(
    kernels: seq<seq<KItem>>,
    tystate: seq<int>,
    tstates: seq<int>,
    ntstates: seq<int>,
    mstates: seq<int>)

  /** The symbol a state other than 0 is entered on. */
  function Acc(g: Grammar, k: seq<KItem>): int
    requires WellFormed(g)
  {
    if |k| > 0 && ValidItem(g, k[0].item) && KernelItem(k[0].item) then SymBefore(g, k[0].item) else 0
  }

  /** The highest state below n entered on x, or 0. */
  function LastOn(g: Grammar, ks: seq<seq<KItem>>, x: int, n: nat): (s: nat)
    requires WellFormed(g) && n <= |ks|
    ensures s == 0 || (1 <= s < n && Acc(g, ks[s]) == x)
  {
    if n <= 1 then 0
    else if Acc(g, ks[n - 1]) == x then n - 1
    else LastOn(g, ks, x, n - 1)
  }

  lemma {:induction false} LastOnSkips(g: Grammar, ks: seq<seq<KItem>>, x: int, n: nat, t: int)
    requires WellFormed(g) && n <= |ks| && LastOn(g, ks, x, n) < t < n
    ensures Acc(g, ks[t]) != x
    decreases n
  {
    if t < n - 1 {
      LastOnSkips(g, ks, x, n - 1, t);
    }
  }

  /** The head of the chain of states entered on x. */
  function Head(g: Grammar, st: States, x: int): int
    requires WellFormed(g) && IsSymbol(g, x) && |st.tstates| == g.ntokens + 1 && |st.ntstates| == g.nnonter + 1
  {
    if x >= NTBASE then st.ntstates[x - NTBASE] else st.tstates[x]
  }

  const StartKernel: seq<KItem> := [KItem(Item(-1, 1), {})]

  predicate StateOk(g: Grammar, ks: seq<seq<KItem>>, s: int)
    requires WellFormed(g) && 0 <= s < |ks|
  {
    if s == 0 then ks[0] == StartKernel
    else KernelOn(g, ks[s], Acc(g, ks[s])) && IsSymbol(g, Acc(g, ks[s]))
  }

  predicate KernelsOk(g: Grammar, ks: seq<seq<KItem>>)
    requires WellFormed(g)
  {
    && |ks| >= 1
    && (forall s :: 0 <= s < |ks| ==> StateOk(g, ks, s))
    && (forall s :: 0 <= s < |ks| ==> KernelOk(g, ks[s]))
  }

  predicate Distinct(ks: seq<seq<KItem>>) {
    forall s, t :: 0 <= s < t < |ks| ==> !SameCore(ks[s], ks[t])
  }

  /** The chains: each state links to the next lower one entered on its symbol, each head is the highest. */
  ghost predicate Chained(g: Grammar, st: States)
    requires WellFormed(g)
  {
    && |st.tstates| == g.ntokens + 1 && |st.ntstates| == g.nnonter + 1
    && |st.mstates| == |st.kernels| && st.tstates[0] == 0
    && (forall s {:trigger st.mstates[s]} :: 1 <= s < |st.kernels| ==>
          st.mstates[s] == LastOn(g, st.kernels, Acc(g, st.kernels[s]), s))
    && (forall x :: IsSymbol(g, x) ==> Head(g, st, x) == LastOn(g, st.kernels, x, |st.kernels|))
  }

  ghost predicate StatesOk(g: Grammar, st: States)
    requires WellFormed(g)
  {
    && KernelsOk(g, st.kernels)
    && |st.tystate| == |st.kernels|
    && Distinct(st.kernels)
    && Chained(g, st)
  }

  // ---------------------------------------------------------------- states only grow

  /** ks' keeps the cores of ks and may add states. */
  predicate CoreExt(ks: seq<seq<KItem>>, ks': seq<seq<KItem>>) {
    |ks| <= |ks'| && forall s :: 0 <= s < |ks| ==> SameCore(ks[s], ks'[s])
  }

  lemma CoreExtTrans(a: seq<seq<KItem>>, b: seq<seq<KItem>>, c: seq<seq<KItem>>)
    requires CoreExt(a, b) && CoreExt(b, c)
    ensures CoreExt(a, c)
  {
    forall s | 0 <= s < |a| ensures SameCore(a[s], c[s]) {
      assert SameCore(a[s], b[s]) && SameCore(b[s], c[s]);
    }
  }

  lemma IsGotoExt(g: Grammar, ks: seq<seq<KItem>>, ks': seq<seq<KItem>>, s: int, x: int, t: int)
    requires WellFormed(g) && KernelsOk(g, ks) && KernelsOk(g, ks') && CoreExt(ks, ks') && 0 <= s < |ks|
    requires IsGoto(g, ks, s, x, t)
    ensures IsGoto(g, ks', s, x, t)
  {
    SameCoreSameSet(ks[s], ks'[s]);
    SameCoreSameSet(ks[t], ks'[t]);
  }

  lemma CompleteExt(g: Grammar, ks: seq<seq<KItem>>, ks': seq<seq<KItem>>, s: int)
    requires WellFormed(g) && KernelsOk(g, ks) && KernelsOk(g, ks') && CoreExt(ks, ks') && 0 <= s < |ks|
    requires Complete(g, ks, s)
    ensures Complete(g, ks', s)
  {
    SameCoreSameSet(ks[s], ks'[s]);
    forall it | it in CloOf(g, ks'[s]) && ValidItem(g, it) && First(g, it) > 1
      ensures HasGoto(g, ks', s, First(g, it))
    {
      assert HasGoto(g, ks, s, First(g, it));
      var t :| IsGoto(g, ks, s, First(g, it), t);
      IsGotoExt(g, ks, ks', s, First(g, it), t);
    }
  }

  /** A goto is unique. */
  lemma GotoUnique(g: Grammar, st: States, s: int, x: int, t: int, t': int)
    requires WellFormed(g) && StatesOk(g, st) && 0 <= s < |st.kernels|
    requires IsGoto(g, st.kernels, s, x, t) && IsGoto(g, st.kernels, s, x, t')
    ensures t == t'
  {
    assert StateOk(g, st.kernels, t) && StateOk(g, st.kernels, t');
    SortedUnique(st.kernels[t], st.kernels[t']);
    assert SameCore(st.kernels[t'], st.kernels[t]);
  }

  lemma {:induction false} LastOnExt(g: Grammar, ks: seq<seq<KItem>>, ks': seq<seq<KItem>>, x: int, n: nat)
    requires WellFormed(g) && n <= |ks| && n <= |ks'|
    requires forall s :: 0 <= s < n ==> Acc(g, ks[s]) == Acc(g, ks'[s])
    ensures LastOn(g, ks, x, n) == LastOn(g, ks', x, n)
    decreases n
  {
    if n > 1 && Acc(g, ks[n - 1]) != x {
      LastOnExt(g, ks, ks', x, n - 1);
    }
  }

  lemma SameCoreAcc(g: Grammar, k: seq<KItem>, k': seq<KItem>)
    requires WellFormed(g) && SameCore(k, k')
    ensures Acc(g, k) == Acc(g, k')
  {
    if |k| > 0 { assert k[0].item == k'[0].item; }
  }

  /** The chains speak of a kernel only through its accessing symbol. */
  lemma ChainedByAcc(g: Grammar, st: States, st': States)
    requires WellFormed(g) && Chained(g, st)
    requires |st'.kernels| == |st.kernels|
    requires forall s :: 0 <= s < |st.kernels| ==> Acc(g, st.kernels[s]) == Acc(g, st'.kernels[s])
    requires st'.tstates == st.tstates && st'.ntstates == st.ntstates && st'.mstates == st.mstates
    ensures Chained(g, st')
  {
    var ks, ks' := st.kernels, st'.kernels;
    forall s | 1 <= s < |ks'| ensures st'.mstates[s] == LastOn(g, ks', Acc(g, ks'[s]), s) {
      LastOnExt(g, ks, ks', Acc(g, ks[s]), s);
    }
    forall x | IsSymbol(g, x) ensures Head(g, st', x) == LastOn(g, ks', x, |ks'|) {
      assert Head(g, st, x) == LastOn(g, ks, x, |ks|);
      LastOnExt(g, ks, ks', x, |ks|);
    }
  }

  lemma DistinctByCore(ks: seq<seq<KItem>>, ks': seq<seq<KItem>>)
    requires Distinct(ks) && CoreExt(ks, ks') && |ks| == |ks'|
    ensures Distinct(ks')
  {
    forall s, t | 0 <= s < t < |ks'| ensures !SameCore(ks'[s], ks'[t]) {
      assert !SameCore(ks[s], ks[t]) && SameCore(ks[s], ks'[s]) && SameCore(ks[t], ks'[t]);
    }
  }

  lemma StateOkByCore(g: Grammar, ks: seq<seq<KItem>>, ks': seq<seq<KItem>>, s: int)
    requires WellFormed(g) && 0 < s < |ks| == |ks'| && StateOk(g, ks, s) && SameCore(ks[s], ks'[s])
    requires forall i :: 0 <= i < |ks'[s]| ==> IsLook(g, ks'[s][i].look)
    ensures StateOk(g, ks', s)
  {
    SameCoreAcc(g, ks[s], ks'[s]);
  }

  /** Widening lookaheads keeps everything that speaks of cores. */
  lemma LooksKeepStates(g: Grammar, st: States, st': States)
    requires WellFormed(g) && StatesOk(g, st)
    requires |st'.kernels| == |st.kernels| && CoreExt(st.kernels, st'.kernels) && st'.kernels[0] == st.kernels[0]
    requires forall s, i :: 0 <= s < |st'.kernels| && 0 <= i < |st'.kernels[s]| ==> IsLook(g, st'.kernels[s][i].look)
    requires st'.tstates == st.tstates && st'.ntstates == st.ntstates && st'.mstates == st.mstates
    requires |st'.tystate| == |st.tystate|
    ensures StatesOk(g, st')
  {
    var ks, ks' := st.kernels, st'.kernels;
    forall s | 0 <= s < |ks'| ensures StateOk(g, ks', s) {
      assert StateOk(g, ks, s);
      if s > 0 { StateOkByCore(g, ks, ks', s); }
    }
    forall s | 0 <= s < |ks| ensures Acc(g, ks[s]) == Acc(g, ks'[s]) {
      SameCoreAcc(g, ks[s], ks'[s]);
    }
    DistinctByCore(ks, ks');
    ChainedByAcc(g, st, st');
  }

  /** The record after a new kernel is entered at the head of its chain. */
  function AddState(g: Grammar, st: States, k: seq<KItem>, x: int, ty: int): States
    requires WellFormed(g) && IsSymbol(g, x) && |st.tstates| == g.ntokens + 1 && |st.ntstates| == g.nnonter + 1
  {
    var n := |st.kernels|;
    States(st.kernels + [k], st.tystate + [ty],
      if x >= NTBASE then st.tstates else st.tstates[x := n],
      if x >= NTBASE then st.ntstates[x - NTBASE := n] else st.ntstates,
      st.mstates + [Head(g, st, x)])
  }

  lemma AddStateLinks(g: Grammar, st: States, k: seq<KItem>, x: int, ty: int, s: int)
    requires WellFormed(g) && IsSymbol(g, x) && |st.tstates| == g.ntokens + 1 && |st.ntstates| == g.nnonter + 1
    requires |st.mstates| == |st.kernels| && 1 <= s < |st.kernels|
    requires st.mstates[s] == LastOn(g, st.kernels, Acc(g, st.kernels[s]), s)
    ensures var st' := AddState(g, st, k, x, ty); st'.mstates[s] == LastOn(g, st'.kernels, Acc(g, st'.kernels[s]), s)
  {
    var st' := AddState(g, st, k, x, ty);
    var ks, ks' := st.kernels, st'.kernels;
    assert st'.mstates[s] == st.mstates[s] && ks'[s] == ks[s];
    LastOnExt(g, ks, ks', Acc(g, ks[s]), s);
  }

  lemma AddStateLink(g: Grammar, st: States, k: seq<KItem>, x: int, ty: int)
    requires WellFormed(g) && IsSymbol(g, x) && |st.tstates| == g.ntokens + 1 && |st.ntstates| == g.nnonter + 1
    requires |st.mstates| == |st.kernels| >= 1 && Head(g, st, x) == LastOn(g, st.kernels, x, |st.kernels|)
    ensures var st' := AddState(g, st, k, x, ty); st'.mstates[|st.kernels|] == LastOn(g, st'.kernels, x, |st.kernels|)
  {
    LastOnExt(g, st.kernels, AddState(g, st, k, x, ty).kernels, x, |st.kernels|);
  }

  lemma AddStateHeads(g: Grammar, st: States, k: seq<KItem>, x: int, ty: int, y: int)
    requires WellFormed(g) && Chained(g, st) && |st.kernels| >= 1 && IsSymbol(g, x) && Acc(g, k) == x
    requires IsSymbol(g, y)
    ensures var st' := AddState(g, st, k, x, ty); Head(g, st', y) == LastOn(g, st'.kernels, y, |st'.kernels|)
  {
    var st' := AddState(g, st, k, x, ty);
    var ks, ks' := st.kernels, st'.kernels;
    assert ks'[|ks|] == k;
    assert Head(g, st, y) == LastOn(g, ks, y, |ks|);
    LastOnExt(g, ks, ks', y, |ks|);
  }

  lemma AddStateChained(g: Grammar, st: States, k: seq<KItem>, x: int, ty: int)
    requires WellFormed(g) && Chained(g, st) && |st.kernels| >= 1 && IsSymbol(g, x) && Acc(g, k) == x
    ensures Chained(g, AddState(g, st, k, x, ty))
  {
    var st' := AddState(g, st, k, x, ty);
    forall s | 1 <= s < |st'.kernels|
      ensures st'.mstates[s] == LastOn(g, st'.kernels, Acc(g, st'.kernels[s]), s)
    {
      if s < |st.kernels| {
        AddStateLinks(g, st, k, x, ty, s);
      } else {
        assert st'.kernels[s] == k;
        AddStateLink(g, st, k, x, ty);
      }
    }
    forall y | IsSymbol(g, y) ensures Head(g, st', y) == LastOn(g, st'.kernels, y, |st'.kernels|) {
      AddStateHeads(g, st, k, x, ty, y);
    }
  }

  lemma AddStateOk(g: Grammar, st: States, k: seq<KItem>, x: int, ty: int)
    requires WellFormed(g) && StatesOk(g, st) && IsSymbol(g, x) && KernelOn(g, k, x)
    requires forall s :: 0 <= s < |st.kernels| ==> !SameCore(st.kernels[s], k)
    ensures StatesOk(g, AddState(g, st, k, x, ty))
    ensures CoreExt(st.kernels, AddState(g, st, k, x, ty).kernels)
  {
    var st' := AddState(g, st, k, x, ty);
    var ks, ks' := st.kernels, st'.kernels;
    assert Moved(g, k[0].item, x);
    AddStateChained(g, st, k, x, ty);
    forall s | 0 <= s < |ks'| ensures StateOk(g, ks', s) {
      if s < |ks| { assert ks'[s] == ks[s]; assert StateOk(g, ks, s); }
    }
  }
}
