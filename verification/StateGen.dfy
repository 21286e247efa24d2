/** `putitem` and `state`: one kernel, found or added. */
module StateGen {
  import opened Grammars
  import FirstSets
  import opened Items
  import opened Closure
  import opened Automaton

  const NSTATES := 8000
  const DONE := 0
  const MUSTDO := 1
  const MUSTLOOKAHEAD := 2

  // ---------------------------------------------------------------- sorting a new kernel

  predicate Comparable(k: seq<KItem>) {
    forall i, j :: 0 <= i < j < |k| ==> Less(k[i].item, k[j].item) || Less(k[j].item, k[i].item)
  }

  function Elements(k: seq<KItem>): set<KItem> {
    set x | x in k
  }

  lemma SwapKeeps(k: seq<KItem>, l: int)
    requires 0 < l < |k| && Comparable(k)
    ensures var k' := k[l := k[l - 1]][l - 1 := k[l]]; Comparable(k') && Elements(k') == Elements(k)
  {
    var k' := k[l := k[l - 1]][l - 1 := k[l]];
    assert k'[l] == k[l - 1] && k'[l - 1] == k[l];
    forall x | x in k ensures x in k' {
      var i :| 0 <= i < |k| && k[i] == x;
      assert k'[if i == l then l - 1 else if i == l - 1 then l else i] == x;
    }
  }

  /** The insertion sort of `state`. */
  method SortItems(p: seq<KItem>) returns (k: seq<KItem>)
    requires Comparable(p)
    ensures Sorted(k) && |k| == |p| && Elements(k) == Elements(p)
    ensures forall i, j :: 0 <= i < j < |k| ==>
              var a, b := if k[i].item.p == -1 then 0 else k[i].item.p, if k[j].item.p == -1 then 0 else k[j].item.p;
              a < b || (a == b && k[i].item.off < k[j].item.off)
  {
    k := p;
    var n := 1;
    while n < |k|
      invariant 1 <= n && |k| == |p| && Comparable(k) && Elements(k) == Elements(p)
      invariant forall i, j :: 0 <= i < j < n && j < |k| ==> Less(k[i].item, k[j].item)
    {
      var l := n;
      while l > 0 && Less(k[l].item, k[l - 1].item)
        invariant 0 <= l <= n < |k| && |k| == |p| && Comparable(k) && Elements(k) == Elements(p)
        invariant forall i, j :: 0 <= i < j <= n && i != l && j != l ==> Less(k[i].item, k[j].item)
        invariant forall j :: l < j <= n ==> Less(k[l].item, k[j].item)
      {
        SwapKeeps(k, l);
        k := k[l := k[l - 1]][l - 1 := k[l]];
        l := l - 1;
      }
      n := n + 1;
    }
  }

  lemma ElementsSet(k: seq<KItem>, p: seq<KItem>)
    requires Elements(k) == Elements(p)
    ensures KernelSet(k) == KernelSet(p)
  {
    assert forall i :: 0 <= i < |k| ==> k[i] in Elements(p);
    assert forall i :: 0 <= i < |p| ==> p[i] in Elements(k);
  }

  // ---------------------------------------------------------------- the items of a new state

  /** What `putitem` has gathered before `state(x)` is called. */
  predicate Pending(g: Grammar, p: seq<KItem>, x: int)
    requires WellFormed(g)
  {
    && x > 1 && IsSymbol(g, x)
    && (forall i :: 0 <= i < |p| ==> Moved(g, p[i].item, x) && IsLook(g, p[i].look))
    && (forall i, j :: 0 <= i < j < |p| ==> p[i].item != p[j].item)
  }

  lemma PendingComparable(g: Grammar, p: seq<KItem>, x: int)
    requires WellFormed(g) && Pending(g, p, x)
    ensures Comparable(p)
  {
    forall i, j | 0 <= i < j < |p| ensures Less(p[i].item, p[j].item) || Less(p[j].item, p[i].item) {
      KeyIsItem(g, p[i].item, p[j].item, x);
    }
  }

  lemma SortedPending(g: Grammar, p: seq<KItem>, x: int, k: seq<KItem>)
    requires WellFormed(g) && Pending(g, p, x) && p != []
    requires Sorted(k) && |k| == |p| && Elements(k) == Elements(p)
    ensures KernelOn(g, k, x) && KernelSet(k) == KernelSet(p) && Acc(g, k) == x
  {
    ElementsSet(k, p);
    forall i | 0 <= i < |k| ensures Moved(g, k[i].item, x) && IsLook(g, k[i].look) {
      assert k[i] in Elements(p);
    }
  }

  // ---------------------------------------------------------------- looking a kernel up

  ghost predicate Links(g: Grammar, ks: seq<seq<KItem>>, mstates: seq<int>)
    requires WellFormed(g)
  {
    |mstates| == |ks| && forall s {:trigger mstates[s]} :: 1 <= s < |ks| ==>
      mstates[s] == LastOn(g, ks, Acc(g, ks[s]), s)
  }

  lemma Skipped(g: Grammar, ks: seq<seq<KItem>>, k: seq<KItem>, x: int, n: nat, s: int)
    requires WellFormed(g) && n <= |ks| && LastOn(g, ks, x, n) < s < n && Acc(g, k) == x
    ensures !SameCore(ks[s], k)
  {
    LastOnSkips(g, ks, x, n, s);
    AccDiffers(g, ks[s], k, x);
  }

  /** Walk the chain of states entered on x from its head, comparing cores; 0 when none matches. */
  method WalkChain(g: Grammar, ks: seq<seq<KItem>>, mstates: seq<int>, head: nat, k: seq<KItem>, x: int)
    returns (i: nat)
    requires WellFormed(g) && Links(g, ks, mstates) && head == LastOn(g, ks, x, |ks|)
    requires Acc(g, k) == x
    ensures i > 0 ==> i < |ks| && SameCore(ks[i], k)
    ensures i == 0 ==> forall s :: 1 <= s < |ks| ==> !SameCore(ks[s], k)
  {
    i := head;
    ghost var bound: nat := |ks|;
    while i != 0
      invariant bound <= |ks| && i == LastOn(g, ks, x, bound)
      invariant forall s :: bound <= s < |ks| ==> !SameCore(ks[s], k)
      decreases bound
    {
      if SameCore(ks[i], k) {
        return;
      }
      forall s | i <= s < bound ensures !SameCore(ks[s], k) {
        if s > i { Skipped(g, ks, k, x, bound, s); }
      }
      bound := i;
      i := mstates[i];
    }
    forall s | 1 <= s < |ks| ensures !SameCore(ks[s], k) {
      if s < bound { Skipped(g, ks, k, x, bound, s); }
    }
  }

  lemma ChainOf(g: Grammar, st: States, x: int)
    requires WellFormed(g) && StatesOk(g, st) && IsSymbol(g, x)
    ensures Links(g, st.kernels, st.mstates) && Head(g, st, x) == LastOn(g, st.kernels, x, |st.kernels|)
  {
  }

  lemma NotStart(g: Grammar, ks: seq<seq<KItem>>, k: seq<KItem>, x: int)
    requires WellFormed(g) && KernelsOk(g, ks) && KernelOn(g, k, x)
    ensures !SameCore(ks[0], k) && Acc(g, k) == x
  {
    assert StateOk(g, ks, 0);
    assert Moved(g, k[0].item, x);
  }

  /** The state with this core, or 0. */
  method FindState(g: Grammar, st: States, k: seq<KItem>, x: int) returns (i: nat)
    requires WellFormed(g) && StatesOk(g, st) && IsSymbol(g, x) && KernelOn(g, k, x)
    ensures i > 0 ==> i < |st.kernels| && SameCore(st.kernels[i], k)
    ensures i == 0 ==> forall s :: 0 <= s < |st.kernels| ==> !SameCore(st.kernels[s], k)
  {
    ChainOf(g, st, x);
    NotStart(g, st.kernels, k, x);
    i := WalkChain(g, st.kernels, st.mstates, if x >= NTBASE then st.ntstates[x - NTBASE] else st.tstates[x], k, x);
  }

  lemma AccDiffers(g: Grammar, k: seq<KItem>, k': seq<KItem>, x: int)
    requires WellFormed(g) && Acc(g, k') == x && Acc(g, k) != x
    ensures !SameCore(k, k')
  {
    if SameCore(k, k') { SameCoreAcc(g, k, k'); }
  }

  // ---------------------------------------------------------------- merging lookaheads

  /** Union the lookaheads of a kernel met again into the state that has it. */
  method MergeLooks(k: seq<KItem>, more: seq<KItem>) returns (k': seq<KItem>, changed: bool)
    requires SameCore(k, more)
    ensures SameCore(k, k') && forall i :: 0 <= i < |k| ==> k'[i].look == k[i].look + more[i].look
    ensures changed <==> k' != k
  {
    k', changed := k, false;
    var l := 0;
    while l < |k|
      invariant 0 <= l <= |k| && SameCore(k, k')
      invariant forall i :: 0 <= i < l ==> k'[i].look == k[i].look + more[i].look
      invariant forall i :: l <= i < |k| ==> k'[i] == k[i]
      invariant changed <==> k' != k
    {
      var y := k'[l].look + more[l].look;
      if y != k'[l].look {
        changed := true;
        k' := k'[l := KItem(k'[l].item, y)];
        assert k'[l] != k[l];
      } else {
        assert k[l].look + more[l].look == k[l].look;
      }
      l := l + 1;
    }
  }

  // ---------------------------------------------------------------- progress

  /** The lookahead bits not yet set in any kernel. */
  ghost function MissingLooks(g: Grammar, ks: seq<seq<KItem>>): set<(int, int, int)> {
    set s, i, a | 0 <= s < |ks| && 0 <= i < |ks[s]| && 0 <= a <= g.ntokens && a !in ks[s][i].look :: (s, i, a)
  }

  ghost function MustDo(st: States): set<int> {
    set s | 0 <= s < |st.tystate| && st.tystate[s] == MUSTDO
  }

  /** A state was added, or a lookahead grew, or the kernels stand. */
  ghost predicate Moves(g: Grammar, ks: seq<seq<KItem>>, ks': seq<seq<KItem>>) {
    || |ks'| > |ks|
    || (|ks'| == |ks| && MissingLooks(g, ks') < MissingLooks(g, ks))
  }

  lemma MergeMoves(g: Grammar, ks: seq<seq<KItem>>, i: int, k: seq<KItem>)
    requires 0 <= i < |ks| && SameCore(ks[i], k) && k != ks[i]
    requires forall j :: 0 <= j < |k| ==> ks[i][j].look <= k[j].look && IsLook(g, k[j].look)
    ensures Moves(g, ks, ks[i := k])
  {
    var ks' := ks[i := k];
    assert (forall j :: 0 <= j < |k| ==> k[j].look <= ks[i][j].look) ==> forall j :: 0 <= j < |k| ==> k[j] == ks[i][j];
    var j :| 0 <= j < |k| && !(k[j].look <= ks[i][j].look);
    var a := FirstSets.Difference(k[j].look, ks[i][j].look);
    assert (i, j, a) in MissingLooks(g, ks) && (i, j, a) !in MissingLooks(g, ks');
    assert MissingLooks(g, ks') <= MissingLooks(g, ks);
  }

  // ---------------------------------------------------------------- one goto of a closed state

  predicate WsOk(g: Grammar, ws: seq<Wset>)
    requires WellFormed(g)
  {
    && (forall i :: 0 <= i < |ws| ==> ValidItem(g, ws[i].item) && IsLook(g, ws[i].ws))
    && (forall i :: 0 <= i < |ws| && ws[i].item.p == -1 ==> ws[i].item.off >= 1)
    && (forall i, j :: 0 <= i < j < |ws| ==> ws[i].item != ws[j].item)
  }

  lemma ClosedIsOk(cx: Context, kernel: seq<KItem>, ws: seq<Wset>, nolook: bool)
    requires ContextOk(cx) && KernelOk(cx.g, kernel) && Closed(cx, kernel, ws, nolook)
    requires forall i, j :: 0 <= i < j < |kernel| ==> kernel[i].item != kernel[j].item
    ensures WsOk(cx.g, ws)
  {
    forall i, j | 0 <= i < j < |ws| ensures ws[i].item != ws[j].item {
      if i < |kernel| <= j { assert KernelItem(kernel[i].item); }
    }
  }

  /** The moved item and lookahead that `putitem` stores for entry w. */
  function Put(w: Wset): KItem {
    KItem(Item(w.item.p, w.item.off + 1), w.ws)
  }

  lemma PutMoved(g: Grammar, ws: seq<Wset>, i: int)
    requires WellFormed(g) && WsOk(g, ws) && 0 <= i < |ws| && First(g, ws[i].item) > 1
    ensures Moved(g, Put(ws[i]).item, First(g, ws[i].item)) && IsSymbol(g, First(g, ws[i].item))
  {
    RoomAfter(g, ws[i].item);
    ItemBasics(g, ws[i].item);
  }

  /** The items of ws[..n] before x, moved, in list order. */
  ghost function Gone(g: Grammar, ws: seq<Wset>, x: int, n: nat): seq<KItem>
    requires WellFormed(g) && n <= |ws| && forall i :: 0 <= i < |ws| ==> ValidItem(g, ws[i].item)
  {
    if n == 0 then []
    else if First(g, ws[n - 1].item) == x then Gone(g, ws, x, n - 1) + [Put(ws[n - 1])]
    else Gone(g, ws, x, n - 1)
  }

  lemma {:induction false} GoneFrom(g: Grammar, ws: seq<Wset>, x: int, n: nat, i: int) returns (j: int)
    requires WellFormed(g) && n <= |ws| && WsOk(g, ws) && 0 <= i < |Gone(g, ws, x, n)|
    ensures 0 <= j < n && First(g, ws[j].item) == x && Gone(g, ws, x, n)[i] == Put(ws[j])
    decreases n
  {
    if First(g, ws[n - 1].item) == x && i == |Gone(g, ws, x, n - 1)| {
      j := n - 1;
    } else {
      j := GoneFrom(g, ws, x, n - 1, i);
    }
  }

  lemma {:induction false} GoneHas(g: Grammar, ws: seq<Wset>, x: int, n: nat, j: int)
    requires WellFormed(g) && n <= |ws| && WsOk(g, ws) && 0 <= j < n && First(g, ws[j].item) == x
    ensures Put(ws[j]) in Gone(g, ws, x, n)
    decreases n
  {
    if j < n - 1 {
      GoneHas(g, ws, x, n - 1, j);
    }
  }

  lemma PendingAppend(g: Grammar, p: seq<KItem>, x: int, k: KItem)
    requires WellFormed(g) && Pending(g, p, x) && Moved(g, k.item, x) && IsLook(g, k.look)
    requires forall i :: 0 <= i < |p| ==> p[i].item != k.item
    ensures Pending(g, p + [k], x)
  {
  }

  lemma {:induction false} GonePending(g: Grammar, ws: seq<Wset>, x: int, n: nat)
    requires WellFormed(g) && n <= |ws| && WsOk(g, ws) && x > 1 && IsSymbol(g, x)
    ensures Pending(g, Gone(g, ws, x, n), x)
    decreases n
  {
    if n > 0 {
      GonePending(g, ws, x, n - 1);
      if First(g, ws[n - 1].item) == x {
        PutMoved(g, ws, n - 1);
        var prev, next := Gone(g, ws, x, n - 1), Put(ws[n - 1]);
        forall i | 0 <= i < |prev| ensures prev[i].item != next.item {
          var j := GoneFrom(g, ws, x, n - 1, i);
        }
        PendingAppend(g, prev, x, next);
      }
    }
  }

  lemma GoneInGotoSet(g: Grammar, ws: seq<Wset>, x: int, it: Item)
    requires WellFormed(g) && WsOk(g, ws) && it in KernelSet(Gone(g, ws, x, |ws|))
    ensures it in GotoSet(g, ItemSet(ws), x)
  {
    var gone := Gone(g, ws, x, |ws|);
    var i :| 0 <= i < |gone| && gone[i].item == it;
    var j := GoneFrom(g, ws, x, |ws|, i);
    assert ws[j].item in ItemSet(ws);
  }

  lemma GotoSetInGone(g: Grammar, ws: seq<Wset>, x: int, it: Item)
    requires WellFormed(g) && WsOk(g, ws) && it in GotoSet(g, ItemSet(ws), x)
    ensures it in KernelSet(Gone(g, ws, x, |ws|))
  {
    var gone := Gone(g, ws, x, |ws|);
    var it0 :| it0 in ItemSet(ws) && ValidItem(g, it0) && First(g, it0) == x && Item(it0.p, it0.off + 1) == it;
    var j :| 0 <= j < |ws| && ws[j].item == it0;
    GoneHas(g, ws, x, |ws|, j);
    var i :| 0 <= i < |gone| && gone[i] == Put(ws[j]);
  }

  lemma GoneIsGotoSet(g: Grammar, ws: seq<Wset>, x: int)
    requires WellFormed(g) && WsOk(g, ws)
    ensures KernelSet(Gone(g, ws, x, |ws|)) == GotoSet(g, ItemSet(ws), x)
  {
    forall it | it in KernelSet(Gone(g, ws, x, |ws|)) ensures it in GotoSet(g, ItemSet(ws), x) {
      GoneInGotoSet(g, ws, x, it);
    }
    forall it | it in GotoSet(g, ItemSet(ws), x) ensures it in KernelSet(Gone(g, ws, x, |ws|)) {
      GotoSetInGone(g, ws, x, it);
    }
  }

  // ---------------------------------------------------------------- state

  /** st' is st after registering a kernel whose item set is `items`, found or made as state i. */
  ghost predicate Registered(g: Grammar, st: States, st': States, items: set<Item>, i: int)
    requires WellFormed(g)
  {
    && StatesOk(g, st') && |st'.kernels| < NSTATES
    && CoreExt(st.kernels, st'.kernels) && |st'.kernels| <= |st.kernels| + 1
    && 1 <= i < |st'.kernels| && KernelSet(st'.kernels[i]) == items
    && (st' == st || Moves(g, st.kernels, st'.kernels))
    && (forall s :: 0 <= s < |st'.kernels| ==>
          s < |st'.tystate| && ((s < |st.tystate| && st'.tystate[s] == st.tystate[s]) || st'.tystate[s] == MUSTDO))
  }

  ghost function LookIn(ks: seq<seq<KItem>>, s: nat, it: Item): set<int> {
    if s < |ks| then LookAt(ks[s], it) else {}
  }

  /** A state is marked when it is new or has grown, and otherwise keeps its mark. */
  predicate MarkedAsGrown(st: States, st': States, s: nat) {
    && s < |st'.kernels| && s < |st'.tystate|
    && st'.tystate[s] == (if s < |st.kernels| && s < |st.tystate| && st'.kernels[s] == st.kernels[s] then st.tystate[s]
                          else MUSTDO)
  }

  predicate SameState(st: States, st': States, s: nat) {
    && s < |st.kernels| && s < |st'.kernels| && st'.kernels[s] == st.kernels[s]
    && s < |st.tystate| && s < |st'.tystate| && st'.tystate[s] == st.tystate[s]
  }

  /** st' is st with the lookaheads of the items p joined to those of state i, found or new; growth marks it. */
  ghost predicate Joined(st: States, st': States, p: seq<KItem>, i: nat) {
    && i <= |st.kernels| && |st'.kernels| == (if i < |st.kernels| then |st.kernels| else |st.kernels| + 1)
    && (forall s :: 0 <= s < |st.kernels| && s != i ==> SameState(st, st', s))
    && (forall it :: LookAt(st'.kernels[i], it) == LookIn(st.kernels, i, it) + LookAt(p, it))
    && MarkedAsGrown(st, st', i)
  }

  /** Some state already has exactly these items. */
  ghost predicate Known(ks: seq<seq<KItem>>, items: set<Item>) {
    exists s :: 1 <= s < |ks| && KernelSet(ks[s]) == items
  }

  lemma FoundOk(g: Grammar, st: States, i: int, k: seq<KItem>, ty: seq<int>)
    requires WellFormed(g) && StatesOk(g, st) && |st.kernels| < NSTATES && 1 <= i < |st.kernels|
    requires SameCore(st.kernels[i], k) && |ty| == |st.tystate|
    requires forall j :: 0 <= j < |k| ==> st.kernels[i][j].look <= k[j].look && IsLook(g, k[j].look)
    requires k == st.kernels[i] ==> ty == st.tystate
    requires forall s :: 0 <= s < |ty| ==> ty[s] == st.tystate[s] || ty[s] == MUSTDO
    ensures Registered(g, st, st.(kernels := st.kernels[i := k], tystate := ty), KernelSet(k), i)
  {
    var st' := st.(kernels := st.kernels[i := k], tystate := ty);
    var ks, ks': seq<seq<KItem>> := st.kernels, st'.kernels;
    forall s, j | 0 <= s < |ks'| && 0 <= j < |ks'[s]| ensures IsLook(g, ks'[s][j].look) {
      assert StateOk(g, ks, s);
    }
    LooksKeepStates(g, st, st');
    if k == ks[i] {
      assert ks' == ks;
    } else {
      MergeMoves(g, ks, i, k);
    }
  }

  lemma NotKnown(g: Grammar, st: States, k: seq<KItem>, x: int)
    requires WellFormed(g) && StatesOk(g, st) && KernelOn(g, k, x)
    requires forall s :: 0 <= s < |st.kernels| ==> !SameCore(st.kernels[s], k)
    ensures !Known(st.kernels, KernelSet(k))
  {
    forall s | 1 <= s < |st.kernels| ensures KernelSet(st.kernels[s]) != KernelSet(k) {
      assert StateOk(g, st.kernels, s);
      if KernelSet(st.kernels[s]) == KernelSet(k) {
        SortedUnique(st.kernels[s], k);
      }
    }
  }

  lemma FoundKnown(ks: seq<seq<KItem>>, k: seq<KItem>, i: int)
    requires 1 <= i < |ks| && SameCore(ks[i], k)
    ensures Known(ks, KernelSet(k))
  {
    SameCoreSameSet(ks[i], k);
  }

  lemma AddedOk(g: Grammar, st: States, k: seq<KItem>, x: int)
    requires WellFormed(g) && StatesOk(g, st) && IsSymbol(g, x) && KernelOn(g, k, x) && |st.kernels| + 1 < NSTATES
    requires forall s :: 0 <= s < |st.kernels| ==> !SameCore(st.kernels[s], k)
    ensures Registered(g, st, AddState(g, st, k, x, MUSTDO), KernelSet(k), |st.kernels|)
  {
    AddStateOk(g, st, k, x, MUSTDO);
  }

  lemma LookAtMerged(k: seq<KItem>, more: seq<KItem>, k': seq<KItem>, it: Item)
    requires SameCore(k, more) && SameCore(k, k') && forall i :: 0 <= i < |k| ==> k'[i].look == k[i].look + more[i].look
    ensures LookAt(k', it) == LookAt(k, it) + LookAt(more, it)
  {
    forall a | a in LookAt(k', it) ensures a in LookAt(k, it) + LookAt(more, it) {
      var i :| 0 <= i < |k'| && a in k'[i].look && k'[i].item == it;
      assert a in k[i].look || a in more[i].look;
      assert k[i].item == it && more[i].item == it;
    }
    forall a | a in LookAt(k, it) ensures a in LookAt(k', it) {
      var i :| 0 <= i < |k| && a in k[i].look && k[i].item == it;
      assert a in k'[i].look && k'[i].item == it;
    }
    forall a | a in LookAt(more, it) ensures a in LookAt(k', it) {
      var i :| 0 <= i < |more| && a in more[i].look && more[i].item == it;
      assert a in k'[i].look && k'[i].item == it;
    }
  }

  lemma LookAtElements(k: seq<KItem>, p: seq<KItem>, it: Item)
    requires Elements(k) <= Elements(p)
    ensures LookAt(k, it) <= LookAt(p, it)
  {
    forall a | a in LookAt(k, it) ensures a in LookAt(p, it) {
      var i :| 0 <= i < |k| && a in k[i].look && k[i].item == it;
      assert k[i] in Elements(p);
      var j :| 0 <= j < |p| && p[j] == k[i];
      assert a in p[j].look && p[j].item == it;
    }
  }

  /** What `state` does when the core is that of state i. */
  method MeetAgain(g: Grammar, st: States, i: nat, k: seq<KItem>, x: int, nolook: bool) returns (st': States)
    requires WellFormed(g) && StatesOk(g, st) && |st.kernels| < NSTATES
    requires 1 <= i < |st.kernels| && SameCore(st.kernels[i], k) && KernelOn(g, k, x)
    ensures Registered(g, st, st', KernelSet(k), i) && |st'.kernels| == |st.kernels|
    ensures nolook ==> st' == st
    ensures !nolook ==> Joined(st, st', k, i)
  {
    st' := st;
    assert KernelOn(g, st.kernels[i], Acc(g, st.kernels[i])) by { assert StateOk(g, st.kernels, i); }
    SameCoreSameSet(st.kernels[i], k);
    if nolook {
      FoundOk(g, st, i, st.kernels[i], st.tystate);
      assert st.kernels[i := st.kernels[i]] == st.kernels;
      return;
    }
    var k', changed := MergeLooks(st.kernels[i], k);
    SameCoreSameSet(st.kernels[i], k');
    var ty := if changed then st.tystate[i := MUSTDO] else st.tystate;
    FoundOk(g, st, i, k', ty);
    st' := st.(kernels := st.kernels[i := k'], tystate := ty);
    forall it ensures LookAt(k', it) == LookAt(st.kernels[i], it) + LookAt(k, it) {
      LookAtMerged(st.kernels[i], k, k', it);
    }
  }

  /** `state`: sort the gathered items, find the state with that core or make it; with lookahead on, union
      the lookaheads into a state found and mark it to be done again if they grew. */
  method State(g: Grammar, st: States, pending: seq<KItem>, x: int, nolook: bool)
    returns (ok: bool, st': States, i: nat)
    requires WellFormed(g) && StatesOk(g, st) && |st.kernels| < NSTATES && Pending(g, pending, x)
    ensures pending == [] ==> ok && st' == st && i == 0
    ensures ok && pending != [] ==> Registered(g, st, st', KernelSet(pending), i)
    ensures ok && nolook ==> st' == st
    ensures ok && pending != [] && !nolook ==> Joined(st, st', pending, i)
    ensures Known(st.kernels, KernelSet(pending)) && pending != [] ==> ok && |st'.kernels| == |st.kernels|
    ensures !ok ==> st' == st && (nolook || |st.kernels| + 1 >= NSTATES)
  {
    ok, st', i := true, st, 0;
    if pending == [] {
      return;
    }
    PendingComparable(g, pending, x);
    var k := SortItems(pending);
    SortedPending(g, pending, x, k);
    forall it ensures LookAt(k, it) == LookAt(pending, it) {
      LookAtElements(k, pending, it);
      LookAtElements(pending, k, it);
    }
    i := FindState(g, st, k, x);
    if i != 0 {
      FoundKnown(st.kernels, k, i);
      st' := MeetAgain(g, st, i, k, x, nolook);
      return;
    }
    NotKnown(g, st, k, x);
    if nolook || |st.kernels| + 1 >= NSTATES {
      ok := false;
      return;
    }
    AddedOk(g, st, k, x);
    i := |st.kernels|;
    st' := AddState(g, st, k, x, MUSTDO);
    assert st'.kernels[i] == k;
  }
}
