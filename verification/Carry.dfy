/** The lookahead an item carries in the closure of a kernel, and what the closure's order has to do with marks. */
module Carrying {
  import opened Grammars
  import opened Items
  import opened ClosureOrder
  import opened Closure
  import opened Automaton

  /** A kernel names each of its items once. */
  predicate OneEach(kernel: seq<KItem>) {
    forall i, j :: 0 <= i < j < |kernel| ==> kernel[i].item != kernel[j].item
  }

  /** The family is closed and above the kernel. */
  ghost predicate Over(cx: Context, kernel: seq<KItem>, w: map<Item, set<int>>)
    requires ContextOk(cx)
  {
    Lr1Closed(cx, w) && AboveKernel(kernel, w)
  }

  ghost predicate AlwaysHas(cx: Context, kernel: seq<KItem>, it: Item, a: int)
    requires ContextOk(cx)
  {
    forall w :: Over(cx, kernel, w) ==> it in w && a in w[it]
  }

  /** The lookahead of an item in the closure of a kernel: what every closed family above the kernel has. */
  ghost function Carry(cx: Context, kernel: seq<KItem>, it: Item): set<int>
    requires ContextOk(cx)
  {
    set a | 0 <= a <= cx.g.ntokens && AlwaysHas(cx, kernel, it, a)
  }

  lemma CarryIsLook(cx: Context, kernel: seq<KItem>, it: Item)
    requires ContextOk(cx)
    ensures IsLook(cx.g, Carry(cx, kernel, it))
  {
  }

  /** A closed family has the items of the closure. */
  lemma OverHasItems(cx: Context, kernel: seq<KItem>, w: map<Item, set<int>>, it: Item)
    requires ContextOk(cx) && KernelOk(cx.g, kernel) && Over(cx, kernel, w) && it in Clo(cx.g, KernelSet(kernel))
    ensures it in w
  {
    var keys := w.Keys;
    forall i, q | i in keys && ValidItem(cx.g, i) && 0 <= q < |cx.g.prods| && First(cx.g, i) == Lhs(cx.g, q)
      ensures Item(q, 0) in keys
    {
      assert WfProd(cx.g, q, cx.g.prods[q]);
      assert BeforeNonterminal(cx.g, i);
    }
    CloLeast(cx.g, KernelSet(kernel), keys);
  }

  lemma CarryBelow(cx: Context, kernel: seq<KItem>, w: map<Item, set<int>>, it: Item)
    requires ContextOk(cx) && KernelOk(cx.g, kernel) && Over(cx, kernel, w) && it in w
    ensures Carry(cx, kernel, it) <= w[it]
  {
    forall a | a in Carry(cx, kernel, it) ensures a in w[it] {
      assert AlwaysHas(cx, kernel, it, a);
    }
  }

  // ---------------------------------------------------------------- items of the kernel

  predicate InLook(g: Grammar, a: int) {
    0 <= a <= g.ntokens
  }

  /** The kernel as it is, and every production with every token. */
  ghost function Roomy(cx: Context, kernel: seq<KItem>): map<Item, set<int>>
    requires ContextOk(cx) && KernelOk(cx.g, kernel)
  {
    var all := set a | 0 <= a <= cx.g.ntokens && InLook(cx.g, a);
    var fronts := set q | 0 <= q < |cx.g.prods| :: Item(q, 0);
    map it | it in KernelSet(kernel) + fronts :: if it.off == 0 then all else LookAt(kernel, it)
  }

  lemma RoomyOver(cx: Context, kernel: seq<KItem>)
    requires ContextOk(cx) && KernelOk(cx.g, kernel) && OneEach(kernel)
    ensures Over(cx, kernel, Roomy(cx, kernel))
  {
    var w := Roomy(cx, kernel);
    forall i | 0 <= i < |kernel| ensures kernel[i].item in w && kernel[i].look == w[kernel[i].item] {
      LookAtIs(kernel, i);
      assert KernelItem(kernel[i].item);
    }
    forall it | it in w ensures IsLook(cx.g, w[it]) {
      if it.off > 0 {
        var i :| 0 <= i < |kernel| && kernel[i].item == it;
      }
    }
  }

  /** In the closure a kernel item carries what the kernel has. */
  lemma CarryKernel(cx: Context, kernel: seq<KItem>, i: nat)
    requires ContextOk(cx) && KernelOk(cx.g, kernel) && OneEach(kernel) && i < |kernel|
    ensures Carry(cx, kernel, kernel[i].item) == kernel[i].look
  {
    var w := Roomy(cx, kernel);
    RoomyOver(cx, kernel);
    CarryBelow(cx, kernel, w, kernel[i].item);
    assert KernelItem(kernel[i].item);
    LookAtIs(kernel, i);
    forall a | a in kernel[i].look ensures AlwaysHas(cx, kernel, kernel[i].item, a) {
      forall v | Over(cx, kernel, v) ensures kernel[i].item in v && a in v[kernel[i].item] {
        assert kernel[i].look <= v[kernel[i].item];
      }
    }
  }

  // ---------------------------------------------------------------- what closure computes

  /** The lookaheads of a closed worklist as a family. */
  ghost function Family(ws: seq<Wset>): map<Item, set<int>> {
    map it | it in ItemSet(ws) :: WsAt(ws, it)
  }

  ghost function WsAt(ws: seq<Wset>, it: Item): set<int> {
    set i, a | 0 <= i < |ws| && a in ws[i].ws && ws[i].item == it :: a
  }

  predicate OneEntry(ws: seq<Wset>) {
    forall i, j :: 0 <= i < j < |ws| ==> ws[i].item != ws[j].item
  }

  lemma WsAtIs(ws: seq<Wset>, i: nat)
    requires OneEntry(ws) && i < |ws|
    ensures WsAt(ws, ws[i].item) == ws[i].ws
  {
    forall a | a in ws[i].ws ensures a in WsAt(ws, ws[i].item) {}
  }

  lemma ClosedOneEntry(cx: Context, kernel: seq<KItem>, ws: seq<Wset>, nolook: bool)
    requires ContextOk(cx) && KernelOk(cx.g, kernel) && Closed(cx, kernel, ws, nolook) && OneEach(kernel)
    ensures OneEntry(ws)
  {
    forall i, j | 0 <= i < j < |ws| ensures ws[i].item != ws[j].item {
      if i < |kernel| <= j { assert KernelItem(kernel[i].item); }
    }
  }

  lemma FamilyHands(cx: Context, ws: seq<Wset>, it: Item, q: int)
    requires ContextOk(cx) && OneEntry(ws) && (forall i :: 0 <= i < |ws| ==> IsLook(cx.g, ws[i].ws))
    requires forall i :: 0 <= i < |ws| ==> ValidItem(cx.g, ws[i].item) && Propagated(cx, ws, ws[i], false)
    requires it in ItemSet(ws) && BeforeNonterminal(cx.g, it) && 0 <= q < |cx.g.prods|
    requires First(cx.g, it) == Lhs(cx.g, q)
    ensures Item(q, 0) in ItemSet(ws) && IsLook(cx.g, WsAt(ws, it))
    ensures Handed(cx, it, WsAt(ws, it)) <= WsAt(ws, Item(q, 0))
  {
    var i :| 0 <= i < |ws| && ws[i].item == it;
    WsAtIs(ws, i);
    assert Propagated(cx, ws, ws[i], false);
    assert Covers(ws, q, Handing(cx, ws[i], false));
    var v :| 0 <= v < |ws| && ws[v].item == Item(q, 0) && Handing(cx, ws[i], false) <= ws[v].ws;
    WsAtIs(ws, v);
  }

  lemma FamilyAbove(cx: Context, kernel: seq<KItem>, ws: seq<Wset>)
    requires ContextOk(cx) && KernelOk(cx.g, kernel) && Shape(cx, kernel, ws) && OneEntry(ws)
    ensures AboveKernel(kernel, Family(ws))
  {
    forall i | 0 <= i < |kernel| ensures kernel[i].item in Family(ws) && kernel[i].look <= Family(ws)[kernel[i].item] {
      assert ws[i].item == kernel[i].item;
      WsAtIs(ws, i);
    }
  }

  lemma FamilyClosed(cx: Context, kernel: seq<KItem>, ws: seq<Wset>)
    requires ContextOk(cx) && KernelOk(cx.g, kernel) && Closed(cx, kernel, ws, false) && OneEach(kernel)
    ensures Over(cx, kernel, Family(ws))
  {
    var w := Family(ws);
    ClosedOneEntry(cx, kernel, ws, false);
    forall it | it in w ensures IsLook(cx.g, w[it]) {
      var i :| 0 <= i < |ws| && ws[i].item == it;
      WsAtIs(ws, i);
    }
    forall it, q | it in w && BeforeNonterminal(cx.g, it) && 0 <= q < |cx.g.prods| && First(cx.g, it) == Lhs(cx.g, q)
      ensures Item(q, 0) in w && Handed(cx, it, w[it]) <= w[Item(q, 0)]
    {
      FamilyHands(cx, ws, it, q);
    }
    FamilyAbove(cx, kernel, ws);
  }

  /** With lookahead on, `closure` gives every entry exactly what it carries. */
  lemma ClosedCarries(cx: Context, kernel: seq<KItem>, ws: seq<Wset>, j: nat)
    requires ContextOk(cx) && KernelOk(cx.g, kernel) && Closed(cx, kernel, ws, false) && OneEach(kernel) && j < |ws|
    ensures ws[j].ws == Carry(cx, kernel, ws[j].item)
  {
    FamilyClosed(cx, kernel, ws);
    ClosedOneEntry(cx, kernel, ws, false);
    WsAtIs(ws, j);
    assert ws[j].item in Family(ws);
    CarryBelow(cx, kernel, Family(ws), ws[j].item);
    forall a | a in ws[j].ws ensures AlwaysHas(cx, kernel, ws[j].item, a) {
      forall w | Over(cx, kernel, w) ensures ws[j].item in w && a in w[ws[j].item] {
        assert Below(ws, w);
      }
    }
  }

  /** The closed state, as a list: the items in their order, each with what it carries. */
  ghost function ClosedList(cx: Context, kernel: seq<KItem>): (l: seq<Wset>)
    requires ContextOk(cx) && KernelOk(cx.g, kernel)
  {
    var items := Listing(cx, kernel);
    seq(|items|, j requires 0 <= j < |items| => Wset(items[j], false, Carry(cx, kernel, items[j])))
  }

  /** There is one closed list with lookahead. */
  lemma ClosedIsList(cx: Context, kernel: seq<KItem>, ws: seq<Wset>)
    requires ContextOk(cx) && KernelOk(cx.g, kernel) && Closed(cx, kernel, ws, false) && OneEach(kernel)
    ensures ws == ClosedList(cx, kernel)
  {
    var l := ClosedList(cx, kernel);
    assert |ItemList(ws)| == |ws|;
    forall j | 0 <= j < |ws| ensures ws[j] == l[j] {
      assert ItemList(ws)[j] == ws[j].item;
      ClosedCarries(cx, kernel, ws, j);
    }
  }

  /** What is carried is itself closed. */
  lemma CarryHands(cx: Context, kernel: seq<KItem>, it: Item, q: int)
    requires ContextOk(cx) && KernelOk(cx.g, kernel) && it in Clo(cx.g, KernelSet(kernel))
    requires BeforeNonterminal(cx.g, it) && 0 <= q < |cx.g.prods| && First(cx.g, it) == Lhs(cx.g, q)
    ensures Handed(cx, it, Carry(cx, kernel, it)) <= Carry(cx, kernel, Item(q, 0))
  {
    var l := Carry(cx, kernel, it);
    RoomAfter(cx.g, it);
    forall a | a in Handed(cx, it, l) ensures AlwaysHas(cx, kernel, Item(q, 0), a) {
      forall w | Over(cx, kernel, w) ensures Item(q, 0) in w && a in w[Item(q, 0)] {
        OverHasItems(cx, kernel, w, it);
        CarryBelow(cx, kernel, w, it);
        LookAfterMono(cx, it.p, it.off + 1, l, w[it]);
        assert Handed(cx, it, w[it]) <= w[Item(q, 0)];
      }
    }
  }

  // ---------------------------------------------------------------- marks

  /** Closing the kernel brings in a production that has nothing to move over: an empty one, or one that begins with
      `$end`. */
  ghost predicate Late(g: Grammar, kernel: seq<KItem>)
    requires WellFormed(g) && KernelOk(g, kernel)
  {
    exists q :: Entered(g, KernelSet(kernel), q) && LateAt(g, q)
  }

  predicate LateAt(g: Grammar, q: int)
    requires WellFormed(g)
  {
    0 <= q < |g.prods| && |g.prods[q]| >= 2 && g.prods[q][1] <= 1
  }

  /** The kernel is its own goto, and in the order of its closure an entry with nothing to move over comes after one
      that the goto is made from. */
  ghost predicate Lossy(cx: Context, kernel: seq<KItem>)
    requires ContextOk(cx) && KernelOk(cx.g, kernel)
  {
    && GotoSet(cx.g, CloOf(cx.g, kernel), Acc(cx.g, kernel)) == KernelSet(kernel)
    && exists m, j :: 0 <= m < j && LateAfter(cx, kernel, m, j)
  }

  ghost predicate LateAfter(cx: Context, kernel: seq<KItem>, m: nat, j: nat)
    requires ContextOk(cx) && KernelOk(cx.g, kernel)
  {
    var items := Listing(cx, kernel);
    && m < |items| && |kernel| <= j < |items| && ValidItem(cx.g, items[m]) && ValidItem(cx.g, items[j])
    && First(cx.g, items[m]) == Acc(cx.g, kernel) && First(cx.g, items[j]) <= 1
  }

  /** Marks and order are a matter of the core alone. */
  lemma CoreDecides(cx: Context, k: seq<KItem>, k': seq<KItem>)
    requires ContextOk(cx) && KernelOk(cx.g, k) && KernelOk(cx.g, k') && SameCore(k, k')
    ensures Listing(cx, k) == Listing(cx, k') && (Late(cx.g, k) <==> Late(cx.g, k'))
    ensures Lossy(cx, k) <==> Lossy(cx, k')
  {
    assert KernelList(k) == KernelList(k');
    SameCoreSameSet(k, k');
    SameCoreAcc(cx.g, k, k');
    forall m: nat, j: nat ensures LateAfter(cx, k, m, j) <==> LateAfter(cx, k', m, j) {}
  }

  // ---------------------------------------------------------------- room in the worklist

  /** The listing has every item of the closure. */
  lemma ListingHasClosure(cx: Context, k: seq<KItem>)
    requires ContextOk(cx) && KernelOk(cx.g, k)
    ensures forall it :: it in CloOf(cx.g, k) ==> it in Listing(cx, k)
  {
    ExpandSaturates(cx, KernelList(k), 0);
    var l := Listing(cx, k);
    var c := set it | it in l;
    forall it, q | it in c && ValidItem(cx.g, it) && 0 <= q < |cx.g.prods| && First(cx.g, it) == Lhs(cx.g, q)
      ensures Item(q, 0) in c
    {
      ListingCalls(cx, l, it, q);
    }
    forall it | it in KernelSet(k) ensures it in c {
      var i :| 0 <= i < |k| && k[i].item == it;
      assert KernelList(k)[i] == it && l[i] == it;
    }
    CloLeast(cx.g, KernelSet(k), c);
  }

  lemma ListingCalls(cx: Context, l: seq<Item>, it: Item, q: int)
    requires ContextOk(cx) && AllValid(cx.g, l) && Saturated(cx, l, 0) && it in l
    requires 0 <= q < |cx.g.prods| && First(cx.g, it) == Lhs(cx.g, q)
    ensures Item(q, 0) in l
  {
    var v :| 0 <= v < |l| && l[v] == it;
    var rules := RulesAfter(cx, it);
    assert WfProd(cx.g, q, cx.g.prods[q]);
    RulesAfterIs(cx, it);
    assert q in rules;
    var r :| 0 <= r < |rules| && rules[r] == q;
    assert AllThere(l, rules, |rules|);
  }

  /** The listing has nothing else, and each item once. */
  lemma ListingExact(cx: Context, k: seq<KItem>)
    requires ContextOk(cx) && KernelOk(cx.g, k) && OneEach(k)
    ensures forall it :: it in Listing(cx, k) <==> it in CloOf(cx.g, k)
    ensures NoTwice(Listing(cx, k)) && AllValid(cx.g, Listing(cx, k))
  {
    var kernel := KernelList(k);
    ListingHasClosure(cx, k);
    CloIsClosed(cx.g, KernelSet(k));
    forall j | 0 <= j < |kernel| ensures kernel[j] in CloOf(cx.g, k) { assert k[j].item in KernelSet(k); }
    ExpandIn(cx, kernel, 0, CloOf(cx.g, k));
    ExpandOnce(cx, kernel, 0);
    ExpandSaturates(cx, kernel, 0);
  }

  lemma {:induction false} MovedCount(g: Grammar, c: set<Item>, x: int)
    requires WellFormed(g)
    ensures |GotoSet(g, c, x)| <= |c|
  {
    if c != {} {
      var it :| it in c;
      var rest := c - {it};
      MovedCount(g, rest, x);
      if ValidItem(g, it) && First(g, it) == x {
        assert GotoSet(g, c, x) == GotoSet(g, rest, x) + {Item(it.p, it.off + 1)};
      } else {
        assert GotoSet(g, c, x) == GotoSet(g, rest, x);
      }
    }
  }

  lemma {:induction false} ListedCount(c: set<Item>, l: seq<Item>)
    requires forall it :: it in c ==> it in l
    ensures |c| <= |l|
    decreases |l|
  {
    if l != [] {
      var n := |l| - 1;
      ListedCount(c - {l[n]}, l[..n]);
    }
  }

  lemma {:induction false} KernelCount(k: seq<KItem>)
    requires OneEach(k)
    ensures |KernelSet(k)| == |k|
    decreases |k|
  {
    if k != [] {
      var n := |k| - 1;
      KernelCount(k[..n]);
      assert KernelSet(k) == KernelSet(k[..n]) + {k[n].item};
    }
  }

  /** A kernel is no longer than the closure it was taken from, so it finds its entries in the worklist array. */
  lemma KernelFits(cx: Context, ks: seq<seq<KItem>>, s: int, x: int, t: int)
    requires ContextOk(cx) && KernelsOk(cx.g, ks) && 0 <= s < |ks| && IsGoto(cx.g, ks, s, x, t)
    ensures |ks[t]| <= |Listing(cx, ks[s])|
  {
    var c := CloOf(cx.g, ks[s]);
    assert StateOk(cx.g, ks, t);
    forall i, j | 0 <= i < j < |ks[t]| ensures ks[t][i].item != ks[t][j].item {
      assert Less(ks[t][i].item, ks[t][j].item);
    }
    KernelCount(ks[t]);
    MovedCount(cx.g, c, x);
    ListingHasClosure(cx, ks[s]);
    ListedCount(c, Listing(cx, ks[s]));
  }
}
