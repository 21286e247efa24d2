/** LR items, item closures as sets, and lookahead after a dot. */
module Items {
  import opened Grammars
  import opened GrammarSets
  import opened FirstSets
  import opened Paths

  /** An item names its production slice and the dot's offset in it. Slice p >= 0 is production p without
      its left-hand side; slice -1 is the whole of production 0, used only by the very first item. */
  datatype Item = Item(p: int, off: nat)

  /** The length of slice p, its end mark included. */
  function Len(g: Grammar, p: int): int
    requires WellFormed(g) && -1 <= p < |g.prods|
  {
    if p == -1 then |g.prods[0]| else |g.prods[p]| - 1
  }

  /** Entry j of slice p. */
  function At(g: Grammar, p: int, j: nat): int
    requires WellFormed(g) && -1 <= p < |g.prods| && j < Len(g, p)
  {
    if p == -1 then g.prods[0][j] else g.prods[p][j + 1]
  }

  predicate ValidItem(g: Grammar, it: Item)
    requires WellFormed(g)
  {
    -1 <= it.p < |g.prods| && it.off < Len(g, it.p)
  }

  /** The symbol after the dot; minus the production number when the dot is at the end. */
  function First(g: Grammar, it: Item): int
    requires WellFormed(g) && ValidItem(g, it)
  {
    At(g, it.p, it.off)
  }

  function Prodno(it: Item): int {
    if it.p == -1 then 0 else it.p
  }

  /** Only the first item of state 0, and items whose dot has moved, stand in a kernel. */
  predicate KernelItem(it: Item) {
    it.off >= 1
  }

  lemma ItemBasics(g: Grammar, it: Item)
    requires WellFormed(g) && ValidItem(g, it)
    ensures it.off + 1 < Len(g, it.p) ==> IsSymbol(g, First(g, it))
    ensures it.off + 1 == Len(g, it.p) ==> First(g, it) == -Prodno(it)
  {
    assert WfProd(g, Prodno(it), g.prods[Prodno(it)]);
  }

  // ---------------------------------------------------------------- closure of a set of items

  /** A production's left-hand side and the symbol its body starts with. */
  ghost function LeftEdges(g: Grammar): set<(int, int)>
    requires WellFormed(g)
  {
    set i | 0 <= i < |g.prods| :: (Lhs(g, i), At(g, i, 0))
  }

  /** Some item of ks has its dot before a nonterminal whose leftmost expansion reaches production q. */
  ghost predicate Entered(g: Grammar, ks: set<Item>, q: int)
    requires WellFormed(g) && forall k :: k in ks ==> ValidItem(g, k)
  {
    0 <= q < |g.prods| && exists k :: k in ks && Reach(LeftEdges(g), First(g, k), Lhs(g, q))
  }

  ghost function Clo(g: Grammar, ks: set<Item>): set<Item>
    requires WellFormed(g) && forall k :: k in ks ==> ValidItem(g, k)
  {
    ks + set q | 0 <= q < |g.prods| && Entered(g, ks, q) :: Item(q, 0)
  }

  ghost predicate ItemsClosed(g: Grammar, c: set<Item>)
    requires WellFormed(g)
  {
    forall it, q :: it in c && ValidItem(g, it) && 0 <= q < |g.prods| && First(g, it) == Lhs(g, q) ==> Item(q, 0) in c
  }

  lemma CloIsClosed(g: Grammar, ks: set<Item>)
    requires WellFormed(g) && forall k :: k in ks ==> ValidItem(g, k)
    ensures ItemsClosed(g, Clo(g, ks))
    ensures forall it :: it in Clo(g, ks) ==> ValidItem(g, it)
  {
    forall it, q | it in Clo(g, ks) && ValidItem(g, it) && 0 <= q < |g.prods| && First(g, it) == Lhs(g, q)
      ensures Item(q, 0) in Clo(g, ks)
    {
      if it in ks {
        ReachSelf(LeftEdges(g), First(g, it));
      } else {
        var k :| k in ks && Reach(LeftEdges(g), First(g, k), Lhs(g, it.p));
        assert (Lhs(g, it.p), At(g, it.p, 0)) in LeftEdges(g);
        ReachExtend(LeftEdges(g), First(g, k), Lhs(g, it.p), Lhs(g, q));
      }
      assert Entered(g, ks, q);
    }
    forall it | it in Clo(g, ks) ensures ValidItem(g, it) {
      if it !in ks {
        assert WfProd(g, it.p, g.prods[it.p]);
      }
    }
  }

  /** Clo is the least closed set of items above ks. */
  lemma CloLeast(g: Grammar, ks: set<Item>, c: set<Item>)
    requires WellFormed(g) && (forall k :: k in ks ==> ValidItem(g, k))
    requires ks <= c && ItemsClosed(g, c)
    ensures Clo(g, ks) <= c
  {
    forall q | 0 <= q < |g.prods| && Entered(g, ks, q) ensures Item(q, 0) in c {
      var k :| k in ks && Reach(LeftEdges(g), First(g, k), Lhs(g, q));
      var via :| Walk(LeftEdges(g), First(g, k), via, Lhs(g, q));
      CloLeastWalk(g, c, k, via, q);
    }
  }

  lemma {:induction false} CloLeastWalk(g: Grammar, c: set<Item>, it: Item, via: seq<int>, q: int)
    requires WellFormed(g) && ItemsClosed(g, c) && it in c && ValidItem(g, it) && 0 <= q < |g.prods|
    requires Walk(LeftEdges(g), First(g, it), via, Lhs(g, q))
    ensures Item(q, 0) in c
    decreases |via|
  {
    if via != [] {
      assert (First(g, it), via[0]) in LeftEdges(g);
      var i :| 0 <= i < |g.prods| && (Lhs(g, i), At(g, i, 0)) == (First(g, it), via[0]);
      assert WfProd(g, i, g.prods[i]);
      assert Item(i, 0) in c;
      CloLeastWalk(g, c, Item(i, 0), via[1..], q);
    }
  }

  /** A closure item with the dot in front, unless it is in ks, was called for by an item before its
      left-hand side. */
  lemma CalledFor(g: Grammar, ks: set<Item>, q: int) returns (it: Item)
    requires WellFormed(g) && (forall k :: k in ks ==> ValidItem(g, k))
    requires Entered(g, ks, q)
    ensures it in Clo(g, ks) && ValidItem(g, it) && First(g, it) == Lhs(g, q)
  {
    var k :| k in ks && Reach(LeftEdges(g), First(g, k), Lhs(g, q));
    var via :| Walk(LeftEdges(g), First(g, k), via, Lhs(g, q));
    if via == [] {
      it := k;
    } else {
      var y := LastEdge(LeftEdges(g), First(g, k), via, Lhs(g, q));
      var i :| 0 <= i < |g.prods| && (Lhs(g, i), At(g, i, 0)) == (y, Lhs(g, q));
      it := Item(i, 0);
      assert WfProd(g, i, g.prods[i]);
      assert Entered(g, ks, i);
    }
  }

  // ---------------------------------------------------------------- lookahead

  /** The grammar with the vectors computed from it. */
  datatype Context = Context(g: Grammar, pres: seq<seq<int>>, pempty: seq<int>, pfirst: Firsts)

  predicate IsLook(g: Grammar, s: set<int>) {
    forall a :: a in s ==> 0 <= a <= g.ntokens
  }

  predicate ContextOk(cx: Context) {
    && WellFormed(cx.g)
    && PresOk(cx.g, cx.pres)
    && IsMarks(cx.g, cx.pempty)
    && IsFirsts(cx.g, cx.pfirst)
    && forall n :: 0 <= n <= cx.g.nnonter ==> IsLook(cx.g, cx.pfirst[n])
  }

  /** FIRST of the rest of slice p from j on, followed by lookahead l. */
  function LookAfter(cx: Context, p: int, j: nat, l: set<int>): (r: set<int>)
    requires ContextOk(cx) && -1 <= p < |cx.g.prods| && 1 <= j < Len(cx.g, p) && IsLook(cx.g, l)
    ensures IsLook(cx.g, r)
    decreases Len(cx.g, p) - j
  {
    ItemBasics(cx.g, Item(p, j));
    var ch := At(cx.g, p, j);
    if ch <= 0 then l
    else if ch < NTBASE then {ch}
    else if cx.pempty[ch - NTBASE] == WHOKNOWS then cx.pfirst[ch - NTBASE]
    else cx.pfirst[ch - NTBASE] + LookAfter(cx, p, j + 1, l)
  }

  lemma {:induction false} LookAfterMono(cx: Context, p: int, j: nat, l: set<int>, l': set<int>)
    requires ContextOk(cx) && -1 <= p < |cx.g.prods| && 1 <= j < Len(cx.g, p)
    requires IsLook(cx.g, l) && IsLook(cx.g, l') && l <= l'
    ensures LookAfter(cx, p, j, l) <= LookAfter(cx, p, j, l')
    decreases Len(cx.g, p) - j
  {
    ItemBasics(cx.g, Item(p, j));
    var ch := At(cx.g, p, j);
    if ch >= NTBASE && cx.pempty[ch - NTBASE] != WHOKNOWS {
      LookAfterMono(cx, p, j + 1, l, l');
    }
  }

  /** An item with its dot before a nonterminal has something after that nonterminal, if only the end mark. */
  predicate BeforeNonterminal(g: Grammar, it: Item)
    requires WellFormed(g)
  {
    ValidItem(g, it) && First(g, it) >= NTBASE
  }

  lemma RoomAfter(g: Grammar, it: Item)
    requires WellFormed(g) && ValidItem(g, it) && First(g, it) > 0
    ensures it.off + 1 < Len(g, it.p)
  {
    ItemBasics(g, it);
  }

  /** What an item before a nonterminal hands to that nonterminal's productions. */
  function Handed(cx: Context, it: Item, l: set<int>): (r: set<int>)
    requires ContextOk(cx) && BeforeNonterminal(cx.g, it) && IsLook(cx.g, l)
    ensures IsLook(cx.g, r)
  {
    RoomAfter(cx.g, it);
    LookAfter(cx, it.p, it.off + 1, l)
  }
}
