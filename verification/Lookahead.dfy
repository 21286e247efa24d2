/** What lookahead after a dot means: the tokens that may really come there. */
module Lookahead {
  import opened Grammars
  import opened GrammarSets
  import opened FirstSets
  import opened Items

  /** The vectors are what the grammar says: exactly the nullable nonterminals are marked, the FIRST sets are exactly
      the tokens that begin derived strings, and every nonterminal derives something. */
  ghost predicate ContextExact(cx: Context) {
    && ContextOk(cx) && EmptyExact(cx.g, cx.pempty)
    && (forall n, a :: 0 <= n <= cx.g.nnonter ==> (a in cx.pfirst[n] <==> Begins(cx.g, n, a)))
    && (forall n :: 0 <= n <= cx.g.nnonter ==> !Unproductive(cx.g, n))
  }

  // ---------------------------------------------------------------- strings of symbols

  /** The symbols derive a token string that begins with a. */
  ghost predicate StringBegins(g: Grammar, syms: seq<int>, a: int)
    requires WellFormed(g)
  {
    exists ts :: ValidForest(g, ts, syms) && YieldAll(ts) != [] && YieldAll(ts)[0] == a
  }

  /** The symbols derive the empty string. */
  ghost predicate StringNull(g: Grammar, syms: seq<int>)
    requires WellFormed(g)
  {
    exists ts :: ValidForest(g, ts, syms) && YieldAll(ts) == []
  }

  ghost predicate AllSymbols(g: Grammar, syms: seq<int>) {
    forall k :: 0 <= k < |syms| ==> IsSymbol(g, syms[k])
  }

  /** Where every nonterminal derives something, every string of symbols does. */
  lemma SomeForest(g: Grammar, syms: seq<int>) returns (ts: seq<Tree>)
    requires WellFormed(g) && AllSymbols(g, syms) && forall n :: 0 <= n <= g.nnonter ==> !Unproductive(g, n)
    ensures ValidForest(g, ts, syms)
  {
    forall k | 0 <= k < |syms| ensures Productive(g, syms[k]) {
      assert IsSymbol(g, syms[k]);
      if IsToken(g, syms[k]) {
        TokenProductive(g, syms[k]);
      } else {
        assert !Unproductive(g, syms[k] - NTBASE);
      }
    }
    ts := ProductiveForest(g, syms);
  }

  lemma ConsForest(g: Grammar, t: Tree, ts: seq<Tree>, x: int, rest: seq<int>)
    requires WellFormed(g) && ValidTree(g, t) && Root(g, t) == x && ValidForest(g, ts, rest)
    ensures ValidForest(g, [t] + ts, [x] + rest) && YieldAll([t] + ts) == Yield(t) + YieldAll(ts)
  {
    ForestConcat(g, [t], [x], ts, rest);
    YieldConcat([t], ts);
    YieldOne(t);
  }

  lemma UnconsForest(g: Grammar, ts: seq<Tree>, x: int, rest: seq<int>)
    requires WellFormed(g) && ValidForest(g, ts, [x] + rest)
    ensures |ts| >= 1 && ValidTree(g, ts[0]) && Root(g, ts[0]) == x && ValidForest(g, ts[1..], rest)
    ensures YieldAll(ts) == Yield(ts[0]) + YieldAll(ts[1..])
  {
    assert forall k :: 0 <= k < |rest| ==> ([x] + rest)[k + 1] == rest[k] && ts[1..][k] == ts[k + 1];
  }

  lemma BeginsWithFirst(g: Grammar, x: int, rest: seq<int>, a: int)
    requires WellFormed(g) && AllSymbols(g, rest) && forall n :: 0 <= n <= g.nnonter ==> !Unproductive(g, n)
    requires CanStartWith(g, x, a)
    ensures StringBegins(g, [x] + rest, a)
  {
    var t :| ValidTree(g, t) && Root(g, t) == x && Yield(t) != [] && Yield(t)[0] == a;
    var ts := SomeForest(g, rest);
    ConsForest(g, t, ts, x, rest);
  }

  lemma BeginsWithRest(g: Grammar, x: int, rest: seq<int>, a: int)
    requires WellFormed(g) && Derives(g, x, []) && StringBegins(g, rest, a)
    ensures StringBegins(g, [x] + rest, a)
  {
    var t :| DerivationOf(g, t, x, []);
    var ts :| ValidForest(g, ts, rest) && YieldAll(ts) != [] && YieldAll(ts)[0] == a;
    ConsForest(g, t, ts, x, rest);
  }

  /** A string begins with what its first symbol begins with, or, if that can vanish, with what the rest does. */
  lemma BeginsCons(g: Grammar, x: int, rest: seq<int>, a: int)
    requires WellFormed(g) && AllSymbols(g, rest) && forall n :: 0 <= n <= g.nnonter ==> !Unproductive(g, n)
    ensures StringBegins(g, [x] + rest, a) <==> CanStartWith(g, x, a) || (Derives(g, x, []) && StringBegins(g, rest, a))
  {
    if StringBegins(g, [x] + rest, a) {
      var ts :| ValidForest(g, ts, [x] + rest) && YieldAll(ts) != [] && YieldAll(ts)[0] == a;
      UnconsForest(g, ts, x, rest);
      if Yield(ts[0]) == [] { assert DerivationOf(g, ts[0], x, []); }
    }
    if CanStartWith(g, x, a) { BeginsWithFirst(g, x, rest, a); }
    if Derives(g, x, []) && StringBegins(g, rest, a) { BeginsWithRest(g, x, rest, a); }
  }

  lemma NullCons(g: Grammar, x: int, rest: seq<int>)
    requires WellFormed(g)
    ensures StringNull(g, [x] + rest) <==> Derives(g, x, []) && StringNull(g, rest)
  {
    if StringNull(g, [x] + rest) {
      var ts :| ValidForest(g, ts, [x] + rest) && YieldAll(ts) == [];
      UnconsForest(g, ts, x, rest);
      assert DerivationOf(g, ts[0], x, []);
    }
    if Derives(g, x, []) && StringNull(g, rest) {
      var t :| DerivationOf(g, t, x, []);
      var ts :| ValidForest(g, ts, rest) && YieldAll(ts) == [];
      ConsForest(g, t, ts, x, rest);
    }
  }

  // ---------------------------------------------------------------- the rest of a production

  /** The symbols of slice p from j on, without the end mark. */
  ghost function Tail(g: Grammar, p: int, j: nat): seq<int>
    requires WellFormed(g) && -1 <= p < |g.prods| && j < Len(g, p)
    decreases Len(g, p) - j
  {
    if j + 1 == Len(g, p) then [] else [At(g, p, j)] + Tail(g, p, j + 1)
  }

  lemma {:induction false} TailSymbols(g: Grammar, p: int, j: nat)
    requires WellFormed(g) && -1 <= p < |g.prods| && j < Len(g, p)
    ensures AllSymbols(g, Tail(g, p, j)) && |Tail(g, p, j)| == Len(g, p) - 1 - j
    decreases Len(g, p) - j
  {
    if j + 1 < Len(g, p) {
      TailSymbols(g, p, j + 1);
      ItemBasics(g, Item(p, j));
    }
  }

  lemma TokenCases(g: Grammar, x: int, a: int)
    requires WellFormed(g) && IsToken(g, x)
    ensures (CanStartWith(g, x, a) <==> a == x) && !Derives(g, x, [])
  {
    TokenStarts(g, x);
    forall t | ValidTree(g, t) && Root(g, t) == x ensures Yield(t) == [x] {
      RootIsSymbol(g, t);
    }
  }

  /** The lookahead handed on is exactly what may come next: a token that begins what the rest of the production
      derives, or, if the rest can vanish, a token of the lookahead behind it. */
  lemma {:induction false} LookAfterExact(cx: Context, p: int, j: nat, l: set<int>, a: int)
    requires ContextExact(cx) && -1 <= p < |cx.g.prods| && 1 <= j < Len(cx.g, p) && IsLook(cx.g, l)
    ensures a in LookAfter(cx, p, j, l) <==>
            || StringBegins(cx.g, Tail(cx.g, p, j), a)
            || (StringNull(cx.g, Tail(cx.g, p, j)) && a in l)
    decreases Len(cx.g, p) - j
  {
    var g := cx.g;
    ItemBasics(g, Item(p, j));
    if j + 1 == Len(g, p) {
      assert ValidForest(g, [], []) && YieldAll([]) == [];
    } else {
      var x, rest := At(g, p, j), Tail(g, p, j + 1);
      TailSymbols(g, p, j + 1);
      BeginsCons(g, x, rest, a);
      NullCons(g, x, rest);
      LookAfterExact(cx, p, j + 1, l, a);
      if IsToken(g, x) {
        TokenCases(g, x, a);
      } else {
        NonterminalCases(cx, x, a);
      }
    }
  }

  lemma NonterminalCases(cx: Context, x: int, a: int)
    requires ContextExact(cx) && IsNonterminal(cx.g, x)
    ensures a in cx.pfirst[x - NTBASE] <==> CanStartWith(cx.g, x, a)
    ensures cx.pempty[x - NTBASE] != WHOKNOWS <==> Derives(cx.g, x, [])
  {
    var n := x - NTBASE;
    assert a in cx.pfirst[n] <==> Begins(cx.g, n, a);
    if CanStartWith(cx.g, x, a) {
      var t :| ValidTree(cx.g, t) && Root(cx.g, t) == x && Yield(t) != [] && Yield(t)[0] == a;
      YieldTokens(cx.g, t, 0);
    }
  }

  /** A derived string is made of tokens. */
  lemma {:induction false} YieldTokens(g: Grammar, t: Tree, k: nat)
    requires WellFormed(g) && ValidTree(g, t) && k < |Yield(t)|
    ensures IsToken(g, Yield(t)[k])
    decreases t, 0
  {
    if t.Node? { YieldAllTokens(g, t.kids, k); }
  }

  lemma {:induction false} YieldAllTokens(g: Grammar, ts: seq<Tree>, k: nat)
    requires WellFormed(g) && (forall i :: 0 <= i < |ts| ==> ValidTree(g, ts[i])) && k < |YieldAll(ts)|
    ensures IsToken(g, YieldAll(ts)[k])
    decreases ts, 1
  {
    if k < |Yield(ts[0])| {
      YieldTokens(g, ts[0], k);
    } else {
      YieldAllTokens(g, ts[1..], k - |Yield(ts[0])|);
    }
  }
}
