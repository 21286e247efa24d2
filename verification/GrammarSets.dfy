/** `cpres` and `cempty`: rules by nonterminal, productive and nullable nonterminals. */
module GrammarSets {
  import opened Grammars

  const WHOKNOWS := 0
  const OK := 1
  const EMPTY := 1

  /** The shape of a vector indexed by nonterminal number. */
  predicate IsMarks(g: Grammar, marks: seq<int>) {
    |marks| == g.nnonter + 1
  }

  /** The number of nonterminals still unknown: what the marking loops shrink. */
  ghost function Unknown(marks: seq<int>): set<int> {
    set n | 0 <= n < |marks| && marks[n] == WHOKNOWS
  }

  lemma MarkOne(marks: seq<int>, n: int)
    requires 0 <= n < |marks| && marks[n] == WHOKNOWS
    ensures Unknown(marks[n := 1]) < Unknown(marks)
  {
    assert n in Unknown(marks) && n !in Unknown(marks[n := 1]);
  }

  // ---------------------------------------------------------------- productive nonterminals

  /** Every nonterminal on the right of p is marked. */
  predicate RhsMarked(g: Grammar, p: seq<int>, marks: seq<int>)
    requires IsMarks(g, marks)
  {
    forall k :: 1 <= k < |p| - 1 && IsNonterminal(g, p[k]) ==> marks[p[k] - NTBASE] != WHOKNOWS
  }

  ghost predicate ProductiveMarks(g: Grammar, marks: seq<int>)
    requires WellFormed(g) && IsMarks(g, marks)
  {
    forall n :: 0 <= n < |marks| && marks[n] != WHOKNOWS ==> marks[n] == OK && Productive(g, NTBASE + n)
  }

  lemma {:induction false} ProductiveForest(g: Grammar, syms: seq<int>) returns (ts: seq<Tree>)
    requires WellFormed(g) && forall k :: 0 <= k < |syms| ==> Productive(g, syms[k])
    ensures ValidForest(g, ts, syms)
    decreases |syms|
  {
    if syms == [] {
      ts := [];
    } else {
      assert Productive(g, syms[0]);
      var t :| ValidTree(g, t) && Root(g, t) == syms[0];
      var rest := ProductiveForest(g, syms[1..]);
      ForestConcat(g, [t], [syms[0]], rest, syms[1..]);
      assert [syms[0]] + syms[1..] == syms;
      ts := [t] + rest;
    }
  }

  lemma TokenProductive(g: Grammar, a: int)
    requires WellFormed(g) && IsToken(g, a)
    ensures Productive(g, a)
  {
    assert ValidTree(g, Leaf(a)) && Root(g, Leaf(a)) == a;
  }

  lemma ProductiveRule(g: Grammar, i: int, marks: seq<int>)
    requires WellFormed(g) && IsMarks(g, marks) && ProductiveMarks(g, marks)
    requires 0 <= i < |g.prods| && RhsMarked(g, g.prods[i], marks)
    ensures Productive(g, Lhs(g, i))
  {
    var p := g.prods[i];
    assert WfProd(g, i, p);
    forall k | 0 <= k < |Rhs(g, i)| ensures Productive(g, Rhs(g, i)[k]) {
      assert Rhs(g, i)[k] == p[k + 1];
      if IsToken(g, p[k + 1]) {
        TokenProductive(g, p[k + 1]);
      } else {
        assert Productive(g, NTBASE + (p[k + 1] - NTBASE));
      }
    }
    var ts := ProductiveForest(g, Rhs(g, i));
    MakeNode(g, i, ts);
  }

  /** No production could mark anything more. */
  predicate ProductiveClosed(g: Grammar, marks: seq<int>)
    requires WellFormed(g) && IsMarks(g, marks)
  {
    forall i :: 0 <= i < |g.prods| && RhsMarked(g, g.prods[i], marks) ==> marks[Lhs(g, i) - NTBASE] != WHOKNOWS
  }

  lemma {:induction false} ProductiveComplete(g: Grammar, marks: seq<int>, t: Tree)
    requires WellFormed(g) && IsMarks(g, marks) && ProductiveClosed(g, marks)
    requires ValidTree(g, t) && t.Node?
    ensures marks[Root(g, t) - NTBASE] != WHOKNOWS
    decreases t
  {
    var p := g.prods[t.prod];
    assert WfProd(g, t.prod, p);
    forall k | 1 <= k < |p| - 1 && IsNonterminal(g, p[k]) ensures marks[p[k] - NTBASE] != WHOKNOWS {
      var kid := t.kids[k - 1];
      assert Rhs(g, t.prod)[k - 1] == p[k];
      RootIsSymbol(g, kid);
      ProductiveComplete(g, marks, kid);
    }
  }

  /** Nonterminal number n derives no token string. */
  ghost predicate Unproductive(g: Grammar, n: int)
    requires WellFormed(g)
  {
    !Productive(g, NTBASE + n)
  }

  /** First half of `cempty`: exactly the productive nonterminals are marked. */
  method MarkProductive(g: Grammar) returns (pempty: seq<int>)
    requires WellFormed(g)
    ensures IsMarks(g, pempty)
    ensures forall n :: 0 <= n <= g.nnonter ==> (pempty[n] == OK <==> Productive(g, NTBASE + n))
  {
    pempty := seq(g.nnonter + 1, _ => WHOKNOWS);
    label more: while true
      invariant IsMarks(g, pempty) && ProductiveMarks(g, pempty)
      decreases Unknown(pempty)
    {
      var i := 0;
      while i < |g.prods|
        invariant 0 <= i <= |g.prods|
        invariant forall j :: 0 <= j < i && RhsMarked(g, g.prods[j], pempty) ==> pempty[Lhs(g, j) - NTBASE] != WHOKNOWS
      {
        var prd := g.prods[i];
        assert WfProd(g, i, prd);
        if pempty[prd[0] - NTBASE] == WHOKNOWS {
          var np := |prd| - 1;
          var p := 1;
          while p < np && !(prd[p] >= NTBASE && pempty[prd[p] - NTBASE] == WHOKNOWS)
            invariant 1 <= p <= np
            invariant forall k :: 1 <= k < p && IsNonterminal(g, prd[k]) ==> pempty[prd[k] - NTBASE] != WHOKNOWS
          {
            p := p + 1;
          }
          if p == np {
            ProductiveRule(g, i, pempty);
            MarkOne(pempty, prd[0] - NTBASE);
            pempty := pempty[prd[0] - NTBASE := OK];
            continue more;
          }
        }
        i := i + 1;
      }
      break;
    }
    forall n | 0 <= n <= g.nnonter && Productive(g, NTBASE + n) ensures pempty[n] == OK {
      var t :| ValidTree(g, t) && Root(g, t) == NTBASE + n;
      RootIsSymbol(g, t);
      ProductiveComplete(g, pempty, t);
    }
  }

  // ---------------------------------------------------------------- nullable nonterminals

  /** The right of p is a string of marked nonterminals. */
  predicate RhsEmpty(g: Grammar, p: seq<int>, marks: seq<int>)
    requires IsMarks(g, marks)
  {
    forall k :: 1 <= k < |p| - 1 ==> IsNonterminal(g, p[k]) && marks[p[k] - NTBASE] == EMPTY
  }

  ghost predicate EmptyMarks(g: Grammar, marks: seq<int>)
    requires WellFormed(g) && IsMarks(g, marks)
  {
    forall n :: 0 <= n < |marks| && marks[n] != WHOKNOWS ==> marks[n] == EMPTY && Derives(g, NTBASE + n, [])
  }

  lemma {:induction false} EmptyForest(g: Grammar, syms: seq<int>) returns (ts: seq<Tree>)
    requires WellFormed(g) && forall k :: 0 <= k < |syms| ==> Derives(g, syms[k], [])
    ensures ValidForest(g, ts, syms) && YieldAll(ts) == []
    decreases |syms|
  {
    if syms == [] {
      ts := [];
    } else {
      assert Derives(g, syms[0], []);
      var t :| DerivationOf(g, t, syms[0], []);
      var rest := EmptyForest(g, syms[1..]);
      ForestConcat(g, [t], [syms[0]], rest, syms[1..]);
      assert [syms[0]] + syms[1..] == syms;
      YieldOne(t);
      YieldConcat([t], rest);
      ts := [t] + rest;
    }
  }

  lemma EmptyRule(g: Grammar, i: int, marks: seq<int>)
    requires WellFormed(g) && IsMarks(g, marks) && EmptyMarks(g, marks)
    requires 0 <= i < |g.prods| && RhsEmpty(g, g.prods[i], marks)
    ensures Derives(g, Lhs(g, i), [])
  {
    var p := g.prods[i];
    forall k | 0 <= k < |Rhs(g, i)| ensures Derives(g, Rhs(g, i)[k], []) {
      assert Rhs(g, i)[k] == p[k + 1];
      assert Derives(g, NTBASE + (p[k + 1] - NTBASE), []);
    }
    var ts := EmptyForest(g, Rhs(g, i));
    MakeNode(g, i, ts);
    assert DerivationOf(g, Node(i, ts), Lhs(g, i), []);
  }

  predicate EmptyClosed(g: Grammar, marks: seq<int>)
    requires WellFormed(g) && IsMarks(g, marks)
  {
    forall i :: 0 <= i < |g.prods| && RhsEmpty(g, g.prods[i], marks) ==> marks[Lhs(g, i) - NTBASE] == EMPTY
  }

  lemma {:induction false} EmptyYieldKids(ts: seq<Tree>, k: nat)
    requires YieldAll(ts) == [] && k < |ts|
    ensures Yield(ts[k]) == []
    decreases k
  {
    if k > 0 {
      EmptyYieldKids(ts[1..], k - 1);
    }
  }

  lemma {:induction false} EmptyComplete(g: Grammar, marks: seq<int>, t: Tree)
    requires WellFormed(g) && IsMarks(g, marks) && EmptyClosed(g, marks)
    requires ValidTree(g, t) && Yield(t) == []
    ensures IsNonterminal(g, Root(g, t)) && marks[Root(g, t) - NTBASE] == EMPTY
    decreases t
  {
    RootIsSymbol(g, t);
    var p := g.prods[t.prod];
    forall k | 1 <= k < |p| - 1 ensures IsNonterminal(g, p[k]) && marks[p[k] - NTBASE] == EMPTY {
      assert Rhs(g, t.prod)[k - 1] == p[k];
      EmptyYieldKids(t.kids, k - 1);
      EmptyComplete(g, marks, t.kids[k - 1]);
    }
  }

  /** Second half of `cempty`; production 0 ends in `$end` and is skipped. */
  method MarkEmpty(g: Grammar) returns (pempty: seq<int>)
    requires WellFormed(g)
    ensures IsMarks(g, pempty)
    ensures forall n :: 0 <= n <= g.nnonter ==> pempty[n] == WHOKNOWS || pempty[n] == EMPTY
    ensures forall n :: 0 <= n <= g.nnonter ==> (pempty[n] == EMPTY <==> Derives(g, NTBASE + n, []))
  {
    pempty := seq(g.nnonter + 1, _ => WHOKNOWS);
    label again: while true
      invariant IsMarks(g, pempty) && EmptyMarks(g, pempty)
      decreases Unknown(pempty)
    {
      var i := 1;
      while i < |g.prods|
        invariant 1 <= i <= |g.prods|
        invariant forall j :: 1 <= j < i && RhsEmpty(g, g.prods[j], pempty) ==> pempty[Lhs(g, j) - NTBASE] == EMPTY
      {
        var prd := g.prods[i];
        assert WfProd(g, i, prd);
        if pempty[prd[0] - NTBASE] == WHOKNOWS {
          var np := |prd| - 1;
          var p := 1;
          while p < np && !(prd[p] < NTBASE || pempty[prd[p] - NTBASE] != EMPTY)
            invariant 1 <= p <= np
            invariant forall k :: 1 <= k < p ==> IsNonterminal(g, prd[k]) && pempty[prd[k] - NTBASE] == EMPTY
          {
            p := p + 1;
          }
          if p == np {
            EmptyRule(g, i, pempty);
            MarkOne(pempty, prd[0] - NTBASE);
            pempty := pempty[prd[0] - NTBASE := EMPTY];
            continue again;
          }
        }
        i := i + 1;
      }
      assert EmptyClosed(g, pempty) by {
        assert g.prods[0][2] == END_TOKEN && !IsNonterminal(g, END_TOKEN);
      }
      break;
    }
    forall n | 0 <= n <= g.nnonter && Derives(g, NTBASE + n, []) ensures pempty[n] == EMPTY {
      var t :| DerivationOf(g, t, NTBASE + n, []);
      EmptyComplete(g, pempty, t);
    }
  }

  /** `cempty`: refuses a grammar with exactly the user nonterminals that derive no token string, and
      otherwise marks exactly those that derive the empty string. */
  method CEmpty(g: Grammar) returns (never: set<int>, pempty: seq<int>)
    requires WellFormed(g)
    ensures never == set n | 1 <= n <= g.nnonter && Unproductive(g, n)
    ensures never == {} ==> IsMarks(g, pempty)
    ensures never == {} ==> forall n :: 0 <= n <= g.nnonter ==> (pempty[n] == EMPTY <==> Derives(g, NTBASE + n, []))
    ensures never == {} ==> forall n :: 0 <= n <= g.nnonter ==> pempty[n] == WHOKNOWS || pempty[n] == EMPTY
  {
    pempty := MarkProductive(g);
    never := {};
    var i := 0;
    while i <= g.nnonter
      invariant 0 <= i <= g.nnonter + 1
      invariant never == set n | 1 <= n < i && Unproductive(g, n)
    {
      if i != 0 && pempty[i] != OK {
        never := never + {i};
      }
      i := i + 1;
    }
    if never != {} {
      return;
    }
    pempty := MarkEmpty(g);
  }

  /** A grammar `cempty` lets through has only productive nonterminals, `$accept` included. */
  lemma AllProductive(g: Grammar)
    requires WellFormed(g) && forall n :: 1 <= n <= g.nnonter ==> !Unproductive(g, n)
    ensures forall n :: 0 <= n <= g.nnonter ==> !Unproductive(g, n)
  {
    var start := StartSymbol(g);
    assert WfProd(g, 0, g.prods[0]);
    if IsToken(g, start) {
      TokenProductive(g, start);
    } else {
      assert !Unproductive(g, start - NTBASE);
    }
    TokenProductive(g, END_TOKEN);
    assert Rhs(g, 0) == [start, END_TOKEN];
    var ts := ProductiveForest(g, Rhs(g, 0));
    MakeNode(g, 0, ts);
  }

  // ---------------------------------------------------------------- productions by nonterminal

  /** rules lists, in order, the productions of nonterminal number n. */
  predicate RulesFor(g: Grammar, rules: seq<int>, n: int)
    requires WellFormed(g)
  {
    && (forall s :: 0 <= s < |rules| ==> 0 <= rules[s] < |g.prods| && Lhs(g, rules[s]) == NTBASE + n)
    && (forall s, r :: 0 <= s < r < |rules| ==> rules[s] < rules[r])
    && (forall j :: 0 <= j < |g.prods| && Lhs(g, j) == NTBASE + n ==> j in rules)
  }

  predicate PresOk(g: Grammar, pres: seq<seq<int>>)
    requires WellFormed(g)
  {
    && |pres| == g.nnonter + 1
    && (forall n :: 0 <= n < |pres| ==> RulesFor(g, pres[n], n))
  }

  predicate HasNoProduction(g: Grammar, n: int)
    requires WellFormed(g)
  {
    forall j :: 0 <= j < |g.prods| ==> Lhs(g, j) != NTBASE + n
  }

  /** One nonterminal's turn in `cpres`. */
  method CollectRules(g: Grammar, n: int) returns (curres: seq<int>)
    requires WellFormed(g)
    ensures RulesFor(g, curres, n)
  {
    curres := [];
    var c := n + NTBASE;
    var j := 0;
    while j < |g.prods|
      invariant 0 <= j <= |g.prods|
      invariant forall s :: 0 <= s < |curres| ==> 0 <= curres[s] < j && Lhs(g, curres[s]) == c
      invariant forall s, r :: 0 <= s < r < |curres| ==> curres[s] < curres[r]
      invariant forall k :: 0 <= k < j && Lhs(g, k) == c ==> k in curres
    {
      if g.prods[j][0] == c {
        curres := curres + [j];
      }
      j := j + 1;
    }
  }

  lemma NoRules(g: Grammar, rules: seq<int>, n: int)
    requires WellFormed(g) && RulesFor(g, rules, n)
    ensures rules == [] <==> HasNoProduction(g, n)
  {
    if rules != [] {
      assert Lhs(g, rules[0]) == NTBASE + n;
    }
  }

  /** `cpres`: groups the productions, and reports exactly the nonterminals that have none. */
  method CPres(g: Grammar) returns (undefined: set<int>, pres: seq<seq<int>>)
    requires WellFormed(g)
    ensures PresOk(g, pres)
    ensures undefined == set n | 0 <= n <= g.nnonter && HasNoProduction(g, n)
  {
    pres, undefined := [], {};
    var i := 0;
    while i <= g.nnonter
      invariant 0 <= i <= g.nnonter + 1 && |pres| == i
      invariant undefined == set n | 0 <= n < i && HasNoProduction(g, n)
      invariant forall n :: 0 <= n < |pres| ==> RulesFor(g, pres[n], n)
    {
      var curres := CollectRules(g, i);
      NoRules(g, curres, i);
      if |curres| == 0 {
        undefined := undefined + {i};
      }
      pres := pres + [curres];
      i := i + 1;
    }
  }

  lemma RuleListed(g: Grammar, pres: seq<seq<int>>, j: int) returns (n: int, s: int)
    requires WellFormed(g) && PresOk(g, pres) && 0 <= j < |g.prods|
    ensures 0 <= n <= g.nnonter && Lhs(g, j) == NTBASE + n && 0 <= s < |pres[n]| && pres[n][s] == j
  {
    assert WfProd(g, j, g.prods[j]);
    n := Lhs(g, j) - NTBASE;
    assert RulesFor(g, pres[n], n);
    s :| 0 <= s < |pres[n]| && pres[n][s] == j;
  }
}
