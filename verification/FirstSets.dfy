/** `cpfir`: the tokens that can begin the strings of each nonterminal. */
module FirstSets {
  import opened Grammars
  import opened GrammarSets

  type Firsts = seq<set<int>>

  predicate IsFirsts(g: Grammar, f: Firsts) {
    |f| == g.nnonter + 1
  }

  ghost predicate EmptyExact(g: Grammar, pempty: seq<int>)
    requires WellFormed(g)
  {
    && IsMarks(g, pempty)
    && forall n :: 0 <= n <= g.nnonter ==> (pempty[n] != WHOKNOWS <==> Derives(g, NTBASE + n, []))
  }

  /** The symbols of p before position k can all vanish. */
  predicate NullBefore(g: Grammar, p: seq<int>, k: int, pempty: seq<int>)
    requires IsMarks(g, pempty) && k <= |p|
  {
    forall m :: 1 <= m < k ==> IsNonterminal(g, p[m]) && pempty[p[m] - NTBASE] != WHOKNOWS
  }

  /** The FIRST equations of one production, for its tokens and for its nonterminals. */
  predicate Seeded(g: Grammar, p: seq<int>, pempty: seq<int>, f: Firsts)
    requires IsMarks(g, pempty) && IsFirsts(g, f)
  {
    forall k :: 1 <= k < |p| - 1 && NullBefore(g, p, k, pempty) && IsToken(g, p[k]) && IsNonterminal(g, p[0])
      ==> p[k] in f[p[0] - NTBASE]
  }

  predicate Spread(g: Grammar, p: seq<int>, pempty: seq<int>, f: Firsts)
    requires IsMarks(g, pempty) && IsFirsts(g, f)
  {
    forall k :: 1 <= k < |p| - 1 && NullBefore(g, p, k, pempty) && IsNonterminal(g, p[k]) && IsNonterminal(g, p[0])
      ==> f[p[k] - NTBASE] <= f[p[0] - NTBASE]
  }

  predicate FirstClosed(g: Grammar, pempty: seq<int>, f: Firsts)
    requires IsMarks(g, pempty) && IsFirsts(g, f)
  {
    forall i :: 0 <= i < |g.prods| ==> Seeded(g, g.prods[i], pempty, f) && Spread(g, g.prods[i], pempty, f)
  }

  /** Token a really begins some string of nonterminal number n. */
  ghost predicate Begins(g: Grammar, n: int, a: int)
    requires WellFormed(g)
  {
    IsToken(g, a) && CanStartWith(g, NTBASE + n, a)
  }

  ghost predicate FirstSound(g: Grammar, f: Firsts)
    requires WellFormed(g) && IsFirsts(g, f)
  {
    forall n, a :: 0 <= n < |f| && a in f[n] ==> Begins(g, n, a)
  }

  lemma RestForest(g: Grammar, i: int, k: int) returns (ts: seq<Tree>)
    requires WellFormed(g) && 0 <= i < |g.prods| && 0 <= k <= |Rhs(g, i)|
    requires forall n :: 0 <= n <= g.nnonter ==> !Unproductive(g, n)
    ensures ValidForest(g, ts, Rhs(g, i)[k..])
  {
    var rest := Rhs(g, i)[k..];
    forall m | 0 <= m < |rest| ensures Productive(g, rest[m]) {
      assert WfProd(g, i, g.prods[i]);
      assert rest[m] == g.prods[i][k + m + 1];
      if IsToken(g, rest[m]) {
        TokenProductive(g, rest[m]);
      } else {
        assert !Unproductive(g, rest[m] - NTBASE);
      }
    }
    ts := ProductiveForest(g, rest);
  }

  lemma FirstForest(before: seq<Tree>, t: Tree, after: seq<Tree>, a: int)
    requires YieldAll(before) == [] && Yield(t) != [] && Yield(t)[0] == a
    ensures YieldAll(before + [t] + after) != [] && YieldAll(before + [t] + after)[0] == a
  {
    YieldConcat(before, [t]);
    YieldOne(t);
    YieldConcat(before + [t], after);
  }

  lemma FirstRule(g: Grammar, i: int, k: int, a: int)
    requires WellFormed(g) && 0 <= i < |g.prods| && 0 <= k < |Rhs(g, i)|
    requires forall n :: 0 <= n <= g.nnonter ==> !Unproductive(g, n)
    requires forall m :: 0 <= m < k ==> Derives(g, Rhs(g, i)[m], [])
    requires CanStartWith(g, Rhs(g, i)[k], a)
    ensures CanStartWith(g, Lhs(g, i), a)
  {
    var rhs := Rhs(g, i);
    var before := EmptyForest(g, rhs[..k]);
    var t :| ValidTree(g, t) && Root(g, t) == rhs[k] && Yield(t) != [] && Yield(t)[0] == a;
    var after := RestForest(g, i, k + 1);
    FirstForest(before, t, after, a);
    JoinForest(g, before, t, after, rhs, k);
    MakeNode(g, i, before + [t] + after);
  }

  lemma JoinForest(g: Grammar, before: seq<Tree>, t: Tree, after: seq<Tree>, syms: seq<int>, k: nat)
    requires WellFormed(g) && k < |syms| && ValidForest(g, before, syms[..k]) && ValidForest(g, after, syms[k + 1..])
    requires ValidTree(g, t) && Root(g, t) == syms[k]
    ensures ValidForest(g, before + [t] + after, syms)
  {
    JoinParts(g, before, t, after, syms[..k], syms[k], syms[k + 1..]);
    AroundIt(syms, k);
  }

  lemma AroundIt(syms: seq<int>, k: nat)
    requires k < |syms|
    ensures syms[..k] + [syms[k]] + syms[k + 1..] == syms
  {
  }

  lemma JoinParts(g: Grammar, before: seq<Tree>, t: Tree, after: seq<Tree>, front: seq<int>, x: int, back: seq<int>)
    requires WellFormed(g) && ValidForest(g, before, front) && ValidForest(g, after, back)
    requires ValidTree(g, t) && Root(g, t) == x
    ensures ValidForest(g, before + [t] + after, front + [x] + back)
  {
    ForestConcat(g, before, front, [t], [x]);
    ForestConcat(g, before + [t], front + [x], after, back);
  }

  lemma FirstStep(g: Grammar, i: int, k: int, a: int, pempty: seq<int>)
    requires WellFormed(g) && EmptyExact(g, pempty)
    requires forall n :: 0 <= n <= g.nnonter ==> !Unproductive(g, n)
    requires 0 <= i < |g.prods| && 1 <= k < |g.prods[i]| - 1 && NullBefore(g, g.prods[i], k, pempty)
    requires CanStartWith(g, g.prods[i][k], a)
    ensures CanStartWith(g, Lhs(g, i), a)
  {
    var p := g.prods[i];
    forall m | 0 <= m < k - 1 ensures Derives(g, Rhs(g, i)[m], []) {
      assert Rhs(g, i)[m] == p[m + 1];
      assert Derives(g, NTBASE + (p[m + 1] - NTBASE), []);
    }
    assert Rhs(g, i)[k - 1] == p[k];
    FirstRule(g, i, k - 1, a);
  }

  lemma TokenStarts(g: Grammar, a: int)
    requires WellFormed(g) && IsToken(g, a)
    ensures CanStartWith(g, a, a)
  {
    assert ValidTree(g, Leaf(a)) && Yield(Leaf(a)) == [a];
  }

  // ---------------------------------------------------------------- completeness

  lemma {:induction false} FirstNonEmptyKid(ts: seq<Tree>) returns (k: nat)
    requires YieldAll(ts) != []
    ensures k < |ts| && (forall m :: 0 <= m < k ==> Yield(ts[m]) == [])
    ensures Yield(ts[k]) != [] && Yield(ts[k])[0] == YieldAll(ts)[0]
    decreases |ts|
  {
    if Yield(ts[0]) != [] {
      k := 0;
    } else {
      var j := FirstNonEmptyKid(ts[1..]);
      k := j + 1;
      forall m | 0 <= m < k ensures Yield(ts[m]) == [] {
        if m > 0 { assert ts[m] == ts[1..][m - 1]; }
      }
    }
  }

  /** Every solution of the FIRST equations holds every token that begins a derived string; with
      FirstSound, the computed family is the least solution. */
  lemma {:induction false} FirstComplete(g: Grammar, pempty: seq<int>, f: Firsts, t: Tree)
    requires WellFormed(g) && EmptyExact(g, pempty) && IsFirsts(g, f) && FirstClosed(g, pempty, f)
    requires ValidTree(g, t) && t.Node? && Yield(t) != []
    ensures Yield(t)[0] in f[Root(g, t) - NTBASE]
    decreases t
  {
    var p := g.prods[t.prod];
    assert WfProd(g, t.prod, p);
    var k := FirstNonEmptyKid(t.kids);
    forall m | 1 <= m < k + 1 ensures IsNonterminal(g, p[m]) && pempty[p[m] - NTBASE] != WHOKNOWS {
      var kid := t.kids[m - 1];
      assert Rhs(g, t.prod)[m - 1] == p[m];
      RootIsSymbol(g, kid);
      assert DerivationOf(g, kid, NTBASE + (p[m] - NTBASE), []);
    }
    assert NullBefore(g, p, k + 1, pempty);
    assert Rhs(g, t.prod)[k] == p[k + 1];
    RootIsSymbol(g, t.kids[k]);
    if t.kids[k].Node? {
      FirstComplete(g, pempty, f, t.kids[k]);
      assert Spread(g, p, pempty, f);
    } else {
      assert Seeded(g, p, pempty, f);
    }
  }

  // ---------------------------------------------------------------- the loops

  /** The (nonterminal, token) pairs not yet recorded: what the transitivity loop shrinks. */
  ghost function Missing(g: Grammar, f: Firsts): set<(int, int)> {
    set n, a | 0 <= n < |f| && 1 <= a <= g.ntokens && a !in f[n] :: (n, a)
  }

  ghost predicate Grows(f: Firsts, f': Firsts) {
    |f| == |f'| && forall n :: 0 <= n < |f| ==> f[n] <= f'[n]
  }

  /** What one set has and another lacks. */
  lemma Difference(x: set<int>, y: set<int>) returns (a: int)
    requires !(x <= y)
    ensures a in x && a !in y
  {
    assert (forall b :: b in x ==> b in y) ==> x <= y;
    a :| a in x && a !in y;
  }

  lemma MissingShrinks(g: Grammar, f: Firsts, f': Firsts)
    requires Grows(f, f')
    requires forall n, a :: 0 <= n < |f'| && a in f'[n] ==> IsToken(g, a)
    ensures Missing(g, f') <= Missing(g, f)
    ensures f != f' ==> Missing(g, f') < Missing(g, f)
  {
    if f != f' {
      assert (forall n :: 0 <= n < |f| ==> f'[n] <= f[n]) ==> forall n :: 0 <= n < |f| ==> f[n] == f'[n];
      var n :| 0 <= n < |f| && !(f'[n] <= f[n]);
      var a := Difference(f'[n], f[n]);
      assert IsToken(g, a);
      assert (n, a) in Missing(g, f);
      assert (n, a) !in Missing(g, f');
    }
  }

  /** The first loop's work on production j of nonterminal i. */
  method SeedRule(g: Grammar, pempty: seq<int>, j: int, f: Firsts) returns (f': Firsts)
    requires WellFormed(g) && EmptyExact(g, pempty) && IsFirsts(g, f) && FirstSound(g, f)
    requires forall n :: 0 <= n <= g.nnonter ==> !Unproductive(g, n)
    requires 0 <= j < |g.prods|
    ensures IsFirsts(g, f') && FirstSound(g, f') && Grows(f, f') && Seeded(g, g.prods[j], pempty, f')
  {
    f' := f;
    var prd := g.prods[j];
    assert WfProd(g, j, prd);
    var i := prd[0] - NTBASE;
    var np := |prd| - 1;
    var p := 1;
    while p < np
      invariant 1 <= p <= np && f' == f && NullBefore(g, prd, p, pempty)
    {
      var ch := prd[p];
      if ch < NTBASE {
        TokenStarts(g, ch);
        FirstStep(g, j, p, ch, pempty);
        f' := f'[i := f'[i] + {ch}];
        break;
      }
      if pempty[ch - NTBASE] == 0 {
        break;
      }
      p := p + 1;
    }
  }

  /** One production's turn in the transitivity loop. */
  method SpreadRule(g: Grammar, pempty: seq<int>, j: int, f: Firsts) returns (f': Firsts, changed: bool)
    requires WellFormed(g) && EmptyExact(g, pempty) && IsFirsts(g, f) && FirstSound(g, f)
    requires forall n :: 0 <= n <= g.nnonter ==> !Unproductive(g, n)
    requires 0 <= j < |g.prods|
    ensures IsFirsts(g, f') && FirstSound(g, f') && Grows(f, f')
    ensures changed <==> f' != f
    ensures !changed ==> Spread(g, g.prods[j], pempty, f')
  {
    f', changed := f, false;
    var prd := g.prods[j];
    assert WfProd(g, j, prd);
    var i := prd[0] - NTBASE;
    var np := |prd| - 1;
    var p := 1;
    while p < np
      invariant 1 <= p <= np && NullBefore(g, prd, p, pempty)
      invariant IsFirsts(g, f') && FirstSound(g, f') && Grows(f, f') && (changed <==> f' != f)
      invariant !changed ==> forall k :: 1 <= k < p && IsNonterminal(g, prd[k]) ==> f'[prd[k] - NTBASE] <= f'[i]
    {
      var ch := prd[p] - NTBASE;
      if ch < 0 {
        break;
      }
      forall a | a in f'[ch] ensures Begins(g, i, a) {
        assert Begins(g, ch, a);
        FirstStep(g, j, p, a, pempty);
      }
      var y := f'[i] + f'[ch];
      if y != f'[i] {
        changed := true;
      }
      assert f[i] <= f'[i] <= y;
      f' := f'[i := y];
      if pempty[ch] == 0 {
        break;
      }
      p := p + 1;
    }
  }

  /** The transitivity loop's turn for one nonterminal. */
  method SpreadNonterminal(g: Grammar, rules: seq<int>, pempty: seq<int>, f: Firsts) returns (f': Firsts, changed: bool)
    requires WellFormed(g) && EmptyExact(g, pempty) && IsFirsts(g, f) && FirstSound(g, f)
    requires forall n :: 0 <= n <= g.nnonter ==> !Unproductive(g, n)
    requires forall s :: 0 <= s < |rules| ==> 0 <= rules[s] < |g.prods|
    ensures IsFirsts(g, f') && FirstSound(g, f') && Grows(f, f')
    ensures changed <==> f' != f
    ensures !changed ==> forall s :: 0 <= s < |rules| ==> Spread(g, g.prods[rules[s]], pempty, f)
  {
    f', changed := f, false;
    var s := 0;
    while s < |rules|
      invariant 0 <= s <= |rules|
      invariant IsFirsts(g, f') && FirstSound(g, f') && Grows(f, f') && (changed <==> f' != f)
      invariant !changed ==> forall r :: 0 <= r < s ==> Spread(g, g.prods[rules[r]], pempty, f)
    {
      var f0 := f';
      var c;
      f', c := SpreadRule(g, pempty, rules[s], f0);
      GrowsTrans(f, f0, f');
      changed := changed || c;
      s := s + 1;
    }
  }

  /** One pass of the transitivity loop over every production of every nonterminal. */
  method SpreadAll(g: Grammar, pres: seq<seq<int>>, pempty: seq<int>, f: Firsts) returns (f': Firsts, changes: bool)
    requires WellFormed(g) && PresOk(g, pres) && EmptyExact(g, pempty) && IsFirsts(g, f) && FirstSound(g, f)
    requires forall n :: 0 <= n <= g.nnonter ==> !Unproductive(g, n)
    ensures IsFirsts(g, f') && FirstSound(g, f') && Grows(f, f')
    ensures changes <==> f' != f
    ensures !changes ==> forall j :: 0 <= j < |g.prods| ==> Spread(g, g.prods[j], pempty, f)
  {
    f', changes := f, false;
    var i := 0;
    while i <= g.nnonter
      invariant 0 <= i <= g.nnonter + 1
      invariant IsFirsts(g, f') && FirstSound(g, f') && Grows(f, f') && (changes <==> f' != f)
      invariant !changes ==> forall n, s :: 0 <= n < i && 0 <= s < |pres[n]| ==>
                  Spread(g, g.prods[pres[n][s]], pempty, f)
    {
      var f0 := f';
      var c;
      f', c := SpreadNonterminal(g, pres[i], pempty, f0);
      GrowsTrans(f, f0, f');
      changes := changes || c;
      i := i + 1;
    }
    if !changes {
      forall j | 0 <= j < |g.prods| ensures Spread(g, g.prods[j], pempty, f) {
        var n, s := RuleListed(g, pres, j);
      }
    }
  }

  lemma GrowsTrans(f: Firsts, f': Firsts, f'': Firsts)
    requires Grows(f, f') && Grows(f', f'')
    ensures Grows(f, f'')
    ensures f == f'' ==> f == f'
  {
    assert f == f'' ==> forall n :: 0 <= n < |f| ==> f[n] == f'[n];
  }

  lemma SeededGrows(g: Grammar, p: seq<int>, pempty: seq<int>, f: Firsts, f': Firsts)
    requires IsMarks(g, pempty) && IsFirsts(g, f) && Grows(f, f') && Seeded(g, p, pempty, f)
    ensures Seeded(g, p, pempty, f')
  {
  }

  /** The first loop's work on one nonterminal. */
  method SeedNonterminal(g: Grammar, rules: seq<int>, pempty: seq<int>, f: Firsts) returns (f': Firsts)
    requires WellFormed(g) && EmptyExact(g, pempty) && IsFirsts(g, f) && FirstSound(g, f)
    requires forall n :: 0 <= n <= g.nnonter ==> !Unproductive(g, n)
    requires forall s :: 0 <= s < |rules| ==> 0 <= rules[s] < |g.prods|
    ensures IsFirsts(g, f') && FirstSound(g, f') && Grows(f, f')
    ensures forall s :: 0 <= s < |rules| ==> Seeded(g, g.prods[rules[s]], pempty, f')
  {
    f' := f;
    var s := 0;
    while s < |rules|
      invariant 0 <= s <= |rules| && IsFirsts(g, f') && FirstSound(g, f') && Grows(f, f')
      invariant forall r :: 0 <= r < s ==> Seeded(g, g.prods[rules[r]], pempty, f')
    {
      var f0 := f';
      f' := SeedRule(g, pempty, rules[s], f0);
      GrowsTrans(f, f0, f');
      forall r | 0 <= r < s ensures Seeded(g, g.prods[rules[r]], pempty, f') {
        SeededGrows(g, g.prods[rules[r]], pempty, f0, f');
      }
      s := s + 1;
    }
  }

  predicate AllSeeded(g: Grammar, rules: seq<int>, pempty: seq<int>, f: Firsts)
    requires IsMarks(g, pempty) && IsFirsts(g, f)
  {
    forall s :: 0 <= s < |rules| ==> 0 <= rules[s] < |g.prods| && Seeded(g, g.prods[rules[s]], pempty, f)
  }

  lemma AllSeededGrows(g: Grammar, rules: seq<int>, pempty: seq<int>, f: Firsts, f': Firsts)
    requires IsMarks(g, pempty) && IsFirsts(g, f) && Grows(f, f') && AllSeeded(g, rules, pempty, f)
    ensures AllSeeded(g, rules, pempty, f')
  {
    forall s | 0 <= s < |rules| ensures Seeded(g, g.prods[rules[s]], pempty, f') {
      SeededGrows(g, g.prods[rules[s]], pempty, f, f');
    }
  }

  method SeedAll(g: Grammar, pres: seq<seq<int>>, pempty: seq<int>) returns (f: Firsts)
    requires WellFormed(g) && PresOk(g, pres) && EmptyExact(g, pempty)
    requires forall n :: 0 <= n <= g.nnonter ==> !Unproductive(g, n)
    ensures IsFirsts(g, f) && FirstSound(g, f)
    ensures forall j :: 0 <= j < |g.prods| ==> Seeded(g, g.prods[j], pempty, f)
  {
    f := seq(g.nnonter + 1, _ => {});
    var i := 0;
    while i <= g.nnonter
      invariant 0 <= i <= g.nnonter + 1 && IsFirsts(g, f) && FirstSound(g, f)
      invariant forall n :: 0 <= n < i ==> AllSeeded(g, pres[n], pempty, f)
    {
      var f0 := f;
      assert RulesFor(g, pres[i], i);
      f := SeedNonterminal(g, pres[i], pempty, f0);
      forall n | 0 <= n < i ensures AllSeeded(g, pres[n], pempty, f) {
        AllSeededGrows(g, pres[n], pempty, f0, f);
      }
      i := i + 1;
    }
    forall j | 0 <= j < |g.prods| ensures Seeded(g, g.prods[j], pempty, f) {
      var n, s := RuleListed(g, pres, j);
      assert AllSeeded(g, pres[n], pempty, f);
    }
  }

  /** `cpfir`: pfirst[n] is exactly the set of tokens that begin some string n derives. */
  method CpFir(g: Grammar, pres: seq<seq<int>>, pempty: seq<int>) returns (pfirst: Firsts)
    requires WellFormed(g) && PresOk(g, pres) && EmptyExact(g, pempty)
    requires forall n :: 0 <= n <= g.nnonter ==> !Unproductive(g, n)
    ensures IsFirsts(g, pfirst) && FirstClosed(g, pempty, pfirst)
    ensures forall n, a :: 0 <= n <= g.nnonter ==> (a in pfirst[n] <==> Begins(g, n, a))
  {
    pfirst := SeedAll(g, pres, pempty);
    var changes := true;
    while changes
      invariant IsFirsts(g, pfirst) && FirstSound(g, pfirst)
      invariant forall j :: 0 <= j < |g.prods| ==> Seeded(g, g.prods[j], pempty, pfirst)
      invariant !changes ==> forall j :: 0 <= j < |g.prods| ==> Spread(g, g.prods[j], pempty, pfirst)
      decreases Missing(g, pfirst), changes
    {
      var f0 := pfirst;
      pfirst, changes := SpreadAll(g, pres, pempty, f0);
      MissingShrinks(g, f0, pfirst);
      forall j | 0 <= j < |g.prods| ensures Seeded(g, g.prods[j], pempty, pfirst) {
        SeededGrows(g, g.prods[j], pempty, f0, pfirst);
      }
    }
    forall n, a | 0 <= n <= g.nnonter && Begins(g, n, a) ensures a in pfirst[n] {
      var t :| ValidTree(g, t) && Root(g, t) == NTBASE + n && Yield(t) != [] && Yield(t)[0] == a;
      RootIsSymbol(g, t);
      FirstComplete(g, pempty, pfirst, t);
    }
  }
}
