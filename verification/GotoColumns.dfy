/** `go2gen` and `go2out`: the gotos on each nonterminal. */
module GotoColumns {
  import opened Grammars
  import opened GrammarSets
  import opened Items
  import opened Closure
  import opened Automaton
  import opened Generation
  import opened StaGen
  import opened Paths
  import opened Compress

  // ---------------------------------------------------------------- which nonterminals lead to c

  /** Expanding x leftmost can put c in front. */
  ghost predicate LeadsTo(g: Grammar, x: int, c: int)
    requires WellFormed(g)
  {
    Reach(LeftEdges(g), x, c)
  }

  /** Marked nonterminals lead to c. */
  ghost predicate LeadMarks(g: Grammar, marks: seq<int>, c: int)
    requires WellFormed(g) && IsMarks(g, marks)
  {
    forall n :: 0 <= n < |marks| && marks[n] != 0 ==> LeadsTo(g, NTBASE + n, NTBASE + c)
  }

  /** Production i adds nothing to the marks. */
  predicate LeadClosed(g: Grammar, marks: seq<int>, i: int)
    requires WellFormed(g) && IsMarks(g, marks) && 0 <= i < |g.prods|
  {
    IsNonterminal(g, g.prods[i][1]) && marks[g.prods[i][1] - NTBASE] != 0 && IsNonterminal(g, g.prods[i][0]) ==>
      marks[g.prods[i][0] - NTBASE] != 0
  }

  lemma {:induction false} LeadComplete(g: Grammar, marks: seq<int>, x: int, via: seq<int>, c: int)
    requires WellFormed(g) && IsMarks(g, marks) && 0 <= c <= g.nnonter && marks[c] != 0
    requires forall i :: 0 <= i < |g.prods| ==> LeadClosed(g, marks, i)
    requires Walk(LeftEdges(g), x, via, NTBASE + c)
    ensures IsNonterminal(g, x) && marks[x - NTBASE] != 0
    decreases |via|
  {
    if via != [] {
      LeadComplete(g, marks, via[0], via[1..], c);
      assert (x, via[0]) in LeftEdges(g);
      var i :| 0 <= i < |g.prods| && (Lhs(g, i), At(g, i, 0)) == (x, via[0]);
      assert WfProd(g, i, g.prods[i]);
      assert LeadClosed(g, marks, i);
    }
  }

  /** First half of `go2gen`: exactly the nonterminals that lead to c are marked. */
  method MarkLeads(g: Grammar, c: nat) returns (marks: seq<int>)
    requires WellFormed(g) && c <= g.nnonter
    ensures IsMarks(g, marks)
    ensures forall n :: 0 <= n <= g.nnonter ==> (marks[n] != 0 <==> LeadsTo(g, NTBASE + n, NTBASE + c))
  {
    marks := seq(g.nnonter + 1, n => if n == c then 1 else 0);
    ReachSelf(LeftEdges(g), NTBASE + c);
    var work := true;
    while work
      invariant IsMarks(g, marks) && marks[c] != 0 && LeadMarks(g, marks, c)
      invariant !work ==> forall i :: 0 <= i < |g.prods| ==> LeadClosed(g, marks, i)
      decreases Unknown(marks), work
    {
      marks, work := LeadPass(g, marks, c);
    }
    forall n | 0 <= n <= g.nnonter && LeadsTo(g, NTBASE + n, NTBASE + c) ensures marks[n] != 0 {
      var via :| Walk(LeftEdges(g), NTBASE + n, via, NTBASE + c);
      LeadComplete(g, marks, NTBASE + n, via, c);
    }
  }

  lemma LeadStep(g: Grammar, i: int, c: int)
    requires WellFormed(g) && 0 <= i < |g.prods| && LeadsTo(g, g.prods[i][1], c)
    ensures LeadsTo(g, Lhs(g, i), c)
  {
    assert WfProd(g, i, g.prods[i]);
    assert (Lhs(g, i), At(g, i, 0)) in LeftEdges(g);
    ReachEdge(LeftEdges(g), Lhs(g, i), g.prods[i][1]);
    ReachTrans(LeftEdges(g), Lhs(g, i), g.prods[i][1], c);
  }

  method LeadPass(g: Grammar, marks: seq<int>, c: nat) returns (marks': seq<int>, work: bool)
    requires WellFormed(g) && c <= g.nnonter && IsMarks(g, marks) && marks[c] != 0 && LeadMarks(g, marks, c)
    ensures IsMarks(g, marks') && marks'[c] != 0 && LeadMarks(g, marks', c)
    ensures work ==> Unknown(marks') < Unknown(marks)
    ensures !work ==> marks' == marks && forall i :: 0 <= i < |g.prods| ==> LeadClosed(g, marks, i)
  {
    marks', work := marks, false;
    var i := 0;
    while i < |g.prods|
      invariant 0 <= i <= |g.prods| && IsMarks(g, marks') && marks'[c] != 0 && LeadMarks(g, marks', c)
      invariant work ==> Unknown(marks') < Unknown(marks)
      invariant !work ==> marks' == marks && forall j :: 0 <= j < i ==> LeadClosed(g, marks, j)
    {
      assert WfProd(g, i, g.prods[i]);
      var cc := g.prods[i][1] - NTBASE;
      if cc >= 0 && marks'[cc] != 0 {
        assert LeadsTo(g, NTBASE + cc, NTBASE + c);
        LeadStep(g, i, NTBASE + c);
        cc := g.prods[i][0] - NTBASE;
        if marks'[cc] == 0 {
          MarkOne(marks', cc);
          work := true;
          marks' := marks'[cc := 1];
        }
      }
      i := i + 1;
    }
  }

  // ---------------------------------------------------------------- the column of one nonterminal

  /** Some kernel item of state k has the dot before a nonterminal that leads to c. */
  ghost predicate KernelLeads(g: Grammar, k: seq<KItem>, c: int)
    requires WellFormed(g) && KernelOk(g, k)
  {
    exists p :: 0 <= p < |k| && First(g, k[p].item) >= NTBASE && LeadsTo(g, First(g, k[p].item), c)
  }

  lemma {:induction false} LeadsFromNonterminal(g: Grammar, x: int, via: seq<int>, c: int)
    requires WellFormed(g) && Walk(LeftEdges(g), x, via, c) && c >= NTBASE
    ensures x >= NTBASE
  {
    if via != [] {
      assert (x, via[0]) in LeftEdges(g);
      var i :| 0 <= i < |g.prods| && (Lhs(g, i), At(g, i, 0)) == (x, via[0]);
      assert WfProd(g, i, g.prods[i]);
    }
  }

  lemma WantsLeads(g: Grammar, ks: seq<seq<KItem>>, s: int, c: int)
    requires WellFormed(g) && KernelsOk(g, ks) && 0 <= s < |ks| && c >= NTBASE && Wants(g, ks, s, c)
    ensures KernelLeads(g, ks[s], c)
  {
    var it :| it in CloOf(g, ks[s]) && ValidItem(g, it) && First(g, it) == c;
    var k: Item;
    if it in KernelSet(ks[s]) {
      k := it;
      ReachSelf(LeftEdges(g), c);
    } else {
      assert Entered(g, KernelSet(ks[s]), it.p);
      k :| k in KernelSet(ks[s]) && Reach(LeftEdges(g), First(g, k), Lhs(g, it.p));
      assert (Lhs(g, it.p), At(g, it.p, 0)) in LeftEdges(g);
      ReachExtend(LeftEdges(g), First(g, k), Lhs(g, it.p), c);
    }
    var p :| 0 <= p < |ks[s]| && ks[s][p].item == k;
    var via :| Walk(LeftEdges(g), First(g, k), via, c);
    LeadsFromNonterminal(g, First(g, k), via, c);
  }

  lemma LeadsWants(g: Grammar, ks: seq<seq<KItem>>, s: int, c: int)
    requires WellFormed(g) && KernelsOk(g, ks) && 0 <= s < |ks| && KernelLeads(g, ks[s], c)
    ensures Wants(g, ks, s, c)
  {
    var p :| 0 <= p < |ks[s]| && First(g, ks[s][p].item) >= NTBASE && LeadsTo(g, First(g, ks[s][p].item), c);
    var k := ks[s][p].item;
    assert k in KernelSet(ks[s]);
    var via :| Walk(LeftEdges(g), First(g, k), via, c);
    if via == [] {
      assert k in CloOf(g, ks[s]);
    } else {
      var y := LastEdge(LeftEdges(g), First(g, k), via, c);
      var i :| 0 <= i < |g.prods| && (Lhs(g, i), At(g, i, 0)) == (y, c);
      assert WfProd(g, i, g.prods[i]);
      assert Entered(g, KernelSet(ks[s]), i);
      assert Item(i, 0) in CloOf(g, ks[s]);
    }
  }

  /** col[s] is the goto of s on nonterminal c, 0 when there is none. */
  ghost predicate Column(g: Grammar, ks: seq<seq<KItem>>, c: int, col: seq<int>)
    requires WellFormed(g) && KernelsOk(g, ks)
  {
    && |col| == |ks|
    && forall s :: 0 <= s < |ks| ==> ColumnAt(g, ks, c, s, col[s])
  }

  ghost predicate ColumnAt(g: Grammar, ks: seq<seq<KItem>>, c: int, s: int, v: int)
    requires WellFormed(g) && KernelsOk(g, ks) && 0 <= s < |ks|
  {
    if Wants(g, ks, s, NTBASE + c) then IsGoto(g, ks, s, NTBASE + c, v) else v == 0
  }

  method Leads(g: Grammar, k: seq<KItem>, marks: seq<int>, ghost c: nat) returns (b: bool)
    requires WellFormed(g) && KernelOk(g, k) && IsMarks(g, marks)
    requires forall n :: 0 <= n <= g.nnonter ==> (marks[n] != 0 <==> LeadsTo(g, NTBASE + n, NTBASE + c))
    ensures b <==> KernelLeads(g, k, NTBASE + c)
  {
    var p := 0;
    while p < |k|
      invariant 0 <= p <= |k|
      invariant forall j :: 0 <= j < p ==>
                  !(First(g, k[j].item) >= NTBASE && LeadsTo(g, First(g, k[j].item), NTBASE + c))
    {
      var cc := First(g, k[p].item);
      ItemBasics(g, k[p].item);
      if cc >= NTBASE {
        assert marks[cc - NTBASE] != 0 <==> LeadsTo(g, NTBASE + (cc - NTBASE), NTBASE + c);
        if marks[cc - NTBASE] != 0 {
          return true;
        }
      }
      p := p + 1;
    }
    return false;
  }

  lemma WantsIffLeads(g: Grammar, ks: seq<seq<KItem>>, s: int, c: int)
    requires WellFormed(g) && KernelsOk(g, ks) && 0 <= s < |ks| && c >= NTBASE
    ensures Wants(g, ks, s, c) <==> KernelLeads(g, ks[s], c)
  {
    if Wants(g, ks, s, c) { WantsLeads(g, ks, s, c); }
    if KernelLeads(g, ks[s], c) { LeadsWants(g, ks, s, c); }
  }

  /** One state's entry in the column. */
  method ColumnEntry(g: Grammar, ks: seq<seq<KItem>>, marks: seq<int>, amem: seq<int>, base: int, i: nat, c: nat)
    returns (v: int)
    requires WellFormed(g) && KernelsOk(g, ks) && i < |ks| && 1 <= c <= g.nnonter && IsMarks(g, marks)
    requires GotoAt(g, ks, i, c, amem, base)
    requires forall n :: 0 <= n <= g.nnonter ==> (marks[n] != 0 <==> LeadsTo(g, NTBASE + n, NTBASE + c))
    ensures ColumnAt(g, ks, c, i, v)
  {
    WantsIffLeads(g, ks, i, NTBASE + c);
    var b := Leads(g, ks[i], marks, c);
    v := if b then amem[base + c] else 0;
  }

  /** `go2gen`: the gotos on nonterminal c, read from the packed goto rows. */
  method Go2Gen(g: Grammar, ks: seq<seq<KItem>>, amem: seq<int>, indgo: seq<int>, c: nat) returns (col: seq<int>)
    requires WellFormed(g) && KernelsOk(g, ks) && 1 <= c <= g.nnonter
    requires |indgo| == |ks| && GotosStored(g, ks, amem, indgo)
    ensures Column(g, ks, c, col)
  {
    var marks := MarkLeads(g, c);
    col := [];
    var i := 0;
    while i < |ks|
      invariant 0 <= i <= |ks| && |col| == i
      invariant forall s :: 0 <= s < i ==> ColumnAt(g, ks, c, s, col[s])
    {
      assert GotoAt(g, ks, i, c, amem, indgo[i]) by { assert GotoStored(g, ks, i, amem, indgo[i]); }
      var v := ColumnEntry(g, ks, marks, amem, indgo[i], i, c);
      col := col + [v];
      i := i + 1;
    }
  }

  // ---------------------------------------------------------------- the default goto

  /** The gotos on one nonterminal: exceptions by state, then the default. */
  datatype GoRow = GoRow(entries: seq<(int, int)>, default: int)

  /** best is the most frequent nonzero value of col; -1 when all are zero. */
  ghost predicate BestGoto(col: seq<int>, best: int) {
    && (best != -1 ==> best != 0 && best in col)
    && (forall j :: 0 <= j < |col| && col[j] != 0 ==> best != -1 && Count(col, col[j]) <= Count(col, best))
  }

  lemma CountConcat(a: seq<int>, b: seq<int>, v: int)
    ensures Count(a + b, v) == Count(a, v) + Count(b, v)
  {
    assert multiset(a + b) == multiset(a) + multiset(b);
  }

  method ChooseGoto(col: seq<int>) returns (best: int)
    requires forall j :: 0 <= j < |col| ==> col[j] >= 0
    ensures BestGoto(col, best)
  {
    best := -1;
    var times := 0;
    var j := 0;
    while j < |col|
      invariant 0 <= j <= |col|
      invariant if best == -1 then times == 0 else best != 0 && best in col && times == Count(col, best)
      invariant forall k :: 0 <= k < j && col[k] != 0 ==> best != -1 && Count(col, col[k]) <= times
    {
      if col[j] != 0 && col[j] != best {
        var count := CountOf(col[j..], col[j]);
        assert col == col[..j] + col[j..];
        CountConcat(col[..j], col[j..], col[j]);
        CountPositive(col[..j], col[j]);
        CountPositive(col[j..], col[j]);
        assert col[j..][0] == col[j];
        if count > times {
          assert col[j] !in col[..j];
          best := col[j];
          times := count;
        } else if col[j] in col[..j] {
          var k :| 0 <= k < j && col[k] == col[j];
        }
      }
      j := j + 1;
    }
  }

  /** The exceptions of col[..n] to the default. */
  ghost predicate GoPairs(col: seq<int>, n: int, best: int, entries: seq<(int, int)>)
    requires n <= |col|
  {
    && (forall r :: 0 <= r < |entries| ==>
          0 <= entries[r].0 < n && entries[r].1 == col[entries[r].0] && entries[r].1 != 0 && entries[r].1 != best)
    && (forall r, r' :: 0 <= r < r' < |entries| ==> entries[r].0 < entries[r'].0)
    && (forall j :: 0 <= j < n && col[j] != 0 && col[j] != best ==> (j, col[j]) in entries)
  }

  /** The row says of every state that has a goto what the column says. */
  ghost predicate RowOf(col: seq<int>, row: GoRow) {
    && GoPairs(col, |col|, row.default, row.entries)
    && row.default >= 0
    && (row.default != 0 ==> row.default in col)
  }

  /** `go2out` for one nonterminal. */
  method GotoRowOf(col: seq<int>) returns (row: GoRow)
    requires forall j :: 0 <= j < |col| ==> col[j] >= 0
    ensures RowOf(col, row)
    ensures BestGoto(col, if row.default == 0 then -1 else row.default)
  {
    var best := ChooseGoto(col);
    var entries := [];
    var j := 0;
    while j < |col|
      invariant 0 <= j <= |col| && GoPairs(col, j, best, entries)
    {
      if col[j] != 0 && col[j] != best {
        entries := entries + [(j, col[j])];
      }
      j := j + 1;
    }
    row := GoRow(entries, if best == -1 then 0 else best);
  }
}
