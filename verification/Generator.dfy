/** The whole run of the generator, and the theorem about its parsers. */
module Generator {
  import opened Grammars
  import opened Levels
  import opened GrammarSets
  import opened FirstSets
  import opened Items
  import opened Lookahead
  import opened Closure
  import opened Automaton
  import opened StateGen
  import opened Spreading
  import opened Lalr
  import opened Generation
  import opened GotoPack
  import opened StaGen
  import opened Actions
  import opened Compress
  import opened GotoColumns
  import opened TablePack
  import opened Placement
  import opened Engine
  import opened ViablePrefix
  import opened RowMachine

  // ---------------------------------------------------------------- accessing symbols

  /** How the check array writes a symbol. */
  function CheckOf(x: int): int {
    if x >= NTBASE then -(x - NTBASE) else x
  }

  ghost predicate CheckArray(g: Grammar, ks: seq<seq<KItem>>, chk: seq<int>)
    requires WellFormed(g)
  {
    |chk| == |ks| >= 1 && chk[0] == YYFLAG && forall s :: 1 <= s < |ks| ==> chk[s] == CheckOf(Acc(g, ks[s]))
  }

  /** Write v for every state on the chain of x, as `others` walks it. */
  method MarkChain(g: Grammar, ks: seq<seq<KItem>>, mstates: seq<int>, head: nat, chk: seq<int>, x: int, v: int)
    returns (chk': seq<int>)
    requires WellFormed(g) && Links(g, ks, mstates) && |ks| >= 1 && head == LastOn(g, ks, x, |ks|) && |chk| == |ks|
    ensures |chk'| == |ks| && chk'[0] == chk[0]
    ensures forall s :: 1 <= s < |ks| ==> chk'[s] == if Acc(g, ks[s]) == x then v else chk[s]
  {
    chk' := chk;
    var j := head;
    ghost var bound: nat := |ks|;
    while j != 0
      invariant bound <= |ks| && j == LastOn(g, ks, x, bound) && |chk'| == |ks| && chk'[0] == chk[0]
      invariant forall s :: 1 <= s < |ks| ==> chk'[s] == if s >= bound && Acc(g, ks[s]) == x then v else chk[s]
      decreases bound
    {
      chk' := chk'[j := v];
      forall s | j < s < bound ensures Acc(g, ks[s]) != x {
        LastOnSkips(g, ks, x, bound, s);
      }
      bound := j;
      j := mstates[j];
    }
    forall s | 1 <= s < bound ensures Acc(g, ks[s]) != x {
      LastOnSkips(g, ks, x, bound, s);
    }
  }

  /** The first loop of the check array: states entered on tokens. */
  method TokenChecks(g: Grammar, st: States) returns (chk: seq<int>)
    requires WellFormed(g) && StatesOk(g, st)
    ensures |chk| == |st.kernels| && chk[0] == YYFLAG
    ensures forall s :: 1 <= s < |st.kernels| && IsToken(g, Acc(g, st.kernels[s])) ==> chk[s] == Acc(g, st.kernels[s])
  {
    var ks := st.kernels;
    chk := seq(|ks|, _ => YYFLAG);
    var i := 1;
    while i <= g.ntokens
      invariant 1 <= i <= g.ntokens + 1 && |chk| == |ks| && chk[0] == YYFLAG
      invariant forall s :: 1 <= s < |ks| && 1 <= Acc(g, ks[s]) < i ==> chk[s] == Acc(g, ks[s])
    {
      ChainOf(g, st, i);
      chk := MarkChain(g, ks, st.mstates, st.tstates[i], chk, i, i);
      i := i + 1;
    }
  }

  /** The second loop: states entered on nonterminals. */
  method NonterminalChecks(g: Grammar, st: States, chk: seq<int>) returns (chk': seq<int>)
    requires WellFormed(g) && StatesOk(g, st) && |chk| == |st.kernels| && chk[0] == YYFLAG
    ensures |chk'| == |st.kernels| && chk'[0] == YYFLAG
    ensures forall s :: 1 <= s < |st.kernels| && IsToken(g, Acc(g, st.kernels[s])) ==> chk'[s] == chk[s]
    ensures forall s :: 1 <= s < |st.kernels| && IsNonterminal(g, Acc(g, st.kernels[s])) ==>
              chk'[s] == CheckOf(Acc(g, st.kernels[s]))
  {
    var ks := st.kernels;
    chk' := chk;
    var i := 0;
    while i <= g.nnonter
      invariant 0 <= i <= g.nnonter + 1 && |chk'| == |ks| && chk'[0] == YYFLAG
      invariant forall s :: 1 <= s < |ks| && IsToken(g, Acc(g, ks[s])) ==> chk'[s] == chk[s]
      invariant forall s :: 1 <= s < |ks| && NTBASE <= Acc(g, ks[s]) < NTBASE + i ==> chk'[s] == CheckOf(Acc(g, ks[s]))
    {
      ChainOf(g, st, NTBASE + i);
      chk' := MarkChain(g, ks, st.mstates, st.ntstates[i], chk', NTBASE + i, -i);
      i := i + 1;
    }
  }

  /** The check array of `others`: every state entered on a symbol is on that symbol's chain and no other. */
  method Checks(g: Grammar, st: States) returns (chk: seq<int>)
    requires WellFormed(g) && StatesOk(g, st)
    ensures CheckArray(g, st.kernels, chk)
  {
    var chk1 := TokenChecks(g, st);
    chk := NonterminalChecks(g, st, chk1);
    forall s | 1 <= s < |st.kernels| ensures chk[s] == CheckOf(Acc(g, st.kernels[s])) {
      assert StateOk(g, st.kernels, s);
    }
  }

  // ---------------------------------------------------------------- actions of every state

  /** What `output` works from: the grammar with its sets, the states, and the levels of rules and tokens. */
  datatype Source = Source(cx: Context, st: States, levprd: seq<Word>, toklev: seq<Word>)

  ghost predicate SourceOk(src: Source) {
    && ContextExact(src.cx) && StatesOk(src.cx.g, src.st) && 2 <= |src.st.kernels| < NSTATES
    && Looked(src.cx, src.st) && (exists run :: RunTo(src.cx, run, src.st))
    && AllComplete(src.cx.g, src.st.kernels, |src.st.kernels|)
    && LevelsOk(src.cx.g, src.levprd, src.toklev)
    && IsGoto(src.cx.g, src.st.kernels, 0, StartSymbol(src.cx.g), 1)
  }

  /** The action rows with their defaults, and the form they are written out in. */
  datatype Compressed = Compressed(rows: seq<seq<int>>, lastreds: seq<int>, optst: seq<seq<(int, int)>>,
                                   defact: seq<int>, exca: seq<(int, int)>)

  /** State s has its exact action row and default, and they are encoded. */
  ghost predicate StateOut(src: Source, out: Compressed, s: int)
    requires SourceOk(src) && 0 <= s < |src.st.kernels|
  {
    && s < |out.rows| && s < |out.lastreds| && s < |out.optst| && s < |out.defact|
    && ExactRow(src.cx, src.st, s, src.levprd, src.toklev, out.rows[s])
    && ActionRow(src.cx.g, src.st.kernels, s, out.rows[s])
    && DefaultOf(out.rows[s], out.lastreds[s])
    && ShiftPairs(out.rows[s], |out.rows[s]|, out.optst[s])
    && Encodes(out.exca, s, out.rows[s], out.lastreds[s], out.defact[s])
  }

  ghost predicate OutputOk(src: Source, out: Compressed, n: int)
    requires SourceOk(src)
  {
    && 0 <= n <= |src.st.kernels| && |out.rows| == |out.lastreds| == |out.optst| == |out.defact| == n
    && (forall s :: 0 <= s < n ==> StateOut(src, out, s))
  }

  /** out' adds to out what one more state has. */
  predicate Extends(out: Compressed, out': Compressed) {
    && out.rows <= out'.rows && out.lastreds <= out'.lastreds
    && out.optst <= out'.optst && out.defact <= out'.defact && out.exca <= out'.exca
  }

  lemma StateOutKept(src: Source, out: Compressed, out': Compressed, s: int)
    requires SourceOk(src) && 0 <= s < |src.st.kernels| && StateOut(src, out, s) && Extends(out, out')
    ensures StateOut(src, out', s)
  {
    assert out'.rows[s] == out.rows[s] && out'.lastreds[s] == out.lastreds[s];
    assert out'.optst[s] == out.optst[s] && out'.defact[s] == out.defact[s];
    EncodesAppend(out.exca, out'.exca, s, out.rows[s], out.lastreds[s], out.defact[s]);
  }

  lemma OutputAppend(src: Source, out: Compressed, out': Compressed, n: int)
    requires SourceOk(src) && OutputOk(src, out, n) && n < |src.st.kernels| && StateOut(src, out', n)
    requires Extends(out, out')
    requires |out'.rows| == |out'.lastreds| == |out'.optst| == |out'.defact| == n + 1
    ensures OutputOk(src, out', n + 1)
  {
    forall s | 0 <= s < n + 1 ensures StateOut(src, out', s) {
      if s < n { StateOutKept(src, out, out', s); }
    }
  }

  /** One state's turn in `output`. */
  method OutputState(src: Source, out: Compressed, i: nat) returns (out': Compressed)
    requires SourceOk(src) && OutputOk(src, out, i) && i < |src.st.kernels| && HeadersBelow(out.exca, i)
    ensures OutputOk(src, out', i + 1) && HeadersBelow(out'.exca, i + 1)
  {
    assert Complete(src.cx.g, src.st.kernels, i);
    var row := StateActions(src.cx, src.st, i, src.levprd, src.toklev);
    var os, da, exca, lastred := WrAct(i, row, out.exca);
    out' := Compressed(out.rows + [row], out.lastreds + [lastred], out.optst + [os], out.defact + [da], exca);
    OutputAppend(src, out, out', i);
  }

  /** `output`: the loop over the states. */
  method Output(src: Source) returns (out: Compressed)
    requires SourceOk(src)
    ensures OutputOk(src, out, |src.st.kernels|)
  {
    out := Compressed([], [], [], [], []);
    var i := 0;
    while i < |src.st.kernels|
      invariant 0 <= i <= |src.st.kernels| && OutputOk(src, out, i) && HeadersBelow(out.exca, i)
    {
      out := OutputState(src, out, i);
      i := i + 1;
    }
  }

  // ---------------------------------------------------------------- gotos of every nonterminal

  ghost predicate ColumnsOk(g: Grammar, ks: seq<seq<KItem>>, n: int, yypgo: seq<GoRow>, cols: seq<seq<int>>)
    requires WellFormed(g) && KernelsOk(g, ks)
  {
    && 1 <= n <= g.nnonter + 1 && |yypgo| == |cols| == n
    && (forall c :: 1 <= c < n ==> Column(g, ks, c, cols[c]) && RowOf(cols[c], yypgo[c]))
  }

  lemma ColumnNonNegative(g: Grammar, ks: seq<seq<KItem>>, c: int, col: seq<int>)
    requires WellFormed(g) && KernelsOk(g, ks) && Column(g, ks, c, col)
    ensures forall j :: 0 <= j < |col| ==> col[j] >= 0
  {
    forall j | 0 <= j < |col| ensures col[j] >= 0 {
      assert ColumnAt(g, ks, c, j, col[j]);
    }
  }

  /** `go2out`: the loop over the nonterminals; cols are the columns `go2gen` reads off. */
  method Go2Out(g: Grammar, ks: seq<seq<KItem>>, amem: seq<int>, indgo: seq<int>)
    returns (yypgo: seq<GoRow>, cols: seq<seq<int>>)
    requires WellFormed(g) && KernelsOk(g, ks) && |indgo| == |ks| && GotosStored(g, ks, amem, indgo)
    ensures ColumnsOk(g, ks, g.nnonter + 1, yypgo, cols)
  {
    yypgo, cols := [GoRow([], 0)], [[]];
    var i := 1;
    while i <= g.nnonter
      invariant 1 <= i <= g.nnonter + 1 && ColumnsOk(g, ks, i, yypgo, cols)
    {
      var col := Go2Gen(g, ks, amem, indgo, i);
      ColumnNonNegative(g, ks, i, col);
      var row := GotoRowOf(col);
      yypgo, cols := yypgo + [row], cols + [col];
      i := i + 1;
    }
  }

  // ---------------------------------------------------------------- the rows are fit to pack

  lemma ShiftRowFit(g: Grammar, ks: seq<seq<KItem>>, rows: Rows, s: int, row: seq<int>)
    requires WellFormed(g) && KernelsOk(g, ks) && 0 <= s < |ks| && CheckArray(g, ks, rows.chk) && s < |rows.optst|
    requires ActionRow(g, ks, s, row) && ShiftPairs(row, |row|, rows.optst[s])
    ensures ShiftRowOk(rows, rows.optst[s])
  {
    var os := rows.optst[s];
    forall r | 0 <= r < |os| ensures os[r].0 >= 1 && IsState(rows, os[r].1) && rows.chk[os[r].1] == os[r].0 {
      var t, q := os[r].0, os[r].1;
      assert IsShiftPair(row, os[r]);
      assert ActionAt(g, ks, s, t, row[t]);
      GotoAcc(g, ks, s, t, q);
    }
  }

  lemma GoRowFit(g: Grammar, ks: seq<seq<KItem>>, rows: Rows, n: int, col: seq<int>)
    requires WellFormed(g) && KernelsOk(g, ks) && CheckArray(g, ks, rows.chk) && 1 <= n < |rows.yypgo| && n <= g.nnonter
    requires Column(g, ks, n, col) && RowOf(col, rows.yypgo[n])
    ensures GoRowOk(rows, rows.yypgo[n], n)
  {
    var row := rows.yypgo[n];
    forall j | 0 <= j < |col| && col[j] != 0 ensures IsState(rows, col[j]) && rows.chk[col[j]] == -n {
      assert ColumnAt(g, ks, n, j, col[j]);
      GotoAcc(g, ks, j, NTBASE + n, col[j]);
    }
    if row.default != 0 {
      var j :| 0 <= j < |col| && col[j] == row.default;
    }
  }

  /** The rows the generator makes are what the packer needs. */
  lemma RowsFit(src: Source, out: Compressed, rows: Rows, cols: seq<seq<int>>)
    requires SourceOk(src) && OutputOk(src, out, |src.st.kernels|) && rows.optst == out.optst
    requires CheckArray(src.cx.g, src.st.kernels, rows.chk)
    requires ColumnsOk(src.cx.g, src.st.kernels, src.cx.g.nnonter + 1, rows.yypgo, cols)
    ensures RowsOk(rows)
  {
    forall s | 0 <= s < |rows.optst| ensures ShiftRowOk(rows, rows.optst[s]) {
      assert StateOut(src, out, s);
      ShiftRowFit(src.cx.g, src.st.kernels, rows, s, out.rows[s]);
    }
    forall n | 1 <= n < |rows.yypgo| ensures GoRowOk(rows, rows.yypgo[n], n) {
      GoRowFit(src.cx.g, src.st.kernels, rows, n, cols[n]);
    }
  }

  // ---------------------------------------------------------------- the tables agree with the automaton

  /** All that a run has made up to the packed array. */
  datatype Product = Product(out: Compressed, cols: seq<seq<int>>, rows: Rows, a: seq<int>, pk: Packing,
                             sdone: set<int>, gdone: set<int>)

  /** The rows and columns are exact, and the array holds rows as `callopt` places them. */
  ghost predicate Filled(src: Source, m: Product) {
    && SourceOk(src) && OutputOk(src, m.out, |src.st.kernels|) && m.rows.optst == m.out.optst
    && RowsOk(m.rows) && |m.rows.chk| == |src.st.kernels|
    && ColumnsOk(src.cx.g, src.st.kernels, src.cx.g.nnonter + 1, m.rows.yypgo, m.cols)
    && Placing(m.rows, m.a, m.pk, m.sdone, m.gdone)
  }

  /** The run is finished. */
  ghost predicate Made(src: Source, m: Product) {
    Filled(src, m) && Final(m.rows, m.sdone, m.gdone)
  }

  /** `hideprod` and `others`: the left-hand sides of the productions. */
  function LhsTable(g: Grammar): seq<int>
    requires WellFormed(g)
  {
    seq(|g.prods|, i requires 0 <= i < |g.prods| => if i == 0 then 0 else Lhs(g, i) - NTBASE)
  }

  /** `others`: the lengths of the productions. */
  function LenTable(g: Grammar): seq<int>
    requires WellFormed(g)
  {
    seq(|g.prods|, i requires 0 <= i < |g.prods| => if i == 0 then 0 else |g.prods[i]| - 2)
  }

  function Emit(g: Grammar, rows: Rows, a: seq<int>, pk: Packing, defact: seq<int>, exca: seq<(int, int)>): Parser
    requires WellFormed(g) && 0 <= pk.maxa < |a|
  {
    Parser(Written(rows, a, pk), defact, exca, LhsTable(g), LenTable(g))
  }

  ghost function Emitted(src: Source, m: Product): Parser
    requires Filled(src, m)
  {
    Emit(src.cx.g, m.rows, m.a, m.pk, m.out.defact, m.out.exca)
  }

  /** The same machine before packing. */
  ghost function Unpacked(src: Source, m: Product): Plain
    requires Filled(src, m)
  {
    Plain(m.out.rows, m.out.lastreds, m.cols, LhsTable(src.cx.g), LenTable(src.cx.g))
  }

  lemma EmitOk(src: Source, m: Product)
    requires Filled(src, m)
    ensures ParserOk(Emitted(src, m))
  {
    WrittenOk(m.rows, m.a, m.pk, m.sdone, m.gdone);
    forall s | 0 <= s < |m.out.defact| ensures m.out.defact[s] == -2 || m.out.defact[s] >= 0 {
      assert StateOut(src, m.out, s);
    }
  }

  /** What the packed shifts of a state say, given its row. */
  lemma EmitShift(src: Source, m: Product, s: int, t: int)
    requires Filled(src, m) && ParserOk(Emitted(src, m)) && 0 <= s < |src.st.kernels| && 1 <= t <= src.cx.g.ntokens
    ensures s < |m.out.rows| && t < |m.out.rows[s]|
    ensures var q := ShiftLookup(Emitted(src, m).tab, s, t);
            var found := s in m.sdone && m.pk.indgo[s] > YYFLAG && IsShift(m.out.rows[s][t]);
            q == if found then m.out.rows[s][t] else 0
  {
    var row := m.out.rows[s];
    assert StateOut(src, m.out, s);
    var q := ShiftLookup(Emitted(src, m).tab, s, t);
    assert Shifted(row, t, m.out.optst[s]);
    if q != 0 {
      ShiftsExact(m.rows, m.a, m.pk, m.sdone, m.gdone, s, t, q);
      var r :| 0 <= r < |m.out.optst[s]| && m.out.optst[s][r] == (t, q);
      assert IsShiftPair(row, m.out.optst[s][r]);
    } else if IsShift(row[t]) {
      ShiftsExact(m.rows, m.a, m.pk, m.sdone, m.gdone, s, t, row[t]);
    }
  }

  /** A decision that is right by the automaton. */
  ghost predicate RightDecision(g: Grammar, ks: seq<seq<KItem>>, s: int, t: int, d: Decision)
    requires WellFormed(g) && KernelsOk(g, ks) && 0 <= s < |ks|
  {
    match d
    case Reduce(n) => CanReduce(g, ks, s, n)
    case Accept => s == 1 && t == END_TOKEN
    case Error => true
    case Lost => false
    case Shift(q) => t > 1 && IsGoto(g, ks, s, t, q)
  }

  lemma DefaultRight(g: Grammar, ks: seq<seq<KItem>>, s: int, row: seq<int>, lastred: int, t: int)
    requires WellFormed(g) && KernelsOk(g, ks) && 0 <= s < |ks| && ActionRow(g, ks, s, row) && DefaultOf(row, lastred)
    ensures RightDecision(g, ks, s, t, Verdict(lastred))
  {
    if lastred > 0 {
      var j :| FirstBest(row, j) && row[j] == -lastred;
      assert ActionAt(g, ks, s, j, row[j]);
    }
  }

  lemma RowRight(g: Grammar, ks: seq<seq<KItem>>, s: int, row: seq<int>, lastred: int, t: int)
    requires WellFormed(g) && KernelsOk(g, ks) && 0 <= s < |ks| && ActionRow(g, ks, s, row) && DefaultOf(row, lastred)
    requires 1 <= t <= g.ntokens
    ensures RightDecision(g, ks, s, t, RowDecision(row, lastred, t))
  {
    DefaultRight(g, ks, s, row, lastred, t);
    assert ActionAt(g, ks, s, t, row[t]);
  }

  /** Whatever the tables say of a token whose shift they do not hold, it is right. */
  lemma FallbackRight(g: Grammar, ks: seq<seq<KItem>>, s: int, row: seq<int>, lastred: int, defact: int,
                      exca: seq<(int, int)>, t: int)
    requires WellFormed(g) && KernelsOk(g, ks) && 0 <= s < |ks| && ActionRow(g, ks, s, row) && DefaultOf(row, lastred)
    requires Encodes(exca, s, row, lastred, defact) && 1 <= t <= g.ntokens
    ensures !Fallback(defact, exca, s, t).Shift? && RightDecision(g, ks, s, t, Fallback(defact, exca, s, t))
  {
    EncodesDecides(exca, s, row, lastred, defact, t);
    DefaultRight(g, ks, s, row, lastred, t);
    RowRight(g, ks, s, row, lastred, t);
  }

  lemma EmitSound(src: Source, m: Product, s: int, t: int)
    requires Filled(src, m) && ParserOk(Emitted(src, m)) && 0 <= s < |src.st.kernels| && 1 <= t <= src.cx.g.ntokens
    ensures ShiftSound(src.cx.g, src.st.kernels, Emitted(src, m), s, t)
    ensures FallbackSound(src.cx.g, src.st.kernels, Emitted(src, m), s, t)
  {
    assert StateOut(src, m.out, s);
    var row, lastred := m.out.rows[s], m.out.lastreds[s];
    EmitShift(src, m, s, t);
    RowRight(src.cx.g, src.st.kernels, s, row, lastred, t);
    FallbackRight(src.cx.g, src.st.kernels, s, row, lastred, m.out.defact[s], m.out.exca, t);
  }

  /** A goto is read from the packed tables iff the row of its nonterminal stands. */
  lemma EmitGoto(src: Source, m: Product, s: int, n: int)
    requires Filled(src, m) && ParserOk(Emitted(src, m)) && 0 <= s < |src.st.kernels| && 1 <= n <= src.cx.g.nnonter
    requires Wants(src.cx.g, src.st.kernels, s, NTBASE + n)
    ensures s < |m.cols[n]| && m.cols[n][s] != 0 && IsGoto(src.cx.g, src.st.kernels, s, NTBASE + n, m.cols[n][s])
    ensures GotoLookup(Emitted(src, m).tab, n, s) == m.cols[n][s] <==> n in m.gdone
  {
    assert Column(src.cx.g, src.st.kernels, n, m.cols[n]) && RowOf(m.cols[n], m.rows.yypgo[n]);
    assert ColumnAt(src.cx.g, src.st.kernels, n, s, m.cols[n][s]);
    GotosExact(m.rows, m.a, m.pk, m.sdone, m.gdone, n, m.cols[n], s);
  }

  lemma EmitFaithful(src: Source, m: Product)
    requires Made(src, m) && src.cx.g.nnonter < 1000
    ensures Faithful(src.cx.g, src.st.kernels, Emitted(src, m))
  {
    var g, ks, p := src.cx.g, src.st.kernels, Emitted(src, m);
    EmitOk(src, m);
    AllStand(m.rows, m.a, m.pk, m.sdone, m.gdone);
    forall s, t | 0 <= s < |ks| && 1 <= t <= g.ntokens
      ensures ShiftSound(g, ks, p, s, t) && FallbackSound(g, ks, p, s, t)
    {
      EmitSound(src, m, s, t);
    }
    forall s, n | 0 <= s < |ks| && 1 <= n <= g.nnonter ensures GotoSound(g, ks, p, s, n) {
      if Wants(g, ks, s, NTBASE + n) { EmitGoto(src, m, s, n); }
    }
  }

  /** No shift row stands at the flag or below. */
  ghost predicate AboveFlag(m: Product) {
    forall s :: s in m.sdone && 0 <= s < |m.pk.indgo| ==> m.pk.indgo[s] > YYFLAG
  }

  lemma LowTokens(src: Source, m: Product)
    requires Filled(src, m) && src.cx.g.ntokens < 1000
    ensures AboveFlag(m)
  {
    forall s | s in m.sdone && 0 <= s < |m.pk.indgo| ensures m.pk.indgo[s] > YYFLAG {
      assert StateOut(src, m.out, s);
      LowTokenAboveFlag(m.rows, m.a, m.pk, m.sdone, m.gdone, s);
    }
  }

  lemma EmitState(src: Source, m: Product, s: int)
    requires Made(src, m) && src.cx.g.nnonter < 1000 && AboveFlag(m) && 0 <= s < |src.st.kernels|
    requires ParserOk(Emitted(src, m))
    ensures StateAgrees(src.cx.g, Emitted(src, m), Unpacked(src, m), s)
  {
    var p, row, lastred := Emitted(src, m), m.out.rows[s], m.out.lastreds[s];
    assert StateOut(src, m.out, s);
    AllStand(m.rows, m.a, m.pk, m.sdone, m.gdone);
    ShiftIffPairs(row, m.out.optst[s]);
    MarkedIffException(m.out.exca, s, row, lastred, m.out.defact[s]);
    forall t | 1 <= t <= src.cx.g.ntokens ensures Decide(p, s, t) == RowDecision(row, lastred, t) {
      EmitShift(src, m, s, t);
      assert Shifted(row, t, m.out.optst[s]);
      EncodesDecides(m.out.exca, s, row, lastred, m.out.defact[s], t);
    }
  }

  /** The emitted tables say exactly what the rows and columns say. */
  lemma EmitAgrees(src: Source, m: Product)
    requires Made(src, m) && src.cx.g.nnonter < 1000 && AboveFlag(m)
    ensures ParserOk(Emitted(src, m)) && Agrees(src.cx.g, src.st.kernels, Emitted(src, m), Unpacked(src, m))
  {
    var g, ks, p, plain := src.cx.g, src.st.kernels, Emitted(src, m), Unpacked(src, m);
    EmitOk(src, m);
    AllStand(m.rows, m.a, m.pk, m.sdone, m.gdone);
    forall s | 0 <= s < |ks| ensures StateAgrees(g, p, plain, s) { EmitState(src, m, s); }
    forall s, n | 0 <= s < |ks| && 1 <= n <= g.nnonter ensures GotoAgrees(g, ks, p, plain, s, n) {
      if Wants(g, ks, s, NTBASE + n) { EmitGoto(src, m, s, n); }
    }
  }

  // ---------------------------------------------------------------- the whole run

  /** What becomes of a run: a grammar refused for nonterminals without rules or that derive nothing, no room for the
      states or for the gotos of state `at`, no room for a row of the packed array, or a parser. */
  datatype Ending =
    | NoRules(names: set<int>) | NeverDerive(names: set<int>) | NoStates(at: nat) | NoCells(row: int) | Finished

  /** What is said of the grammar alone, before any table is filled. */
  ghost predicate GrammarEnding(g: Grammar, v: Ending)
    requires WellFormed(g)
  {
    var undefined := set n | 0 <= n <= g.nnonter && HasNoProduction(g, n);
    var never := set n | 1 <= n <= g.nnonter && Unproductive(g, n);
    && (v.NoRules? <==> undefined != {}) && (v.NoRules? ==> v.names == undefined)
    && (v.NeverDerive? <==> undefined == {} && never != {}) && (v.NeverDerive? ==> v.names == never)
  }

  /** The stages before state generation; fails on an undefined or unproductive nonterminal. */
  method Prepare(g: Grammar) returns (v: Ending, cx: Context)
    requires WellFormed(g)
    ensures GrammarEnding(g, v) && !v.NoStates? && !v.NoCells?
    ensures v.Finished? ==> cx.g == g && ContextExact(cx)
  {
    cx := Context(g, [], [], []);
    var undefined, pres := CPres(g);
    if undefined != {} {
      return NoRules(undefined), cx;
    }
    var never, pempty := CEmpty(g);
    if never != {} {
      return NeverDerive(never), cx;
    }
    assert forall n :: 1 <= n <= g.nnonter && Unproductive(g, n) ==> n in never;
    AllProductive(g);
    var pfirst := CpFir(g, pres, pempty);
    cx := Context(g, pres, pempty, pfirst);
    v := Finished;
    forall n | 0 <= n <= g.nnonter ensures IsLook(g, pfirst[n]) {
      forall b | b in pfirst[n] ensures 0 <= b <= g.ntokens {
        assert Begins(g, n, b);
      }
    }
  }

  /** The stages from the states on. */
  method Pack(src: Source, indgo: seq<int>, amem: array<int>) returns (v: Ending, p: Parser, ghost m: Product)
    requires SourceOk(src) && |indgo| == |src.st.kernels| && GotosStored(src.cx.g, src.st.kernels, amem[..], indgo)
    requires amem.Length > 0
    modifies amem
    ensures v.Finished? || v.NoCells?
    ensures Filled(src, m) && m.a == amem[..]
    ensures v.Finished? ==> Final(m.rows, m.sdone, m.gdone) && p == Emitted(src, m)
    ensures v.NoCells? ==> IsNext(m.rows, m.sdone, m.gdone, v.row) && NoFit(m.rows, amem[..], m.pk, v.row)
  {
    var g, ks := src.cx.g, src.st.kernels;
    var out := Output(src);
    var yypgo, cols := Go2Out(g, ks, amem[..], indgo);
    var chk := Checks(g, src.st);
    var rows := Rows(out.optst, yypgo, chk);
    RowsFit(src, out, rows, cols);
    var ok, pk, i;
    ghost var sdone, gdone;
    ok, pk, i, sdone, gdone := CallOpt(rows, amem);
    m := Product(out, cols, rows, amem[..], pk, sdone, gdone);
    v := if ok then Finished else NoCells(i);
    p := Emit(g, rows, amem[..], pk, out.defact, out.exca);
  }

  /** goyacc, from the productions to the tables; of the array, the first `used` cells may be in use. */
  method Generate(g: Grammar, levprd: seq<Word>, toklev: seq<Word>, amem: array<int>, ghost used: nat)
    returns (v: Ending, p: Parser, ghost src: Source, ghost m: Product)
    requires WellFormed(g) && LevelsOk(g, levprd, toklev) && amem.Length > 0 && FreeFrom(amem[..], used)
    modifies amem
    ensures GrammarEnding(g, v)
    ensures v.NoStates? || v.NoCells? || v.Finished? ==> src.cx.g == g && src.levprd == levprd && src.toklev == toklev
    ensures v.NoStates? ==> Short(g, src.st, amem[..], v.at) && FreePast(g, amem[..], used, v.at)
    ensures v.NoCells? ==> Filled(src, m) && m.a == amem[..] && IsNext(m.rows, m.sdone, m.gdone, v.row)
    ensures v.NoCells? ==> NoFit(m.rows, amem[..], m.pk, v.row)
    ensures v.Finished? ==> Made(src, m) && p == Emitted(src, m)
    ensures v.Finished? && g.nnonter < 1000 ==> Faithful(g, src.st.kernels, p)
    ensures v.Finished? && g.nnonter < 1000 && g.ntokens < 1000 ==> Agrees(g, src.st.kernels, p, Unpacked(src, m))
  {
    p := Parser(Tables([], [], [], []), [], [], [], []);
    m := Product(Compressed([], [], [], [], []), [], Rows([], [], []), [], Packing([], [], 0), {}, {});
    var cx;
    v, cx := Prepare(g);
    src := Source(cx, InitialStates(g), levprd, toklev);
    if !v.Finished? {
      return;
    }
    var ok, st, indgo, at;
    ghost var run;
    ok, st, indgo, at, run := GenerateStates(cx, amem, used);
    src := Source(cx, st, levprd, toklev);
    if !ok {
      v := NoStates(at);
      return;
    }
    v, p, m := Pack(Source(cx, st, levprd, toklev), indgo, amem);
    if v.Finished? && g.nnonter < 1000 {
      EmitFaithful(src, m);
      if g.ntokens < 1000 {
        LowTokens(src, m);
        EmitAgrees(src, m);
      }
    }
  }

  /** The theorem: a generated parser, run on any tokens for any number of turns, never crashes, and accepts only
      input whose tokens up to the end mark the start symbol derives. */
  lemma GeneratedParserSound(src: Source, m: Product, input: seq<int>, n: nat)
    requires Made(src, m) && src.cx.g.nnonter < 1000 && InputOk(src.cx.g, input)
    ensures var g, p := src.cx.g, Emitted(src, m);
            && ParserOk(p) && Run(p, input, n) != Crashed
            && (Run(p, input, n).Accepted? ==> AcceptedOk(g, input, Run(p, input, n).c))
            && (Run(p, input, n).Accepted? && END_TOKEN !in input ==> Derives(g, StartSymbol(g), input))
  {
    var g, p := src.cx.g, Emitted(src, m);
    EmitFaithful(src, m);
    RunSound(g, src.st.kernels, p, input, n);
    var o := Run(p, input, n);
    if o.Accepted? && END_TOKEN !in input {
      assert input[..Consumed(o.c)] == input;
    }
  }

  /** At every turn, and when it rejects, a generated parser has shifted the beginning of a sentence. */
  lemma GeneratedParserViable(src: Source, m: Product, input: seq<int>, n: nat)
    requires Made(src, m) && src.cx.g.nnonter < 1000 && InputOk(src.cx.g, input)
    ensures var g, p := src.cx.g, Emitted(src, m);
            && ParserOk(p) && !Run(p, input, n).Crashed?
            && var c := Run(p, input, n).c; 0 <= Consumed(c) <= |input| && Viable(g, input[..Consumed(c)])
  {
    EmitFaithful(src, m);
    ShiftedViable(src.cx.g, src.st.kernels, Emitted(src, m), input, n);
  }

  /** A generated parser does, turn by turn, what the action rows and goto columns say. */
  lemma GeneratedParserExact(src: Source, m: Product, input: seq<int>, n: nat)
    requires Made(src, m) && src.cx.g.nnonter < 1000 && AboveFlag(m) && InputOk(src.cx.g, input)
    ensures ParserOk(Emitted(src, m)) && Run(Emitted(src, m), input, n) == PlainRun(Unpacked(src, m), input, n)
  {
    EmitFaithful(src, m);
    EmitAgrees(src, m);
    SameRun(src.cx.g, src.st.kernels, Emitted(src, m), Unpacked(src, m), input, n);
  }
}
