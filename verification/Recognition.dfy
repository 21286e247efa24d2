/** Generated parsers decide whether the start symbol derives their input. */
module Recognition {
  import opened Grammars
  import opened Items
  import opened Closure
  import opened Automaton
  import opened Carrying
  import opened Lalr
  import opened Generation
  import opened Actions
  import opened Compress
  import opened GotoColumns
  import opened TablePack
  import opened Placement
  import opened Capacity
  import opened Engine
  import opened RowMachine
  import opened Conflicts
  import opened Completeness
  import opened Generator

  /** The automaton has no conflict, and no state that can lose a lookahead. */
  ghost predicate Clean(src: Source)
    requires SourceOk(src)
  {
    && ConflictFree(src.cx, src.st.kernels)
    && forall s :: 0 <= s < |src.st.kernels| ==> !Lossy(src.cx, src.st.kernels[s])
  }

  lemma RowSays(src: Source, m: Product, s: int)
    requires Filled(src, m) && ConflictFree(src.cx, src.st.kernels) && 0 <= s < |src.st.kernels|
    ensures s < |m.out.rows| && s < |m.out.lastreds| && m.out.lastreds[s] >= 0
    ensures |m.out.rows[s]| == src.cx.g.ntokens + 1
    ensures ExactRow(src.cx, src.st, s, src.levprd, src.toklev, m.out.rows[s])
  {
    assert StateOut(src, m.out, s);
  }

  lemma ShiftSaid(src: Source, m: Product, s: int, t: int)
    requires Filled(src, m) && ConflictFree(src.cx, src.st.kernels) && 0 <= s < |src.st.kernels|
    requires 1 < t <= src.cx.g.ntokens && |Unpacked(src, m).rows| == |src.st.kernels|
    ensures SaysShift(src.cx.g, src.st.kernels, Unpacked(src, m), s, t)
  {
    RowSays(src, m, s);
    assert Undisputed(src.cx, src.st.kernels, s, t);
    if Wants(src.cx.g, src.st.kernels, s, t) {
      RowShifts(src.cx, src.st, s, src.levprd, src.toklev, m.out.rows[s], t);
    }
  }

  lemma ReduceSaid(src: Source, m: Product, s: int, t: int, it: Item)
    requires Filled(src, m) && ConflictFree(src.cx, src.st.kernels) && 0 <= s < |src.st.kernels|
    requires 1 <= t <= src.cx.g.ntokens && |Unpacked(src, m).rows| == |src.st.kernels|
    ensures SaysReduce(src.cx, src.st.kernels, Unpacked(src, m), s, t, it)
  {
    RowSays(src, m, s);
    assert Undisputed(src.cx, src.st.kernels, s, t);
    if ReducesOn(src.cx, src.st.kernels, s, it, t) {
      RowReduces(src.cx, src.st, s, src.levprd, src.toklev, m.out.rows[s], t, it);
    }
  }

  lemma GotoSaid(src: Source, m: Product, s: int, n: int)
    requires Filled(src, m) && 0 <= s < |src.st.kernels| && 1 <= n <= src.cx.g.nnonter
    ensures SaysGoto(src.cx.g, src.st.kernels, Unpacked(src, m), s, n)
  {
    assert Column(src.cx.g, src.st.kernels, n, m.cols[n]);
    assert ColumnAt(src.cx.g, src.st.kernels, n, s, m.cols[n][s]);
  }

  /** Without conflicts the rows and columns say all that the automaton does. */
  lemma UnpackedSays(src: Source, m: Product)
    requires Filled(src, m) && ConflictFree(src.cx, src.st.kernels)
    ensures SaysAll(src.cx, src.st.kernels, Unpacked(src, m))
  {
    var ks, p := src.st.kernels, Unpacked(src, m);
    forall s | 0 <= s < |ks| ensures p.defaults[s] >= 0 && |p.rows[s]| == src.cx.g.ntokens + 1 { RowSays(src, m, s); }
    forall s, t | 0 <= s < |ks| && 1 < t <= src.cx.g.ntokens ensures SaysShift(src.cx.g, ks, p, s, t) {
      ShiftSaid(src, m, s, t);
    }
    forall s, t, it | 0 <= s < |ks| && 1 <= t <= src.cx.g.ntokens ensures SaysReduce(src.cx, ks, p, s, t, it) {
      ReduceSaid(src, m, s, t, it);
    }
    forall s, n | 0 <= s < |ks| && 1 <= n <= src.cx.g.nnonter ensures SaysGoto(src.cx.g, ks, p, s, n) {
      GotoSaid(src, m, s, n);
    }
    RowSays(src, m, 1);
    assert Undisputed(src.cx, ks, 1, END_TOKEN);
    RowAccepts(src.cx, src.st, src.levprd, src.toklev, m.out.rows[1]);
  }

  /** The theorem's other half: where the automaton is clean, the parser accepts every string that the start symbol
      derives. */
  lemma GeneratedParserComplete(src: Source, m: Product, input: seq<int>)
    requires Made(src, m) && Clean(src) && src.cx.g.nnonter < 1000 && AboveFlag(m)
    requires InputOk(src.cx.g, input) && END_TOKEN !in input && Derives(src.cx.g, StartSymbol(src.cx.g), input)
    ensures ParserOk(Emitted(src, m)) && exists n: nat :: Run(Emitted(src, m), input, n).Accepted?
  {
    var p, plain := Emitted(src, m), Unpacked(src, m);
    EmitFaithful(src, m);
    UnpackedSays(src, m);
    forall s | 0 <= s < |src.st.kernels| ensures CarriesOn(src.cx, src.st.kernels, s) {
      assert !Lossy(src.cx, src.st.kernels[s]);
    }
    PlainComplete(src.cx, src.st, plain, input);
    var n: nat :| PlainRun(plain, input, n).Accepted?;
    GeneratedParserExact(src, m, input, n);
    assert Run(p, input, n).Accepted?;
  }

  /** A parser from a clean automaton accepts exactly the strings that the start symbol derives. */
  lemma GeneratedParserDecides(src: Source, m: Product, input: seq<int>)
    requires Made(src, m) && Clean(src) && src.cx.g.nnonter < 1000 && AboveFlag(m)
    requires InputOk(src.cx.g, input) && END_TOKEN !in input
    ensures ParserOk(Emitted(src, m))
    ensures (exists n: nat :: Run(Emitted(src, m), input, n).Accepted?) <==>
            Derives(src.cx.g, StartSymbol(src.cx.g), input)
  {
    EmitFaithful(src, m);
    if Derives(src.cx.g, StartSymbol(src.cx.g), input) { GeneratedParserComplete(src, m, input); }
    if n: nat :| Run(Emitted(src, m), input, n).Accepted? { GeneratedParserSound(src, m, input, n); }
  }

  lemma EndTurn(m: Plain, input: seq<int>, n: nat, c: Config, i: nat)
    requires PlainRun(m, input, n) == Running(c) && c.stack != [] && Top(c) == 1 && Ready(input, c, c.stack, i)
    requires 1 < |m.rows| == |m.defaults| && m.defaults[1] >= 0 && END_TOKEN < |m.rows[1]|
    requires m.rows[1][END_TOKEN] == ACCEPTCODE && Upcoming(input, i) == END_TOKEN
    ensures PlainRun(m, input, n + 1).Accepted?
  {
    AcceptTurn(m, input, c, c.stack, i, 1);
    assert PlainRun(m, input, n + 1) == PlainTurns(m, input)(PlainRun(m, input, n));
  }

  lemma SpelledReady(g: Grammar, ks: seq<seq<KItem>>, input: seq<int>, c: Config, trees: seq<Tree>)
    requires WellFormed(g) && KernelsOk(g, ks) && Spells(g, ks, input, c, trees) && c.token >= -1
    ensures c.stack != [] && Consumed(c) >= 0 && Ready(input, c, c.stack, Consumed(c))
  {
  }

  lemma StateOneAccepts(src: Source, m: Product)
    requires Filled(src, m) && src.toklev[END_TOKEN] == 0
    ensures var p := Unpacked(src, m);
            && 1 < |p.rows| == |p.defaults| && p.defaults[1] >= 0 && END_TOKEN < |p.rows[1]|
            && p.rows[1][END_TOKEN] == ACCEPTCODE
  {
    assert StateOut(src, m.out, 1);
    RowAcceptsAnyway(src.cx, src.st, src.levprd, src.toklev, m.out.rows[1]);
  }

  /** Conflicts or not: in state 1, with `$end` next, a parser accepts in one turn. */
  lemma EndAccepted(src: Source, m: Product, input: seq<int>, n: nat, c: Config)
    requires Made(src, m) && src.cx.g.nnonter < 1000 && AboveFlag(m) && InputOk(src.cx.g, input)
    requires src.toklev[END_TOKEN] == 0 && ParserOk(Emitted(src, m)) && Run(Emitted(src, m), input, n) == Running(c)
    requires c.stack != [] && Top(c) == 1 && c.token >= -1 && 0 <= Consumed(c)
    requires Upcoming(input, Consumed(c)) == END_TOKEN
    ensures Run(Emitted(src, m), input, n + 1).Accepted?
  {
    EmitFaithful(src, m);
    RunSound(src.cx.g, src.st.kernels, Emitted(src, m), input, n);
    assert Sound(src.cx.g, src.st.kernels, input, Running(c));
    var trees :| Spells(src.cx.g, src.st.kernels, input, c, trees);
    SpelledReady(src.cx.g, src.st.kernels, input, c, trees);
    GeneratedParserExact(src, m, input, n);
    GeneratedParserExact(src, m, input, n + 1);
    StateOneAccepts(src, m);
    EndTurn(Unpacked(src, m), input, n, c, Consumed(c));
  }

  // ---------------------------------------------------------------- room for the rows

  /** No row is wider than the tokens or the states are many. */
  lemma RowsNarrow(src: Source, m: Product, w: nat)
    requires Filled(src, m) && w > src.cx.g.ntokens && w > |src.st.kernels|
    ensures Narrow(m.rows, w)
  {
    forall s, r | 0 <= s < |m.rows.optst| && 0 <= r < |m.rows.optst[s]| ensures m.rows.optst[s][r].0 < w {
      assert StateOut(src, m.out, s);
      assert IsShiftPair(m.out.rows[s], m.rows.optst[s][r]);
    }
    forall n, r | 1 <= n < |m.rows.yypgo| && 0 <= r < |m.rows.yypgo[n].entries|
      ensures m.rows.yypgo[n].entries[r].0 + 1 < w
    {
      assert GoRowOk(m.rows, m.rows.yypgo[n], n);
    }
  }

  lemma BasesCount(src: Source, m: Product)
    requires Filled(src, m)
    ensures |m.pk.indgo| == |src.st.kernels| && |m.pk.pgo| == src.cx.g.nnonter + 1
    ensures RowsOk(m.rows) && Packed(m.rows, m.a, m.pk, m.sdone, m.gdone)
  {
  }

  /** An array of this many cells takes all rows. */
  function CellsNeeded(g: Grammar, nstate: nat): nat {
    var w := g.ntokens + nstate + 1;
    Times(nstate + (g.nnonter + 1), 2 * w) + w
  }

  lemma Enough(rows: Rows, a: seq<int>, pk: Packing, sdone: set<int>, gdone: set<int>, g: Grammar, nstate: nat, i: int)
    requires RowsOk(rows) && Packed(rows, a, pk, sdone, gdone) && IsRow(rows, i)
    requires Narrow(rows, g.ntokens + nstate + 1) && |pk.indgo| == nstate && |pk.pgo| == g.nnonter + 1
    requires |a| > CellsNeeded(g, nstate)
    ensures !NoFit(rows, a, pk, i)
  {
    RoomEnough(rows, a, pk, sdone, gdone, g.ntokens + nstate + 1, nstate + (g.nnonter + 1), i);
  }

  /** With so many cells no run ends for want of them. */
  lemma CellsEnough(src: Source, m: Product, i: int)
    requires Filled(src, m) && IsRow(m.rows, i) && |m.a| > CellsNeeded(src.cx.g, |src.st.kernels|)
    ensures !NoFit(m.rows, m.a, m.pk, i)
  {
    RowsNarrow(src, m, src.cx.g.ntokens + |src.st.kernels| + 1);
    BasesCount(src, m);
    Enough(m.rows, m.a, m.pk, m.sdone, m.gdone, src.cx.g, |src.st.kernels|, i);
  }
}
