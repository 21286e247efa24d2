/** `stagen`, whole: passes over the states until none is left to do. */
module StaGen {
  import opened Grammars
  import opened Items
  import opened Closure
  import opened Automaton
  import opened StateGen
  import opened Lalr
  import opened Generation
  import opened GotoPack

  // ---------------------------------------------------------------- packed gotos

  /** If s wants nonterminal n, cell base + n has its goto. */
  ghost predicate GotoAt(g: Grammar, ks: seq<seq<KItem>>, s: int, n: int, a: seq<int>, base: int)
    requires WellFormed(g) && KernelsOk(g, ks) && 0 <= s < |ks|
  {
    Wants(g, ks, s, NTBASE + n) ==> 0 <= base + n < |a| && IsGoto(g, ks, s, NTBASE + n, a[base + n])
  }

  /** Row s of the goto table can be read at base: entry base + n is the goto of s on nonterminal n. */
  ghost predicate GotoStored(g: Grammar, ks: seq<seq<KItem>>, s: int, a: seq<int>, base: int)
    requires WellFormed(g) && KernelsOk(g, ks) && 0 <= s < |ks|
  {
    forall n :: 1 <= n <= g.nnonter ==> GotoAt(g, ks, s, n, a, base)
  }

  ghost predicate GotosStored(g: Grammar, ks: seq<seq<KItem>>, a: seq<int>, indgo: seq<int>)
    requires WellFormed(g) && KernelsOk(g, ks)
  {
    |indgo| <= |ks| && forall s :: 0 <= s < |indgo| ==> GotoStored(g, ks, s, a, indgo[s])
  }

  lemma WantsExt(g: Grammar, ks: seq<seq<KItem>>, ks': seq<seq<KItem>>, s: int, x: int)
    requires WellFormed(g) && KernelsOk(g, ks) && KernelsOk(g, ks') && CoreExt(ks, ks') && 0 <= s < |ks|
    ensures Wants(g, ks, s, x) <==> Wants(g, ks', s, x)
  {
    CloOfExt(g, ks, ks', s);
  }

  lemma GotoStoredExt(g: Grammar, ks: seq<seq<KItem>>, ks': seq<seq<KItem>>, s: int, a: seq<int>, a': seq<int>,
                      base: int)
    requires WellFormed(g) && KernelsOk(g, ks) && KernelsOk(g, ks') && CoreExt(ks, ks') && 0 <= s < |ks|
    requires GotoStored(g, ks, s, a, base) && Keeps(a, a')
    ensures GotoStored(g, ks', s, a', base)
  {
    forall n | 1 <= n <= g.nnonter ensures GotoAt(g, ks', s, n, a', base) {
      assert GotoAt(g, ks, s, n, a, base);
      WantsExt(g, ks, ks', s, NTBASE + n);
      if Wants(g, ks, s, NTBASE + n) {
        IsGotoExt(g, ks, ks', s, NTBASE + n, a[base + n]);
      }
    }
  }

  lemma GotosStoredExt(g: Grammar, ks: seq<seq<KItem>>, ks': seq<seq<KItem>>, a: seq<int>, a': seq<int>,
                       indgo: seq<int>)
    requires WellFormed(g) && KernelsOk(g, ks) && KernelsOk(g, ks') && CoreExt(ks, ks')
    requires GotosStored(g, ks, a, indgo) && Keeps(a, a')
    ensures GotosStored(g, ks', a', indgo)
  {
    forall s | 0 <= s < |indgo| ensures GotoStored(g, ks', s, a', indgo[s]) {
      GotoStoredExt(g, ks, ks', s, a, a', indgo[s]);
    }
  }

  lemma RowStored(g: Grammar, ks: seq<seq<KItem>>, s: int, row: seq<int>, a: seq<int>, off: int)
    requires WellFormed(g) && KernelsOk(g, ks) && 0 <= s < |ks| && GotoRow(g, ks, s, row)
    requires Stored(a, off, row[1..])
    ensures GotoStored(g, ks, s, a, off - 1)
  {
    var base := off - 1;
    forall n | 1 <= n <= g.nnonter ensures GotoAt(g, ks, s, n, a, base) {
      assert row[1..][n - 1] == row[n];
    }
  }

  // ---------------------------------------------------------------- termination

  /** st' is nearer the end than st. */
  ghost predicate Nearer(g: Grammar, st: States, st': States) {
    || Moves(g, st.kernels, st'.kernels)
    || (st'.kernels == st.kernels && MustDo(st') < MustDo(st))
  }

  lemma AdvancedIsNearer(g: Grammar, st: States, st': States, i: int)
    requires Advanced(g, st, st', i) && 0 <= i < |st.tystate| && st.tystate[i] == MUSTDO
    ensures Nearer(g, st, st')
  {
    if !Moves(g, st.kernels, st'.kernels) {
      assert i in MustDo(st) && i !in MustDo(st');
    }
  }

  lemma NearerTrans(g: Grammar, a: States, b: States, c: States)
    requires (a == b || Nearer(g, a, b)) && Nearer(g, b, c)
    ensures Nearer(g, a, c)
  {
    if a != b && !(a.kernels == b.kernels == c.kernels) {
      MovesTrans(g, a.kernels, b.kernels, c.kernels);
    }
  }

  // ---------------------------------------------------------------- one visit

  ghost predicate AllComplete(g: Grammar, ks: seq<seq<KItem>>, n: int)
    requires WellFormed(g) && KernelsOk(g, ks)
  {
    n <= |ks| && forall s :: 0 <= s < n ==> Complete(g, ks, s)
  }

  lemma AllCompleteExt(g: Grammar, ks: seq<seq<KItem>>, ks': seq<seq<KItem>>, n: int)
    requires WellFormed(g) && KernelsOk(g, ks) && KernelsOk(g, ks') && CoreExt(ks, ks') && AllComplete(g, ks, n)
    ensures AllComplete(g, ks', n)
  {
    forall s | 0 <= s < n ensures Complete(g, ks', s) {
      CompleteExt(g, ks, ks', s);
    }
  }

  predicate AllMustDo(st: States, n: int) {
    forall s :: n <= s < |st.tystate| && s >= 0 ==> st.tystate[s] == MUSTDO
  }

  /** Where a pass stands before state i: on the first pass the states before i have their gotos, stored and
      complete, and the rest are to be done; on a later pass every state has. */
  ghost predicate PassInv(g: Grammar, st: States, first: bool, i: int, a: seq<int>, indgo: seq<int>)
    requires WellFormed(g)
  {
    && StatesOk(g, st) && |st.kernels| < NSTATES && 0 <= i <= |st.kernels|
    && GotosStored(g, st.kernels, a, indgo)
    && |indgo| == (if first then i else |st.kernels|)
    && AllComplete(g, st.kernels, |indgo|)
    && (first ==> AllMustDo(st, i))
  }

  /** The table of states is full, or the array cannot take `row`, the goto row of state i, at whatever base. */
  ghost predicate Stuck(g: Grammar, ks: seq<seq<KItem>>, a: seq<int>, i: int, row: seq<int>)
    requires WellFormed(g) && KernelsOk(g, ks)
  {
    || |ks| + 1 >= NSTATES
    || (0 <= i < |ks| && GotoRow(g, ks, i, row) && |row| >= 1 && NoneFits(a, row[1..]))
  }

  /** Why state generation stops short. */
  ghost predicate Short(g: Grammar, st: States, a: seq<int>, i: int)
    requires WellFormed(g)
  {
    StatesOk(g, st) && exists row :: Stuck(g, st.kernels, a, i, row)
  }

  /** With few states, and room for a goto row behind the cells in use, nothing is short. */
  lemma NotShort(g: Grammar, st: States, a: seq<int>, i: int, u: nat)
    requires WellFormed(g) && StatesOk(g, st) && |st.kernels| + 1 < NSTATES && FreeFrom(a, u) && u + g.nnonter <= |a|
    ensures !Short(g, st, a, i)
  {
    forall row: seq<int> | |row| == g.nnonter + 1 ensures !NoneFits(a, row[1..]) { assert Room(a, u, row[1..]); }
  }

  /** State i's turn on the first pass: its gotos are registered and its goto row is packed. */
  method VisitFirst(cx: Context, st: States, i: nat, amem: array<int>, indgo: seq<int>)
    returns (ok: bool, st': States, indgo': seq<int>)
    requires ContextOk(cx) && PassInv(cx.g, st, true, i, amem[..], indgo) && i < |st.kernels|
    modifies amem
    ensures ok ==> PassInv(cx.g, st', true, i + 1, amem[..], indgo')
    ensures ok ==> CoreExt(st.kernels, st'.kernels) && Nearer(cx.g, st, st') && Turns(cx, st, st', i)
    ensures !ok ==> Short(cx.g, st', amem[..], i)
    ensures !ok ==> amem[..] == old(amem[..])
    ensures forall u: nat :: FreeFrom(old(amem[..]), u) ==> FreeFrom(amem[..], u + cx.g.nnonter)
    ensures ok && i == 0 ==> FirstMade(cx.g, st.kernels, st'.kernels, 0, StartSymbol(cx.g))
  {
    indgo' := indgo;
    ghost var a := amem[..];
    var temp1;
    ok, st', temp1 := Process(cx, st, i);
    if !ok {
      assert Stuck(cx.g, st'.kernels, amem[..], i, []);
      return;
    }
    var off;
    ok, off := APack(amem, temp1[1..]);
    if !ok {
      assert Stuck(cx.g, st'.kernels, amem[..], i, temp1);
      return;
    }
    indgo' := indgo + [off - 1];
    FirstVisited(cx.g, st, st', i, a, amem[..], indgo, temp1, off);
  }

  lemma FirstVisited(g: Grammar, st: States, st': States, i: int, a: seq<int>, a': seq<int>, indgo: seq<int>,
                     temp1: seq<int>, off: int)
    requires WellFormed(g) && PassInv(g, st, true, i, a, indgo) && i < |st.kernels|
    requires StatesOk(g, st') && |st'.kernels| < NSTATES && CoreExt(st.kernels, st'.kernels)
    requires Complete(g, st'.kernels, i) && GotoRow(g, st'.kernels, i, temp1)
    requires Advanced(g, st, st', i) && Marked(st, st', i)
    requires Keeps(a, a') && Stored(a', off, temp1[1..])
    ensures PassInv(g, st', true, i + 1, a', indgo + [off - 1]) && Nearer(g, st, st')
  {
    AdvancedIsNearer(g, st, st', i);
    AllCompleteExt(g, st.kernels, st'.kernels, i);
    RowStored(g, st'.kernels, i, temp1, a', off);
    GotosStoredExt(g, st.kernels, st'.kernels, a, a', indgo);
    AppendStored(g, st'.kernels, a', indgo, off - 1);
    StillMustDo(st, st', i);
  }

  lemma AppendStored(g: Grammar, ks: seq<seq<KItem>>, a: seq<int>, indgo: seq<int>, base: int)
    requires WellFormed(g) && KernelsOk(g, ks) && |indgo| < |ks|
    requires GotosStored(g, ks, a, indgo) && GotoStored(g, ks, |indgo|, a, base)
    ensures GotosStored(g, ks, a, indgo + [base])
  {
    var indgo' := indgo + [base];
    forall s | 0 <= s < |indgo'| ensures GotoStored(g, ks, s, a, indgo'[s]) {
      if s < |indgo| { assert indgo'[s] == indgo[s]; }
    }
  }

  lemma StillMustDo(st: States, st': States, i: int)
    requires AllMustDo(st, i) && Marked(st, st', i)
    ensures AllMustDo(st', i + 1)
  {
  }

  /** State i's turn on a later pass: no state is added. */
  method VisitAgain(cx: Context, st: States, i: nat, ghost a: seq<int>, ghost indgo: seq<int>)
    returns (st': States)
    requires ContextOk(cx) && PassInv(cx.g, st, false, i, a, indgo) && i < |st.kernels|
    requires st.tystate[i] == MUSTDO
    ensures PassInv(cx.g, st', false, i + 1, a, indgo)
    ensures CoreExt(st.kernels, st'.kernels) && Nearer(cx.g, st, st') && |st'.kernels| == |st.kernels|
    ensures Turns(cx, st, st', i)
  {
    assert Complete(cx.g, st.kernels, i);
    var ok, temp1;
    ok, st', temp1 := Process(cx, st, i);
    AdvancedIsNearer(cx.g, st, st', i);
    AllCompleteExt(cx.g, st.kernels, st'.kernels, |indgo|);
    GotosStoredExt(cx.g, st.kernels, st'.kernels, a, a, indgo);
  }

  // ---------------------------------------------------------------- passes

  lemma StartInv(g: Grammar, a: seq<int>)
    requires WellFormed(g)
    ensures PassInv(g, InitialStates(g), true, 0, a, [])
  {
    InitialOk(g);
  }

  /** A run that has come to st. */
  ghost predicate RunTo(cx: Context, run: seq<States>, st: States)
    requires ContextOk(cx)
  {
    IsRun(cx, run) && run[|run| - 1] == st
  }

  /** The finished automaton. */
  ghost predicate Generated(g: Grammar, st: States, a: seq<int>, indgo: seq<int>)
    requires WellFormed(g)
  {
    && StatesOk(g, st) && 2 <= |st.kernels| < NSTATES
    && |indgo| == |st.kernels|
    && AllComplete(g, st.kernels, |st.kernels|)
    && GotosStored(g, st.kernels, a, indgo)
    && IsGoto(g, st.kernels, 0, StartSymbol(g), 1)
  }

  /** The cells of n goto rows. */
  function RowCells(g: Grammar, n: nat): nat {
    n * g.nnonter
  }

  /** Past the cells used at first and those of n goto rows all are free. */
  predicate FreePast(g: Grammar, a: seq<int>, used: nat, n: nat) {
    FreeFrom(a, used + RowCells(g, n))
  }

  lemma FreePastNext(g: Grammar, a: seq<int>, a': seq<int>, used: nat, n: nat)
    requires FreePast(g, a, used, n) && forall u: nat :: FreeFrom(a, u) ==> FreeFrom(a', u + g.nnonter)
    ensures FreePast(g, a', used, n + 1)
  {
    assert used + RowCells(g, n + 1) == used + RowCells(g, n) + g.nnonter;
  }

  /** Where the first pass stands before state i; `used` cells were in use at first. */
  ghost predicate FirstInv(cx: Context, used: nat, run: seq<States>, st: States, i: nat, a: seq<int>,
                           indgo: seq<int>)
    requires ContextOk(cx)
  {
    && PassInv(cx.g, st, true, i, a, indgo) && RunTo(cx, run, st) && FreePast(cx.g, a, used, i)
    && (if i == 0 then |st.kernels| == 1 else IsGoto(cx.g, st.kernels, 0, StartSymbol(cx.g), 1))
  }

  lemma FirstStep(cx: Context, used: nat, run: seq<States>, st: States, st': States, i: nat, a: seq<int>,
                  a': seq<int>, indgo: seq<int>, indgo': seq<int>)
    requires ContextOk(cx) && FirstInv(cx, used, run, st, i, a, indgo) && i < |st.kernels|
    requires PassInv(cx.g, st', true, i + 1, a', indgo') && Turns(cx, st, st', i)
    requires forall u: nat :: FreeFrom(a, u) ==> FreeFrom(a', u + cx.g.nnonter)
    requires i == 0 ==> FirstMade(cx.g, st.kernels, st'.kernels, 0, StartSymbol(cx.g))
    ensures FirstInv(cx, used, run + [st'], st', i + 1, a', indgo')
  {
    FreePastNext(cx.g, a, a', used, i);
    RunExtends(cx, run, st');
    if i > 0 { IsGotoExt(cx.g, st.kernels, st'.kernels, 0, StartSymbol(cx.g), 1); }
  }

  lemma FirstStart(cx: Context, a: seq<int>, used: nat)
    requires ContextOk(cx) && FreeFrom(a, used)
    ensures FirstInv(cx, used, [InitialStates(cx.g)], InitialStates(cx.g), 0, a, [])
  {
    StartInv(cx.g, a);
  }

  lemma FirstDone(cx: Context, used: nat, run: seq<States>, st: States, i: nat, a: seq<int>, indgo: seq<int>)
    requires ContextOk(cx) && FirstInv(cx, used, run, st, i, a, indgo) && i >= |st.kernels|
    ensures Generated(cx.g, st, a, indgo) && RunTo(cx, run, st)
  {
  }

  method FirstTurn(cx: Context, st: States, i: nat, amem: array<int>, indgo: seq<int>, ghost used: nat,
                   ghost run: seq<States>)
    returns (ok: bool, st': States, indgo': seq<int>, ghost run': seq<States>)
    requires ContextOk(cx) && FirstInv(cx, used, run, st, i, amem[..], indgo) && i < |st.kernels|
    modifies amem
    ensures ok ==> FirstInv(cx, used, run', st', i + 1, amem[..], indgo')
    ensures !ok ==> Short(cx.g, st', amem[..], i) && FreePast(cx.g, amem[..], used, i)
  {
    ghost var a := amem[..];
    ok, st', indgo' := VisitFirst(cx, st, i, amem, indgo);
    run' := run + [st'];
    if ok { FirstStep(cx, used, run, st, st', i, a, amem[..], indgo, indgo'); }
  }

  /** The first pass generates all of the states. */
  method FirstPass(cx: Context, amem: array<int>, ghost used: nat)
    returns (ok: bool, st: States, indgo: seq<int>, at: nat, ghost run: seq<States>)
    requires ContextOk(cx) && FreeFrom(amem[..], used)
    modifies amem
    ensures ok ==> Generated(cx.g, st, amem[..], indgo) && RunTo(cx, run, st)
    ensures !ok ==> Short(cx.g, st, amem[..], at) && FreePast(cx.g, amem[..], used, at)
  {
    st, indgo, at := InitialStates(cx.g), [], 0;
    run := [st];
    FirstStart(cx, amem[..], used);
    while at < |st.kernels|
      invariant FirstInv(cx, used, run, st, at, amem[..], indgo)
      decreases NSTATES - at
    {
      ok, st, indgo, run := FirstTurn(cx, st, at, amem, indgo, used, run);
      if !ok {
        return;
      }
      at := at + 1;
    }
    FirstDone(cx, used, run, st, at, amem[..], indgo);
    ok := true;
  }

  /** A later pass fixes up lookaheads: it visits every marked state, adds no state and moves no goto. */
  method LaterPass(cx: Context, st: States, ghost a: seq<int>, ghost indgo: seq<int>, ghost run: seq<States>)
    returns (st': States, more: bool, ghost run': seq<States>)
    requires ContextOk(cx) && Generated(cx.g, st, a, indgo) && RunTo(cx, run, st)
    ensures Generated(cx.g, st', a, indgo) && CoreExt(st.kernels, st'.kernels) && |st'.kernels| == |st.kernels|
    ensures more ==> Nearer(cx.g, st, st')
    ensures !more ==> st' == st && MustDo(st) == {}
    ensures RunTo(cx, run', st')
  {
    CoreExtSelf(st.kernels);
    st', more, run' := st, false, run;
    var i := 0;
    while i < |st'.kernels|
      invariant PassInv(cx.g, st', false, i, a, indgo) && RunTo(cx, run', st')
      invariant CoreExt(st.kernels, st'.kernels) && |st'.kernels| == |st.kernels|
      invariant more ==> Nearer(cx.g, st, st')
      invariant !more ==> st' == st && forall s :: 0 <= s < i ==> st.tystate[s] != MUSTDO
    {
      if st'.tystate[i] == MUSTDO {
        var st1 := st';
        st' := VisitAgain(cx, st1, i, a, indgo);
        CoreExtTrans(st.kernels, st1.kernels, st'.kernels);
        NearerTrans(cx.g, st, st1, st');
        RunExtends(cx, run', st');
        run' := run' + [st'];
        more := true;
      }
      i := i + 1;
    }
    IsGotoExt(cx.g, st.kernels, st'.kernels, 0, StartSymbol(cx.g), 1);
  }

  /** `stagen`: the states are fixed by the first pass; the later passes end with nothing marked. */
  method GenerateStates(cx: Context, amem: array<int>, ghost used: nat)
    returns (ok: bool, st: States, indgo: seq<int>, at: nat, ghost run: seq<States>)
    requires ContextOk(cx) && FreeFrom(amem[..], used)
    modifies amem
    ensures ok ==> Generated(cx.g, st, amem[..], indgo) && MustDo(st) == {}
    ensures ok ==> RunTo(cx, run, st) && Looked(cx, st)
    ensures !ok ==> Short(cx.g, st, amem[..], at) && FreePast(cx.g, amem[..], used, at)
  {
    ok, st, indgo, at, run := FirstPass(cx, amem, used);
    if !ok {
      return;
    }
    var more := true;
    while more
      invariant Generated(cx.g, st, amem[..], indgo) && RunTo(cx, run, st)
      invariant !more ==> MustDo(st) == {}
      decreases MissingLooks(cx.g, st.kernels), MustDo(st), more
    {
      st, more, run := LaterPass(cx, st, amem[..], indgo, run);
    }
    RunEnds(cx, run);
  }
}
