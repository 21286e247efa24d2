/** `stagen`: the passes that turn a grammar into its states. */
module Generation {
  import opened Grammars
  import opened Items
  import opened Closure
  import opened Automaton
  import opened Carrying
  import opened StateGen
  import opened Spreading

  // ---------------------------------------------------------------- what a processed state has

  /** Some item in the closure of s has its dot before x. */
  ghost predicate Wants(g: Grammar, ks: seq<seq<KItem>>, s: int, x: int)
    requires WellFormed(g) && KernelsOk(g, ks) && 0 <= s < |ks|
  {
    exists it :: it in CloOf(g, ks[s]) && ValidItem(g, it) && First(g, it) == x
  }

  ghost predicate Gotos(g: Grammar, ks: seq<seq<KItem>>, s: int, goes: map<int, int>)
    requires WellFormed(g) && KernelsOk(g, ks) && 0 <= s < |ks|
  {
    forall x :: x in goes ==> IsGoto(g, ks, s, x, goes[x])
  }

  /** row[n] is the goto of s on nonterminal n, 0 when there is none. */
  ghost predicate GotoRow(g: Grammar, ks: seq<seq<KItem>>, s: int, row: seq<int>)
    requires WellFormed(g) && KernelsOk(g, ks) && 0 <= s < |ks|
  {
    && |row| == g.nnonter + 1
    && (forall n :: 0 <= n <= g.nnonter ==>
          if Wants(g, ks, s, NTBASE + n) then IsGoto(g, ks, s, NTBASE + n, row[n]) else row[n] == 0)
  }

  lemma GotosExt(g: Grammar, ks: seq<seq<KItem>>, ks': seq<seq<KItem>>, s: int, goes: map<int, int>)
    requires WellFormed(g) && KernelsOk(g, ks) && KernelsOk(g, ks') && CoreExt(ks, ks') && 0 <= s < |ks|
    requires Gotos(g, ks, s, goes)
    ensures Gotos(g, ks', s, goes)
  {
    forall x | x in goes ensures IsGoto(g, ks', s, x, goes[x]) {
      IsGotoExt(g, ks, ks', s, x, goes[x]);
    }
  }

  lemma CloOfExt(g: Grammar, ks: seq<seq<KItem>>, ks': seq<seq<KItem>>, s: int)
    requires WellFormed(g) && KernelsOk(g, ks) && KernelsOk(g, ks') && CoreExt(ks, ks') && 0 <= s < |ks|
    ensures CloOf(g, ks[s]) == CloOf(g, ks'[s])
  {
    SameCoreSameSet(ks[s], ks'[s]);
  }

  // ---------------------------------------------------------------- one state's turn

  /** Either the kernels moved on, or they stand and state i alone is no longer to be done. */
  ghost predicate Advanced(g: Grammar, st: States, st': States, i: int) {
    || Moves(g, st.kernels, st'.kernels)
    || (st'.kernels == st.kernels && |st'.tystate| == |st.tystate| && 0 <= i < |st.tystate| && st'.tystate[i] != MUSTDO
        && forall s :: 0 <= s < |st.tystate| && s != i ==> st'.tystate[s] == st.tystate[s])
  }

  lemma MovesTrans(g: Grammar, a: seq<seq<KItem>>, b: seq<seq<KItem>>, c: seq<seq<KItem>>)
    requires (a == b || Moves(g, a, b)) && (b == c || Moves(g, b, c)) && (Moves(g, a, b) || Moves(g, b, c))
    ensures Moves(g, a, c)
  {
    var ma, mb, mc := MissingLooks(g, a), MissingLooks(g, b), MissingLooks(g, c);
    assert mb < ma && mc < mb ==> mc < ma;
  }

  lemma AdvancedStep(g: Grammar, st: States, st1: States, st2: States, i: int)
    requires Advanced(g, st, st1, i) && (st2 == st1 || Moves(g, st1.kernels, st2.kernels))
    ensures Advanced(g, st, st2, i)
  {
    if st2 != st1 {
      MovesTrans(g, st.kernels, st1.kernels, st2.kernels);
    }
  }

  /** States other than i keep their mark or are marked to be done. */
  predicate Marked(st: States, st': States, i: int) {
    |st.tystate| <= |st'.tystate| &&
    forall s :: 0 <= s < |st'.tystate| && s != i ==>
      (s < |st.tystate| && st'.tystate[s] == st.tystate[s]) || st'.tystate[s] == MUSTDO
  }

  /** No entry before n waits on x. */
  predicate NoneBefore(g: Grammar, ws: seq<Wset>, x: int, n: nat)
    requires WellFormed(g) && n <= |ws| && forall i :: 0 <= i < |ws| ==> ValidItem(g, ws[i].item)
  {
    forall j :: 0 <= j < n ==> First(g, ws[j].item) != x
  }

  lemma {:induction false} GoneNone(g: Grammar, ws: seq<Wset>, x: int, n: nat)
    requires WellFormed(g) && n <= |ws| && (forall i :: 0 <= i < |ws| ==> ValidItem(g, ws[i].item))
    requires NoneBefore(g, ws, x, n)
    ensures Gone(g, ws, x, n) == []
    decreases n
  {
    if n > 0 { GoneNone(g, ws, x, n - 1); }
  }

  lemma GoneStep(g: Grammar, ws: seq<Wset>, x: int, n: nat)
    requires WellFormed(g) && n < |ws| && forall i :: 0 <= i < |ws| ==> ValidItem(g, ws[i].item)
    ensures First(g, ws[n].item) == x ==> Gone(g, ws, x, n + 1) == Gone(g, ws, x, n) + [Put(ws[n])]
    ensures First(g, ws[n].item) != x ==> Gone(g, ws, x, n + 1) == Gone(g, ws, x, n)
  {
  }

  /** Gather the moved items of every entry from p on that has its dot before c, and flag those entries. */
  method CollectGoto(g: Grammar, ws: seq<Wset>, flags: seq<bool>, p: nat, c: int)
    returns (pending: seq<KItem>, flags': seq<bool>)
    requires WellFormed(g) && (forall i :: 0 <= i < |ws| ==> ValidItem(g, ws[i].item))
    requires |flags| == |ws| && p < |ws| && First(g, ws[p].item) == c && NoneBefore(g, ws, c, p)
    ensures pending == Gone(g, ws, c, |ws|)
    ensures |flags'| == |ws| && forall j :: 0 <= j < |ws| ==> flags'[j] == (flags[j] || First(g, ws[j].item) == c)
  {
    GoneNone(g, ws, c, p);
    GoneStep(g, ws, c, p);
    pending := [] + [Put(ws[p])];
    assert forall j :: 0 <= j < p ==> First(g, ws[j].item) != c;
    flags' := flags[p := true];
    var q := p + 1;
    while q < |ws|
      invariant p < q <= |ws| && pending == Gone(g, ws, c, q)
      invariant |flags'| == |ws|
      invariant forall j :: 0 <= j < |ws| ==> flags'[j] == (flags[j] || (j < q && First(g, ws[j].item) == c))
    {
      GoneStep(g, ws, c, q);
      if c == First(g, ws[q].item) {
        pending := pending + [Put(ws[q])];
        flags' := flags'[q := true];
        assert pending == Gone(g, ws, c, q + 1);
      } else {
        assert pending == Gone(g, ws, c, q + 1);
      }
      q := q + 1;
    }
    assert q == |ws|;
  }

  /** The symbols above 1 that the first p entries wait on. */
  ghost function Seen(g: Grammar, ws: seq<Wset>, p: nat): set<int>
    requires WellFormed(g) && p <= |ws| && forall i :: 0 <= i < |ws| ==> ValidItem(g, ws[i].item)
  {
    set j | 0 <= j < p && First(g, ws[j].item) > 1 :: First(g, ws[j].item)
  }

  lemma SeenNext(g: Grammar, ws: seq<Wset>, p: nat)
    requires WellFormed(g) && p < |ws| && forall i :: 0 <= i < |ws| ==> ValidItem(g, ws[i].item)
    ensures Seen(g, ws, p + 1) == Seen(g, ws, p) + (if First(g, ws[p].item) > 1 then {First(g, ws[p].item)} else {})
  {
  }

  lemma NewGoto(g: Grammar, st: States, st': States, i: int, ws: seq<Wset>, c: int, t: int)
    requires WellFormed(g) && StatesOk(g, st) && 0 <= i < |st.kernels| && WsOk(g, ws)
    requires ItemSet(ws) == CloOf(g, st.kernels[i])
    requires Registered(g, st, st', KernelSet(Gone(g, ws, c, |ws|)), t)
    ensures IsGoto(g, st'.kernels, i, c, t)
  {
    GoneIsGotoSet(g, ws, c);
    CloOfExt(g, st.kernels, st'.kernels, i);
  }

  lemma GotoKnown(g: Grammar, ks: seq<seq<KItem>>, i: int, ws: seq<Wset>, p: int)
    requires WellFormed(g) && KernelsOk(g, ks) && 0 <= i < |ks| && WsOk(g, ws) && ItemSet(ws) == CloOf(g, ks[i])
    requires Complete(g, ks, i) && 0 <= p < |ws| && First(g, ws[p].item) > 1
    ensures Known(ks, KernelSet(Gone(g, ws, First(g, ws[p].item), |ws|)))
  {
    var c := First(g, ws[p].item);
    GoneIsGotoSet(g, ws, c);
    assert ws[p].item in ItemSet(ws);
    assert HasGoto(g, ks, i, c);
    var t :| IsGoto(g, ks, i, c, t);
  }

  /** The first goto made when only state 0 exists makes state 1. */
  ghost predicate FirstMade(g: Grammar, ks: seq<seq<KItem>>, ks': seq<seq<KItem>>, i: int, x: int)
    requires WellFormed(g) && KernelsOk(g, ks') && 0 <= i < |ks'|
  {
    |ks| == 1 ==> IsGoto(g, ks', i, x, 1)
  }

  /** Register the items gathered for the symbol after entry p's dot. */
  method Register(g: Grammar, st: States, i: nat, ws: seq<Wset>, p: nat, pending: seq<KItem>)
    returns (ok: bool, st': States, t: nat)
    requires WellFormed(g) && StatesOk(g, st) && |st.kernels| < NSTATES && i < |st.kernels|
    requires WsOk(g, ws) && ItemSet(ws) == CloOf(g, st.kernels[i]) && p < |ws| && First(g, ws[p].item) > 1
    requires pending == Gone(g, ws, First(g, ws[p].item), |ws|)
    ensures ok ==> Registered(g, st, st', KernelSet(pending), t) && Joined(st, st', pending, t)
    ensures ok ==> IsGoto(g, st'.kernels, i, First(g, ws[p].item), t)
    ensures Complete(g, st.kernels, i) ==> ok && |st'.kernels| == |st.kernels|
    ensures !ok ==> st' == st && |st.kernels| + 1 >= NSTATES
  {
    var c := First(g, ws[p].item);
    PutMoved(g, ws, p);
    GonePending(g, ws, c, |ws|);
    GoneHas(g, ws, c, |ws|, p);
    ok, st', t := State(g, st, pending, c, false);
    if Complete(g, st.kernels, i) {
      GotoKnown(g, st.kernels, i, ws, p);
    }
    if ok {
      NewGoto(g, st, st', i, ws, c, t);
    }
  }

  /** The goto of state i on the symbol after entry p's dot: gather, then register. */
  method DoGoto(g: Grammar, st: States, i: nat, ws: seq<Wset>, flags: seq<bool>, p: nat)
    returns (ok: bool, st': States, flags': seq<bool>, t: nat)
    requires WellFormed(g) && StatesOk(g, st) && |st.kernels| < NSTATES && i < |st.kernels|
    requires WsOk(g, ws) && ItemSet(ws) == CloOf(g, st.kernels[i]) && |flags| == |ws|
    requires p < |ws| && First(g, ws[p].item) > 1 && NoneBefore(g, ws, First(g, ws[p].item), p)
    ensures var c := First(g, ws[p].item);
            |flags'| == |ws| && forall j :: 0 <= j < |ws| ==> flags'[j] == (flags[j] || First(g, ws[j].item) == c)
    ensures ok ==> Registered(g, st, st', KernelSet(Gone(g, ws, First(g, ws[p].item), |ws|)), t)
    ensures ok ==> Joined(st, st', Gone(g, ws, First(g, ws[p].item), |ws|), t)
    ensures ok ==> IsGoto(g, st'.kernels, i, First(g, ws[p].item), t)
    ensures ok ==> FirstMade(g, st.kernels, st'.kernels, i, First(g, ws[p].item))
    ensures Complete(g, st.kernels, i) ==> ok && |st'.kernels| == |st.kernels|
    ensures !ok ==> st' == st && |st.kernels| + 1 >= NSTATES
  {
    var pending;
    pending, flags' := CollectGoto(g, ws, flags, p, First(g, ws[p].item));
    ok, st', t := Register(g, st, i, ws, p, pending);
  }

  lemma ClosedState(cx: Context, st: States, i: int, ws: seq<Wset>, nolook: bool)
    requires ContextOk(cx) && StatesOk(cx.g, st) && 0 <= i < |st.kernels| && Closed(cx, st.kernels[i], ws, nolook)
    ensures WsOk(cx.g, ws) && ItemSet(ws) == CloOf(cx.g, st.kernels[i]) && |st.kernels[i]| <= |ws|
    ensures OneEach(st.kernels[i])
  {
    var k := st.kernels[i];
    assert StateOk(cx.g, st.kernels, i);
    forall a, b | 0 <= a < b < |k| ensures k[a].item != k[b].item {
      assert i > 0 ==> Less(k[a].item, k[b].item);
    }
    ClosedIsOk(cx, k, ws, nolook);
  }

  method CloseState(cx: Context, st: States, i: nat) returns (ws: seq<Wset>)
    requires ContextOk(cx) && StatesOk(cx.g, st) && i < |st.kernels|
    ensures WsOk(cx.g, ws) && ItemSet(ws) == CloOf(cx.g, st.kernels[i])
    ensures Closed(cx, st.kernels[i], ws, false) && OneEach(st.kernels[i])
    ensures |st.kernels[i]| <= |ws| && forall j :: 0 <= j < |st.kernels[i]| ==> ws[j].item == st.kernels[i][j].item
  {
    ws := Close(cx, st.kernels[i], false);
    ClosedState(cx, st, i, ws, false);
  }

  /** temp1 holds the nonterminal part of goes. */
  predicate TempOk(g: Grammar, temp1: seq<int>, goes: map<int, int>) {
    && |temp1| == g.nnonter + 1
    && forall n :: 0 <= n < |temp1| ==> temp1[n] == if NTBASE + n in goes then goes[NTBASE + n] else 0
  }

  /** Where the loop over the closed items stands after p of them. */
  ghost predicate TurnInv(g: Grammar, st: States, st': States, i: int, ws: seq<Wset>, flags: seq<bool>, p: nat,
                          goes: map<int, int>)
    requires WellFormed(g)
  {
    && StatesOk(g, st') && |st'.kernels| < NSTATES && 0 <= i < |st.kernels|
    && CoreExt(st.kernels, st'.kernels)
    && Gotos(g, st'.kernels, i, goes)
    && WsOk(g, ws) && ItemSet(ws) == CloOf(g, st'.kernels[i])
    && FlagsAt(g, ws, flags, p, goes)
  }

  /** The symbols of the first p items are handled, and the items before one of them flagged. */
  ghost predicate FlagsAt(g: Grammar, ws: seq<Wset>, flags: seq<bool>, p: nat, goes: map<int, int>)
    requires WellFormed(g) && forall i :: 0 <= i < |ws| ==> ValidItem(g, ws[i].item)
  {
    && p <= |ws| && |flags| == |ws| && goes.Keys == Seen(g, ws, p)
    && (forall j :: 0 <= j < |ws| ==> flags[j] == (j < p || First(g, ws[j].item) in goes))
  }

  /** An item that is flagged or has nothing to move over is passed by. */
  lemma FlagsSkip(g: Grammar, ws: seq<Wset>, flags: seq<bool>, p: nat, goes: map<int, int>)
    requires WellFormed(g) && (forall i :: 0 <= i < |ws| ==> ValidItem(g, ws[i].item))
    requires FlagsAt(g, ws, flags, p, goes) && p < |ws| && (flags[p] || First(g, ws[p].item) <= 1)
    ensures FlagsAt(g, ws, flags[p := true], p + 1, goes)
  {
    SeenNext(g, ws, p);
  }

  lemma TurnGoto(g: Grammar, st: States, st1: States, st2: States, i: int, ws: seq<Wset>, flags: seq<bool>,
                 flags': seq<bool>, p: nat, goes: map<int, int>, t: int)
    requires WellFormed(g) && StatesOk(g, st) && TurnInv(g, st, st1, i, ws, flags, p, goes)
    requires p < |ws| && First(g, ws[p].item) > 1
    requires StatesOk(g, st2) && |st2.kernels| < NSTATES && CoreExt(st1.kernels, st2.kernels)
    requires IsGoto(g, st2.kernels, i, First(g, ws[p].item), t)
    requires |flags'| == |ws|
    requires forall j :: 0 <= j < |ws| ==> flags'[j] == (flags[j] || First(g, ws[j].item) == First(g, ws[p].item))
    ensures TurnInv(g, st, st2, i, ws, flags', p + 1, goes[First(g, ws[p].item) := t])
  {
    GotosExt(g, st1.kernels, st2.kernels, i, goes);
    CoreExtTrans(st.kernels, st1.kernels, st2.kernels);
    CloOfExt(g, st1.kernels, st2.kernels, i);
    FlagsNext(g, ws, flags, flags', p, goes, t);
  }

  /** The flags and the handled symbols after a goto at p. */
  lemma FlagsNext(g: Grammar, ws: seq<Wset>, flags: seq<bool>, flags': seq<bool>, p: nat, goes: map<int, int>, t: int)
    requires WellFormed(g) && (forall i :: 0 <= i < |ws| ==> ValidItem(g, ws[i].item))
    requires FlagsAt(g, ws, flags, p, goes) && p < |ws| && First(g, ws[p].item) > 1 && |flags'| == |ws|
    requires forall j :: 0 <= j < |ws| ==> flags'[j] == (flags[j] || First(g, ws[j].item) == First(g, ws[p].item))
    ensures FlagsAt(g, ws, flags', p + 1, goes[First(g, ws[p].item) := t])
  {
    SeenNext(g, ws, p);
  }

  lemma TurnSkip(g: Grammar, st: States, st1: States, i: int, ws: seq<Wset>, flags: seq<bool>, p: nat,
                 goes: map<int, int>)
    requires WellFormed(g) && StatesOk(g, st) && TurnInv(g, st, st1, i, ws, flags, p, goes) && p < |ws|
    requires flags[p] || First(g, ws[p].item) <= 1
    ensures TurnInv(g, st, st1, i, ws, flags[p := true], p + 1, goes)
  {
    FlagsSkip(g, ws, flags, p, goes);
  }

  lemma TurnUnflagged(g: Grammar, st: States, st1: States, i: int, ws: seq<Wset>, flags: seq<bool>, p: nat,
                      goes: map<int, int>)
    requires WellFormed(g) && TurnInv(g, st, st1, i, ws, flags, p, goes)
    requires p < |ws| && First(g, ws[p].item) > 1 && !flags[p]
    ensures NoneBefore(g, ws, First(g, ws[p].item), p) && First(g, ws[p].item) !in goes
  {
  }

  lemma TurnDone(g: Grammar, st: States, st1: States, i: int, ws: seq<Wset>, flags: seq<bool>, goes: map<int, int>,
                 temp1: seq<int>)
    requires WellFormed(g) && TurnInv(g, st, st1, i, ws, flags, |ws|, goes) && TempOk(g, temp1, goes)
    ensures Complete(g, st1.kernels, i) && GotoRow(g, st1.kernels, i, temp1)
  {
    var ks := st1.kernels;
    forall it | it in CloOf(g, ks[i]) && ValidItem(g, it) && First(g, it) > 1 ensures First(g, it) in goes {
      var j :| 0 <= j < |ws| && ws[j].item == it;
    }
    forall it | it in CloOf(g, ks[i]) && ValidItem(g, it) && First(g, it) > 1 ensures HasGoto(g, ks, i, First(g, it)) {
      assert IsGoto(g, ks, i, First(g, it), goes[First(g, it)]);
    }
    forall n | 0 <= n <= g.nnonter
      ensures if Wants(g, ks, i, NTBASE + n) then IsGoto(g, ks, i, NTBASE + n, temp1[n]) else temp1[n] == 0
    {
      if NTBASE + n in goes {
        var j :| 0 <= j < |ws| && First(g, ws[j].item) == NTBASE + n;
        assert ws[j].item in ItemSet(ws);
      }
    }
  }

  /** st with the mark of state i changed. */
  function Remark(st: States, i: int, ty: int): States
    requires 0 <= i < |st.tystate|
  {
    st.(tystate := st.tystate[i := ty])
  }

  lemma RemarkOk(g: Grammar, st: States, i: int, ty: int)
    requires WellFormed(g) && StatesOk(g, st) && 0 <= i < |st.kernels|
    ensures StatesOk(g, Remark(st, i, ty))
  {
    forall s | 0 <= s < |st.kernels| ensures SameCore(st.kernels[s], st.kernels[s]) {}
    var st' := Remark(st, i, ty);
    forall s, j | 0 <= s < |st'.kernels| && 0 <= j < |st'.kernels[s]| ensures IsLook(g, st'.kernels[s][j].look) {
      assert KernelOk(g, st.kernels[s]);
    }
    LooksKeepStates(g, st, st');
  }

  ghost predicate TurnAll(g: Grammar, st: States, st': States, i: int, ws: seq<Wset>, flags: seq<bool>, p: nat,
                          goes: map<int, int>, temp1: seq<int>)
    requires WellFormed(g) && KernelsOk(g, st.kernels) && 0 <= i < |st.kernels|
  {
    && TurnInv(g, st, st', i, ws, flags, p, goes) && TempOk(g, temp1, goes)
    && Advanced(g, st, st', i) && Marked(st, st', i)
    && (Complete(g, st.kernels, i) ==> |st'.kernels| == |st.kernels|)
  }

  /** temp1 with the goto on c noted when c is a nonterminal. */
  function NextTemp(temp1: seq<int>, c: int, t: int): seq<int> {
    if NTBASE <= c < NTBASE + |temp1| then temp1[c - NTBASE := t] else temp1
  }

  lemma TurnGotoAll(g: Grammar, st: States, st1: States, st2: States, i: int, ws: seq<Wset>, flags: seq<bool>,
                    flags': seq<bool>, p: nat, goes: map<int, int>, temp1: seq<int>, t: int)
    requires WellFormed(g) && StatesOk(g, st) && 0 <= i < |st.kernels|
    requires TurnAll(g, st, st1, i, ws, flags, p, goes, temp1)
    requires p < |ws| && First(g, ws[p].item) > 1
    requires Registered(g, st1, st2, KernelSet(Gone(g, ws, First(g, ws[p].item), |ws|)), t)
    requires IsGoto(g, st2.kernels, i, First(g, ws[p].item), t)
    requires Complete(g, st.kernels, i) ==> |st2.kernels| == |st1.kernels|
    requires |flags'| == |ws|
    requires forall j :: 0 <= j < |ws| ==> flags'[j] == (flags[j] || First(g, ws[j].item) == First(g, ws[p].item))
    ensures var c := First(g, ws[p].item);
            TurnAll(g, st, st2, i, ws, flags', p + 1, goes[c := t], NextTemp(temp1, c, t))
  {
    TurnGoto(g, st, st1, st2, i, ws, flags, flags', p, goes, t);
    AdvancedStep(g, st, st1, st2, i);
    TempNext(g, temp1, goes, First(g, ws[p].item), t);
    PutMoved(g, ws, p);
  }

  /** A goto on the symbol after entry p's dot, noted in temp1 when the symbol is a nonterminal. */
  method GotoItem(g: Grammar, ghost st: States, st1: States, i: nat, ws: seq<Wset>, flags: seq<bool>, p: nat,
                  ghost goes: map<int, int>, temp1: seq<int>)
    returns (ok: bool, st': States, flags': seq<bool>, temp1': seq<int>, ghost goes': map<int, int>)
    requires WellFormed(g) && StatesOk(g, st) && i < |st.kernels| && p < |ws|
    requires TurnAll(g, st, st1, i, ws, flags, p, goes, temp1)
    requires First(g, ws[p].item) > 1 && !flags[p] && Spreads(g, st, st1, i, ws, p, goes)
    ensures ok ==> TurnAll(g, st, st', i, ws, flags', p + 1, goes', temp1') && Spreads(g, st, st', i, ws, p + 1, goes')
    ensures ok ==> CoreExt(st1.kernels, st'.kernels) && FirstMade(g, st1.kernels, st'.kernels, i, First(g, ws[p].item))
    ensures Complete(g, st.kernels, i) ==> ok
    ensures !ok ==> StatesOk(g, st') && |st'.kernels| + 1 >= NSTATES
  {
    temp1', goes' := temp1, goes;
    TurnUnflagged(g, st, st1, i, ws, flags, p, goes);
    if Complete(g, st.kernels, i) { CompleteExt(g, st.kernels, st1.kernels, i); }
    var t;
    ok, st', flags', t := DoGoto(g, st1, i, ws, flags, p);
    if ok {
      TurnGotoAll(g, st, st1, st', i, ws, flags, flags', p, goes, temp1, t);
      GotoAcc(g, st'.kernels, i, First(g, ws[p].item), t);
      SpreadsGoto(g, st, st1, st', i, ws, p, goes, t);
      temp1' := NextTemp(temp1, First(g, ws[p].item), t);
      goes' := goes[First(g, ws[p].item) := t];
    }
  }

  lemma CoreExtSelf(ks: seq<seq<KItem>>)
    ensures CoreExt(ks, ks)
  {
  }

  /** An item with nothing to move over; one that the closure added makes its state need lookahead. */
  method SkipItem(g: Grammar, ghost st: States, st1: States, i: nat, ws: seq<Wset>, flags: seq<bool>, p: nat,
                  ghost goes: map<int, int>, ghost temp1: seq<int>, nk: nat)
    returns (st': States, flags': seq<bool>)
    requires WellFormed(g) && StatesOk(g, st) && i < |st.kernels| && p < |ws| && nk == |st.kernels[i]|
    requires TurnAll(g, st, st1, i, ws, flags, p, goes, temp1) && First(g, ws[p].item) <= 1
    requires Spreads(g, st, st1, i, ws, p, goes)
    ensures TurnAll(g, st, st', i, ws, flags', p + 1, goes, temp1) && st'.kernels == st1.kernels
    ensures Spreads(g, st, st', i, ws, p + 1, goes)
  {
    TurnSkip(g, st, st1, i, ws, flags, p, goes);
    st', flags' := st1, flags[p := true];
    if nk <= p {
      TurnRemark(g, st, st1, i, ws, flags', p + 1, goes);
      SeenBefore(g, ws, p, goes);
      SpreadsLate(g, st, st1, i, ws, p, goes);
      st' := Remark(st1, i, MUSTLOOKAHEAD);
    } else {
      SpreadsPassed(g, st, st1, i, ws, p, goes);
    }
  }

  lemma SeenBefore(g: Grammar, ws: seq<Wset>, p: nat, goes: map<int, int>)
    requires WellFormed(g) && p <= |ws| && (forall i :: 0 <= i < |ws| ==> ValidItem(g, ws[i].item))
    requires goes.Keys == Seen(g, ws, p)
    ensures forall x :: x in goes ==> x > 1 && exists m :: 0 <= m < p && First(g, ws[m].item) == x
  {
    forall x | x in goes ensures x > 1 && exists m :: 0 <= m < p && First(g, ws[m].item) == x {
      assert x in Seen(g, ws, p);
    }
  }

  lemma FlaggedMoves(g: Grammar, ws: seq<Wset>, flags: seq<bool>, p: nat, goes: map<int, int>)
    requires WellFormed(g) && (forall i :: 0 <= i < |ws| ==> ValidItem(g, ws[i].item))
    requires FlagsAt(g, ws, flags, p, goes) && p < |ws| && flags[p]
    ensures First(g, ws[p].item) > 1
  {
    SeenBefore(g, ws, p, goes);
  }

  /** Entry p's turn in the loop of `stagen` over the closed items. */
  method ProcessItem(g: Grammar, ghost st: States, st1: States, i: nat, ws: seq<Wset>, flags: seq<bool>, p: nat,
                     ghost goes: map<int, int>, temp1: seq<int>, nk: nat)
    returns (ok: bool, st': States, flags': seq<bool>, temp1': seq<int>, ghost goes': map<int, int>)
    requires WellFormed(g) && StatesOk(g, st) && i < |st.kernels| && p < |ws| && nk == |st.kernels[i]|
    requires TurnAll(g, st, st1, i, ws, flags, p, goes, temp1) && Spreads(g, st, st1, i, ws, p, goes)
    ensures ok ==> TurnAll(g, st, st', i, ws, flags', p + 1, goes', temp1') && Spreads(g, st, st', i, ws, p + 1, goes')
    ensures ok ==> CoreExt(st1.kernels, st'.kernels)
    ensures ok && p == 0 && First(g, ws[p].item) > 1 ==> FirstMade(g, st1.kernels, st'.kernels, i, First(g, ws[p].item))
    ensures Complete(g, st.kernels, i) ==> ok
    ensures !ok ==> StatesOk(g, st') && |st'.kernels| + 1 >= NSTATES
  {
    CoreExtSelf(st1.kernels);
    ok, st', flags', temp1', goes' := true, st1, flags, temp1, goes;
    if flags[p] {
      TurnSkip(g, st, st1, i, ws, flags, p, goes);
      assert flags[p := true] == flags;
      FlaggedMoves(g, ws, flags, p, goes);
      SpreadsPassed(g, st, st1, i, ws, p, goes);
    } else if First(g, ws[p].item) <= 1 {
      st', flags' := SkipItem(g, st, st1, i, ws, flags, p, goes, temp1, nk);
    } else {
      ok, st', flags', temp1', goes' := GotoItem(g, st, st1, i, ws, flags, p, goes, temp1);
    }
  }

  lemma TurnStart(g: Grammar, st: States, st': States, i: int, ws: seq<Wset>, flags: seq<bool>, temp1: seq<int>)
    requires WellFormed(g) && StatesOk(g, st) && |st.kernels| < NSTATES && 0 <= i < |st.kernels|
    requires st' == Remark(st, i, DONE) && StatesOk(g, st')
    requires WsOk(g, ws) && ItemSet(ws) == CloOf(g, st'.kernels[i])
    requires |flags| == |ws| && (forall j :: 0 <= j < |ws| ==> !flags[j])
    requires |temp1| == g.nnonter + 1 && forall n :: 0 <= n < |temp1| ==> temp1[n] == 0
    ensures TurnAll(g, st, st', i, ws, flags, 0, map[], temp1)
  {
    forall s | 0 <= s < |st.kernels| ensures SameCore(st.kernels[s], st.kernels[s]) {}
  }

  ghost predicate FirstInv(g: Grammar, st1: States, st': States, i: int, ws: seq<Wset>, p: int)
    requires WellFormed(g) && KernelsOk(g, st'.kernels) && 0 <= i < |st'.kernels|
    requires forall j :: 0 <= j < |ws| ==> ValidItem(g, ws[j].item)
  {
    if p == 0 then st' == st1
    else |ws| > 0 && (First(g, ws[0].item) > 1 ==> FirstMade(g, st1.kernels, st'.kernels, i, First(g, ws[0].item)))
  }

  lemma FirstInvStep(g: Grammar, st1: States, st0: States, st': States, i: int, ws: seq<Wset>, p: int)
    requires WellFormed(g) && KernelsOk(g, st0.kernels) && KernelsOk(g, st'.kernels) && 0 <= i < |st0.kernels|
    requires CoreExt(st0.kernels, st'.kernels) && 0 <= p < |ws|
    requires forall j :: 0 <= j < |ws| ==> ValidItem(g, ws[j].item)
    requires FirstInv(g, st1, st0, i, ws, p)
    requires p == 0 && First(g, ws[p].item) > 1 ==> FirstMade(g, st0.kernels, st'.kernels, i, First(g, ws[p].item))
    ensures FirstInv(g, st1, st', i, ws, p + 1)
  {
    if p > 0 { FirstMadeExt(g, st1.kernels, st0.kernels, st'.kernels, i, First(g, ws[0].item)); }
  }

  lemma FirstMadeExt(g: Grammar, ks: seq<seq<KItem>>, ks1: seq<seq<KItem>>, ks2: seq<seq<KItem>>, i: int, x: int)
    requires WellFormed(g) && KernelsOk(g, ks1) && KernelsOk(g, ks2) && CoreExt(ks1, ks2) && 0 <= i < |ks1|
    ensures FirstMade(g, ks, ks1, i, x) ==> FirstMade(g, ks, ks2, i, x)
  {
    if |ks| == 1 && IsGoto(g, ks1, i, x, 1) { IsGotoExt(g, ks1, ks2, i, x, 1); }
  }

  /** The loop of `stagen` over the closed items of state i. */
  method ProcessItems(g: Grammar, ghost st: States, st1: States, i: nat, ws: seq<Wset>, flags1: seq<bool>,
                      zero: seq<int>, nk: nat)
    returns (ok: bool, st': States, temp1: seq<int>, ghost goes: map<int, int>)
    requires WellFormed(g) && StatesOk(g, st) && i < |st.kernels| && nk == |st.kernels[i]|
    requires TurnAll(g, st, st1, i, ws, flags1, 0, map[], zero) && Spreads(g, st, st1, i, ws, 0, map[])
    ensures ok ==> StatesOk(g, st') && |st'.kernels| < NSTATES && CoreExt(st.kernels, st'.kernels)
    ensures ok ==> Complete(g, st'.kernels, i) && GotoRow(g, st'.kernels, i, temp1)
    ensures ok ==> Advanced(g, st, st', i) && Marked(st, st', i)
    ensures Complete(g, st.kernels, i) ==> ok && |st'.kernels| == |st.kernels|
    ensures !ok ==> StatesOk(g, st') && |st'.kernels| + 1 >= NSTATES
    ensures ok && |ws| > 0 && First(g, ws[0].item) > 1 ==>
              FirstMade(g, st1.kernels, st'.kernels, i, First(g, ws[0].item))
    ensures ok ==> Spreads(g, st, st', i, ws, |ws|, goes) && ItemSet(ws) == CloOf(g, st'.kernels[i])
    ensures ok ==> AllGone(g, st'.kernels, i, ws, goes)
  {
    ok, st', temp1, goes := true, st1, zero, map[];
    var flags := flags1;
    var p := 0;
    while p < |ws|
      invariant 0 <= p <= |ws|
      invariant ok && TurnAll(g, st, st', i, ws, flags, p, goes, temp1) && Spreads(g, st, st', i, ws, p, goes)
      invariant FirstInv(g, st1, st', i, ws, p)
    {
      ghost var st0 := st';
      ok, st', flags, temp1, goes := ProcessItem(g, st, st', i, ws, flags, p, goes, temp1, nk);
      if !ok {
        return;
      }
      FirstInvStep(g, st1, st0, st', i, ws, p);
      p := p + 1;
    }
    TurnDone(g, st, st', i, ws, flags, goes, temp1);
  }

  /** Close state i and register its gotos; temp1 is its row of nonterminal gotos. */
  method Process(cx: Context, st: States, i: nat) returns (ok: bool, st': States, temp1: seq<int>)
    requires ContextOk(cx) && StatesOk(cx.g, st) && |st.kernels| < NSTATES && i < |st.kernels|
    ensures ok ==> StatesOk(cx.g, st') && |st'.kernels| < NSTATES && CoreExt(st.kernels, st'.kernels)
    ensures ok ==> Complete(cx.g, st'.kernels, i) && GotoRow(cx.g, st'.kernels, i, temp1)
    ensures ok ==> Advanced(cx.g, st, st', i) && Marked(st, st', i) && Worked(cx, st, st', i)
    ensures Complete(cx.g, st.kernels, i) ==> ok && |st'.kernels| == |st.kernels|
    ensures !ok ==> StatesOk(cx.g, st') && |st'.kernels| + 1 >= NSTATES
    ensures ok && i == 0 ==> FirstMade(cx.g, st.kernels, st'.kernels, 0, StartSymbol(cx.g))
  {
    RemarkOk(cx.g, st, i, DONE);
    var st1 := Remark(st, i, DONE);
    var ws := CloseState(cx, st1, i);
    var flags := seq(|ws|, _ => false);
    temp1 := seq(cx.g.nnonter + 1, _ => 0);
    TurnStart(cx.g, st, st1, i, ws, flags, temp1);
    SpreadsStart(cx.g, st, st1, i, ws);
    assert i == 0 ==> ws[0].item == Item(-1, 1) by { assert StateOk(cx.g, st.kernels, 0); }
    ghost var goes;
    ok, st', temp1, goes := ProcessItems(cx.g, st, st1, i, ws, flags, temp1, |st.kernels[i]|);
    if ok { TurnWorked(cx, st, st', i, ws, goes); }
  }

  lemma TempNext(g: Grammar, temp1: seq<int>, goes: map<int, int>, c: int, t: int)
    requires TempOk(g, temp1, goes)
    ensures c < NTBASE ==> TempOk(g, temp1, goes[c := t])
    ensures NTBASE <= c <= NTBASE + g.nnonter ==> TempOk(g, temp1[c - NTBASE := t], goes[c := t])
  {
  }

  lemma TurnRemark(g: Grammar, st: States, st1: States, i: int, ws: seq<Wset>, flags: seq<bool>, p: nat,
                   goes: map<int, int>)
    requires WellFormed(g) && StatesOk(g, st) && TurnInv(g, st, st1, i, ws, flags, p, goes)
    ensures 0 <= i < |st1.tystate|
    ensures TurnInv(g, st, Remark(st1, i, MUSTLOOKAHEAD), i, ws, flags, p, goes)
    ensures Advanced(g, st, st1, i) ==> Advanced(g, st, Remark(st1, i, MUSTLOOKAHEAD), i)
    ensures Marked(st, st1, i) ==> Marked(st, Remark(st1, i, MUSTLOOKAHEAD), i)
  {
    RemarkOk(g, st1, i, MUSTLOOKAHEAD);
  }
}
