/** What one state's turn in `stagen` does to lookaheads and marks. */
module Spreading {
  import opened Grammars
  import opened Items
  import opened Closure
  import opened Automaton
  import opened Carrying
  import opened StateGen

  // ---------------------------------------------------------------- the turn, as a specification

  /** The item before its dot was moved. */
  function Before(it: Item): Item {
    Item(it.p, if it.off == 0 then 0 else it.off - 1)
  }

  /** What item `it` of state t gets from state i, whose kernel was k: if t is a goto of i, what the item carried
      there before its dot was moved. */
  ghost function Received(cx: Context, k: seq<KItem>, ks: seq<seq<KItem>>, i: int, t: int, it: Item): set<int>
    requires ContextOk(cx) && KernelsOk(cx.g, ks) && 0 <= i < |ks| && 0 <= t < |ks|
  {
    if IsGoto(cx.g, ks, i, Acc(cx.g, ks[t]), t) && it in KernelSet(ks[t]) then Carry(cx, k, Before(it)) else {}
  }

  ghost predicate Receives(cx: Context, st: States, st': States, i: int, t: int, it: Item)
    requires ContextOk(cx) && KernelsOk(cx.g, st'.kernels) && 0 <= i < |st.kernels| <= |st'.kernels|
    requires 0 <= t < |st'.kernels|
  {
    LookAt(st'.kernels[t], it) == LookIn(st.kernels, t, it) + Received(cx, st.kernels[i], st'.kernels, i, t, it)
  }

  /** The mark state i is left with: to be done again iff its own kernel grew and the order of its closure did not
      erase the mark; otherwise it needs lookahead iff its closure has late productions. */
  ghost predicate MarkedAfter(cx: Context, st: States, st': States, i: int)
    requires ContextOk(cx) && KernelsOk(cx.g, st.kernels) && 0 <= i < |st.kernels| <= |st'.kernels|
  {
    && i < |st'.tystate|
    && (st'.tystate[i] == MUSTDO <==> st'.kernels[i] != st.kernels[i] && !Lossy(cx, st.kernels[i]))
    && (st'.tystate[i] != MUSTDO ==> (st'.tystate[i] == MUSTLOOKAHEAD <==> Late(cx.g, st.kernels[i])))
  }

  /** A new state is a goto of the state whose turn it is. */
  ghost predicate MadeBy(g: Grammar, ks: seq<seq<KItem>>, i: int, t: int)
    requires WellFormed(g) && KernelsOk(g, ks) && 0 <= i < |ks| && 0 <= t < |ks|
  {
    IsGoto(g, ks, i, Acc(g, ks[t]), t)
  }

  /** State i's turn, whole: every goto of i gets what the items of i carry, and nothing else changes; states are added
      as its gotos only; states that are new or have grown are marked. */
  ghost predicate Worked(cx: Context, st: States, st': States, i: int)
    requires ContextOk(cx) && StatesOk(cx.g, st) && StatesOk(cx.g, st')
  {
    && 0 <= i < |st.kernels| <= |st'.kernels| && CoreExt(st.kernels, st'.kernels)
    && (forall t, it :: 0 <= t < |st'.kernels| ==> Receives(cx, st, st', i, t, it))
    && (forall t :: |st.kernels| <= t < |st'.kernels| ==> MadeBy(cx.g, st'.kernels, i, t))
    && (forall s :: 0 <= s < |st'.kernels| && s != i ==> MarkedAsGrown(st, st', s))
    && MarkedAfter(cx, st, st', i)
  }

  // ---------------------------------------------------------------- the loop

  /** A goto on x enters a state whose accessing symbol is x. */
  lemma GotoAcc(g: Grammar, ks: seq<seq<KItem>>, s: int, x: int, t: int)
    requires WellFormed(g) && KernelsOk(g, ks) && 0 <= s < |ks| && IsGoto(g, ks, s, x, t)
    ensures Acc(g, ks[t]) == x
  {
    assert StateOk(g, ks, t);
    var k := ks[t];
    assert k[0].item in KernelSet(k);
    var it :| it in CloOf(g, ks[s]) && ValidItem(g, it) && First(g, it) == x && Item(it.p, it.off + 1) == k[0].item;
  }

  /** State s is one of the gotos made so far. */
  ghost predicate Touched(g: Grammar, ks: seq<seq<KItem>>, goes: map<int, int>, s: int)
    requires WellFormed(g) && 0 <= s < |ks|
  {
    Acc(g, ks[s]) in goes && goes[Acc(g, ks[s])] == s
  }

  predicate AllItemsValid(g: Grammar, ws: seq<Wset>)
    requires WellFormed(g)
  {
    forall i :: 0 <= i < |ws| ==> ValidItem(g, ws[i].item)
  }

  ghost function Sent(g: Grammar, ws: seq<Wset>, ks: seq<seq<KItem>>, goes: map<int, int>, t: int, it: Item): set<int>
    requires WellFormed(g) && AllItemsValid(g, ws) && 0 <= t < |ks|
  {
    if Touched(g, ks, goes, t) then LookAt(Gone(g, ws, Acc(g, ks[t]), |ws|), it) else {}
  }

  ghost predicate LookSent(g: Grammar, st: States, st': States, ws: seq<Wset>, goes: map<int, int>, t: int, it: Item)
    requires WellFormed(g) && AllItemsValid(g, ws) && 0 <= t < |st'.kernels|
  {
    LookAt(st'.kernels[t], it) == LookIn(st.kernels, t, it) + Sent(g, ws, st'.kernels, goes, t, it)
  }

  ghost predicate TouchedOrSame(g: Grammar, st: States, st': States, goes: map<int, int>, s: int)
    requires WellFormed(g) && 0 <= s < |st'.kernels|
  {
    Touched(g, st'.kernels, goes, s) || (s < |st.kernels| && st'.kernels[s] == st.kernels[s])
  }

  /** The lookaheads while the gotos `goes` have been made: only those states have changed, by what was sent. */
  ghost predicate Spread(g: Grammar, st: States, st': States, ws: seq<Wset>, goes: map<int, int>)
    requires WellFormed(g) && AllItemsValid(g, ws)
  {
    && (forall t, it :: 0 <= t < |st'.kernels| ==> LookSent(g, st, st', ws, goes, t, it))
    && (forall s :: 0 <= s < |st'.kernels| ==> TouchedOrSame(g, st, st', goes, s))
  }

  lemma SpreadStart(g: Grammar, st: States, st': States, ws: seq<Wset>)
    requires WellFormed(g) && AllItemsValid(g, ws) && st'.kernels == st.kernels
    ensures Spread(g, st, st', ws, map[])
  {
  }

  /** The next goto: on c, to t. */
  lemma SpreadGoto(g: Grammar, st: States, st1: States, st2: States, ws: seq<Wset>, goes: map<int, int>, c: int, t: nat)
    requires WellFormed(g) && AllItemsValid(g, ws) && Spread(g, st, st1, ws, goes) && |st.kernels| <= |st1.kernels|
    requires Joined(st1, st2, Gone(g, ws, c, |ws|), t) && CoreExt(st1.kernels, st2.kernels)
    requires t < |st2.kernels| && Acc(g, st2.kernels[t]) == c && c !in goes
    ensures Spread(g, st, st2, ws, goes[c := t])
  {
    var goes' := goes[c := t];
    forall s | 0 <= s < |st2.kernels| && s != t
      ensures s < |st1.kernels| && st2.kernels[s] == st1.kernels[s]
      ensures Touched(g, st2.kernels, goes', s) <==> Touched(g, st1.kernels, goes, s)
    {
      assert SameState(st1, st2, s);
    }
    forall s, it | 0 <= s < |st2.kernels| ensures LookSent(g, st, st2, ws, goes', s, it) {
      if s != t {
        assert LookSent(g, st, st1, ws, goes, s, it);
      } else if t < |st1.kernels| {
        SameCoreAcc(g, st1.kernels[t], st2.kernels[t]);
        assert LookSent(g, st, st1, ws, goes, t, it);
      }
    }
    forall s | 0 <= s < |st2.kernels| ensures TouchedOrSame(g, st, st2, goes', s) {
      if s != t { assert TouchedOrSame(g, st, st1, goes, s); }
    }
  }

  // ---------------------------------------------------------------- marks in the loop

  ghost predicate LatePair(g: Grammar, ws: seq<Wset>, nk: nat, x: int, m: int, j: int)
    requires WellFormed(g) && AllItemsValid(g, ws)
  {
    0 <= m < j < |ws| && nk <= j && First(g, ws[m].item) == x && First(g, ws[j].item) <= 1
  }

  /** Among the first p entries, one with nothing to move over comes after one that waits on x. */
  ghost predicate LateSince(g: Grammar, ws: seq<Wset>, nk: nat, x: int, p: nat)
    requires WellFormed(g) && AllItemsValid(g, ws)
  {
    exists m, j :: j < p && LatePair(g, ws, nk, x, m, j)
  }

  ghost predicate LateBefore(g: Grammar, ws: seq<Wset>, nk: nat, p: nat)
    requires WellFormed(g) && AllItemsValid(g, ws)
  {
    exists j :: nk <= j < p && j < |ws| && First(g, ws[j].item) <= 1
  }

  /** The mark of state i when p of its entries have been seen. */
  ghost predicate MarkAt(g: Grammar, st: States, st': States, i: int, ws: seq<Wset>, nk: nat, p: nat)
    requires WellFormed(g) && AllItemsValid(g, ws)
  {
    && 0 <= i < |st.kernels| <= |st'.kernels| && i < |st'.tystate|
    && (st'.tystate[i] == MUSTDO <==>
          st'.kernels[i] != st.kernels[i] && !LateSince(g, ws, nk, Acc(g, st.kernels[i]), p))
    && (st'.tystate[i] != MUSTDO ==> (st'.tystate[i] == MUSTLOOKAHEAD <==> LateBefore(g, ws, nk, p)))
  }

  /** An entry that has something to move over, or belongs to the kernel, is not late. */
  lemma NotLate(g: Grammar, ws: seq<Wset>, nk: nat, x: int, p: nat)
    requires WellFormed(g) && AllItemsValid(g, ws) && p < |ws| && (First(g, ws[p].item) > 1 || p < nk)
    ensures LateSince(g, ws, nk, x, p + 1) <==> LateSince(g, ws, nk, x, p)
    ensures LateBefore(g, ws, nk, p + 1) <==> LateBefore(g, ws, nk, p)
  {
    if LateSince(g, ws, nk, x, p + 1) {
      var m, j :| j < p + 1 && LatePair(g, ws, nk, x, m, j);
      assert j < p;
    }
    if LateSince(g, ws, nk, x, p) {
      var m, j :| j < p && LatePair(g, ws, nk, x, m, j);
      assert j < p + 1;
    }
    if LateBefore(g, ws, nk, p) {
      var j :| nk <= j < p && j < |ws| && First(g, ws[j].item) <= 1;
      assert j < p + 1;
    }
  }

  lemma MarkPassed(g: Grammar, st: States, st': States, i: int, ws: seq<Wset>, nk: nat, p: nat)
    requires WellFormed(g) && AllItemsValid(g, ws) && MarkAt(g, st, st', i, ws, nk, p)
    requires p < |ws| && (First(g, ws[p].item) > 1 || p < nk)
    ensures MarkAt(g, st, st', i, ws, nk, p + 1)
  {
    NotLate(g, ws, nk, Acc(g, st.kernels[i]), p);
  }

  /** A late entry leaves the mark MUSTLOOKAHEAD, whatever it was. */
  lemma MarkErased(g: Grammar, st: States, st1: States, st2: States, i: int, ws: seq<Wset>, nk: nat, p: nat)
    requires WellFormed(g) && AllItemsValid(g, ws) && MarkAt(g, st, st1, i, ws, nk, p)
    requires nk <= p < |ws| && First(g, ws[p].item) <= 1
    requires st2.kernels == st1.kernels && i < |st2.tystate| && st2.tystate[i] == MUSTLOOKAHEAD
    requires st1.kernels[i] != st.kernels[i] ==>
               exists m :: 0 <= m < p && First(g, ws[m].item) == Acc(g, st.kernels[i])
    ensures MarkAt(g, st, st2, i, ws, nk, p + 1)
  {
    if st1.kernels[i] != st.kernels[i] {
      var m :| 0 <= m < p && First(g, ws[m].item) == Acc(g, st.kernels[i]);
      assert LatePair(g, ws, nk, Acc(g, st.kernels[i]), m, p);
    }
    assert LateBefore(g, ws, nk, p + 1);
  }

  /** A goto at p leaves the mark unless it is the state's own, and then marks growth. */
  lemma MarkGoto(g: Grammar, st: States, st1: States, st2: States, i: int, ws: seq<Wset>, nk: nat, p: nat, t: nat,
                 pending: seq<KItem>)
    requires WellFormed(g) && AllItemsValid(g, ws) && MarkAt(g, st, st1, i, ws, nk, p)
    requires p < |ws| && First(g, ws[p].item) > 1 && Joined(st1, st2, pending, t)
    requires t == i ==> st1.kernels[i] == st.kernels[i] && Acc(g, st.kernels[i]) == First(g, ws[p].item)
    requires forall m :: 0 <= m < p ==> First(g, ws[m].item) != First(g, ws[p].item)
    ensures MarkAt(g, st, st2, i, ws, nk, p + 1)
  {
    NotLate(g, ws, nk, Acc(g, st.kernels[i]), p);
    if t == i {
      assert forall m, j :: j < p ==> !LatePair(g, ws, nk, Acc(g, st.kernels[i]), m, j);
      assert MarkedAsGrown(st1, st2, i);
    } else {
      assert SameState(st1, st2, i);
    }
  }

  /** States other than i, in the loop. */
  ghost predicate OthersMarked(st: States, st': States, i: int) {
    forall s :: 0 <= s < |st'.kernels| && s != i ==> MarkedAsGrown(st, st', s)
  }

  lemma OthersGoto(st: States, st1: States, st2: States, i: int, t: nat, pending: seq<KItem>)
    requires OthersMarked(st, st1, i) && Joined(st1, st2, pending, t) && |st.kernels| <= |st1.kernels|
    requires |st.tystate| == |st.kernels| && |st1.tystate| == |st1.kernels|
    requires t < |st1.kernels| ==> t < |st.kernels| && st1.kernels[t] == st.kernels[t]
    ensures OthersMarked(st, st2, i)
  {
    forall s | 0 <= s < |st2.kernels| && s != i ensures MarkedAsGrown(st, st2, s) {
      if s != t {
        assert SameState(st1, st2, s) && MarkedAsGrown(st, st1, s);
      } else {
        assert MarkedAsGrown(st1, st2, s);
        if t < |st1.kernels| { assert MarkedAsGrown(st, st1, s); }
      }
    }
  }

  // ---------------------------------------------------------------- lookaheads and marks together

  /** Where lookaheads and marks stand when p entries of state i have been seen and the gotos `goes` made. */
  ghost predicate Spreads(g: Grammar, st: States, st': States, i: int, ws: seq<Wset>, p: nat, goes: map<int, int>)
    requires WellFormed(g)
  {
    && AllItemsValid(g, ws) && 0 <= i < |st.kernels| && |st.tystate| == |st.kernels|
    && |st'.tystate| == |st'.kernels| && CoreExt(st.kernels, st'.kernels)
    && Spread(g, st, st', ws, goes) && OthersMarked(st, st', i) && MarkAt(g, st, st', i, ws, |st.kernels[i]|, p)
  }

  lemma SpreadsStart(g: Grammar, st: States, st': States, i: int, ws: seq<Wset>)
    requires WellFormed(g) && AllItemsValid(g, ws) && 0 <= i < |st.kernels| && |st.tystate| == |st.kernels|
    requires st' == st.(tystate := st.tystate[i := DONE])
    ensures Spreads(g, st, st', i, ws, 0, map[])
  {
    SpreadStart(g, st, st', ws);
    forall s | 0 <= s < |st.kernels| ensures SameCore(st.kernels[s], st'.kernels[s]) {}
  }

  lemma SpreadsPassed(g: Grammar, st: States, st': States, i: int, ws: seq<Wset>, p: nat, goes: map<int, int>)
    requires WellFormed(g) && Spreads(g, st, st', i, ws, p, goes)
    requires p < |ws| && (First(g, ws[p].item) > 1 || p < |st.kernels[i]|)
    ensures Spreads(g, st, st', i, ws, p + 1, goes)
  {
    MarkPassed(g, st, st', i, ws, |st.kernels[i]|, p);
  }

  lemma UntouchedSame(g: Grammar, st: States, st': States, ws: seq<Wset>, goes: map<int, int>, s: int)
    requires WellFormed(g) && AllItemsValid(g, ws) && Spread(g, st, st', ws, goes) && 0 <= s < |st'.kernels|
    requires Acc(g, st'.kernels[s]) !in goes
    ensures s < |st.kernels| && st'.kernels[s] == st.kernels[s]
  {
    assert TouchedOrSame(g, st, st', goes, s);
  }

  lemma SpreadsLate(g: Grammar, st: States, st': States, i: int, ws: seq<Wset>, p: nat, goes: map<int, int>)
    requires WellFormed(g) && Spreads(g, st, st', i, ws, p, goes)
    requires |st.kernels[i]| <= p < |ws| && First(g, ws[p].item) <= 1
    requires forall x :: x in goes ==> exists m :: 0 <= m < p && First(g, ws[m].item) == x
    ensures Spreads(g, st, st'.(tystate := st'.tystate[i := MUSTLOOKAHEAD]), i, ws, p + 1, goes)
  {
    var st2 := st'.(tystate := st'.tystate[i := MUSTLOOKAHEAD]);
    assert SameCore(st.kernels[i], st'.kernels[i]);
    SameCoreAcc(g, st.kernels[i], st'.kernels[i]);
    if st'.kernels[i] != st.kernels[i] {
      assert TouchedOrSame(g, st, st', goes, i);
    }
    MarkErased(g, st, st', st2, i, ws, |st.kernels[i]|, p);
    forall s | 0 <= s < |st2.kernels| && s != i ensures MarkedAsGrown(st, st2, s) {
      assert MarkedAsGrown(st, st', s);
    }
    assert Spread(g, st, st2, ws, goes) by {
      forall t, it | 0 <= t < |st2.kernels| ensures LookSent(g, st, st2, ws, goes, t, it) {
        assert LookSent(g, st, st', ws, goes, t, it);
      }
      forall s | 0 <= s < |st2.kernels| ensures TouchedOrSame(g, st, st2, goes, s) {
        assert TouchedOrSame(g, st, st', goes, s);
      }
    }
  }

  lemma SpreadsGoto(g: Grammar, st: States, st1: States, st2: States, i: int, ws: seq<Wset>, p: nat,
                    goes: map<int, int>, t: nat)
    requires WellFormed(g) && Spreads(g, st, st1, i, ws, p, goes) && p < |ws| && First(g, ws[p].item) > 1
    requires Joined(st1, st2, Gone(g, ws, First(g, ws[p].item), |ws|), t) && CoreExt(st1.kernels, st2.kernels)
    requires |st2.tystate| == |st2.kernels| && t < |st2.kernels| && Acc(g, st2.kernels[t]) == First(g, ws[p].item)
    requires First(g, ws[p].item) !in goes
    requires forall m :: 0 <= m < p ==> First(g, ws[m].item) != First(g, ws[p].item)
    ensures Spreads(g, st, st2, i, ws, p + 1, goes[First(g, ws[p].item) := t])
  {
    var c := First(g, ws[p].item);
    CoreExtTrans(st.kernels, st1.kernels, st2.kernels);
    SpreadGoto(g, st, st1, st2, ws, goes, c, t);
    if t < |st1.kernels| {
      assert SameCore(st1.kernels[t], st2.kernels[t]);
      SameCoreAcc(g, st1.kernels[t], st2.kernels[t]);
      UntouchedSame(g, st, st1, ws, goes, t);
    }
    MarkGoto(g, st, st1, st2, i, ws, |st.kernels[i]|, p, t, Gone(g, ws, c, |ws|));
    OthersGoto(st, st1, st2, i, t, Gone(g, ws, c, |ws|));
  }

  // ---------------------------------------------------------------- the end of the turn

  lemma GoneOnce(g: Grammar, ws: seq<Wset>, x: int, i: nat, i': nat)
    requires WellFormed(g) && WsOk(g, ws) && i < |Gone(g, ws, x, |ws|)| && i' < |Gone(g, ws, x, |ws|)|
    requires Gone(g, ws, x, |ws|)[i].item == Gone(g, ws, x, |ws|)[i'].item
    ensures Gone(g, ws, x, |ws|)[i] == Gone(g, ws, x, |ws|)[i']
  {
    var j := GoneFrom(g, ws, x, |ws|, i);
    var j' := GoneFrom(g, ws, x, |ws|, i');
    assert ws[j].item == ws[j'].item;
  }

  lemma GoneLookAt(g: Grammar, ws: seq<Wset>, x: int, it: Item) returns (j: int)
    requires WellFormed(g) && WsOk(g, ws) && it in KernelSet(Gone(g, ws, x, |ws|))
    ensures 0 <= j < |ws| && ws[j].item == Before(it) && LookAt(Gone(g, ws, x, |ws|), it) == ws[j].ws
  {
    var gone := Gone(g, ws, x, |ws|);
    var i :| 0 <= i < |gone| && gone[i].item == it;
    j := GoneFrom(g, ws, x, |ws|, i);
    forall a | a in LookAt(gone, it) ensures a in ws[j].ws {
      var i' :| 0 <= i' < |gone| && a in gone[i'].look && gone[i'].item == it;
      GoneOnce(g, ws, x, i, i');
    }
    forall a | a in ws[j].ws ensures a in LookAt(gone, it) {
      assert a in gone[i].look && gone[i].item == it;
    }
  }

  /** What is sent along a goto is what the items carried. */
  lemma GoneLook(cx: Context, k: seq<KItem>, ws: seq<Wset>, x: int, it: Item)
    requires ContextOk(cx) && KernelOk(cx.g, k) && OneEach(k) && Closed(cx, k, ws, false) && WsOk(cx.g, ws)
    ensures LookAt(Gone(cx.g, ws, x, |ws|), it) ==
            if it in KernelSet(Gone(cx.g, ws, x, |ws|)) then Carry(cx, k, Before(it)) else {}
  {
    if it in KernelSet(Gone(cx.g, ws, x, |ws|)) {
      var j := GoneLookAt(cx.g, ws, x, it);
      ClosedCarries(cx, k, ws, j);
    }
  }

  /** All symbols the entries wait on have their gotos. */
  ghost predicate AllGone(g: Grammar, ks: seq<seq<KItem>>, i: int, ws: seq<Wset>, goes: map<int, int>)
    requires WellFormed(g) && KernelsOk(g, ks) && 0 <= i < |ks| && AllItemsValid(g, ws)
  {
    && (forall j :: 0 <= j < |ws| && First(g, ws[j].item) > 1 ==> First(g, ws[j].item) in goes)
    && (forall x :: x in goes ==> IsGoto(g, ks, i, x, goes[x]))
  }

  lemma GotoTouched(g: Grammar, st: States, i: int, ws: seq<Wset>, goes: map<int, int>, t: int)
    requires WellFormed(g) && StatesOk(g, st) && 0 <= i < |st.kernels| && AllItemsValid(g, ws)
    requires ItemSet(ws) == CloOf(g, st.kernels[i]) && AllGone(g, st.kernels, i, ws, goes) && 0 <= t < |st.kernels|
    ensures IsGoto(g, st.kernels, i, Acc(g, st.kernels[t]), t) <==> Touched(g, st.kernels, goes, t)
  {
    var ks := st.kernels;
    var x := Acc(g, ks[t]);
    if IsGoto(g, ks, i, x, t) {
      assert StateOk(g, ks, t);
      assert ks[t][0].item in KernelSet(ks[t]);
      var it :| it in CloOf(g, ks[i]) && ValidItem(g, it) && First(g, it) == x;
      var j :| 0 <= j < |ws| && ws[j].item == it;
      GotoUnique(g, st, i, x, t, goes[x]);
    }
  }

  lemma ReceivedIsSent(cx: Context, st: States, st': States, i: int, ws: seq<Wset>, goes: map<int, int>, t: int,
                       it: Item)
    requires ContextOk(cx) && StatesOk(cx.g, st) && StatesOk(cx.g, st') && 0 <= i < |st.kernels|
    requires CoreExt(st.kernels, st'.kernels) && 0 <= t < |st'.kernels|
    requires OneEach(st.kernels[i]) && Closed(cx, st.kernels[i], ws, false) && WsOk(cx.g, ws)
    requires ItemSet(ws) == CloOf(cx.g, st'.kernels[i]) && AllGone(cx.g, st'.kernels, i, ws, goes)
    ensures Sent(cx.g, ws, st'.kernels, goes, t, it) == Received(cx, st.kernels[i], st'.kernels, i, t, it)
  {
    GotoTouched(cx.g, st', i, ws, goes, t);
    if Touched(cx.g, st'.kernels, goes, t) {
      var x := Acc(cx.g, st'.kernels[t]);
      GoneIsGotoSet(cx.g, ws, x);
      GoneLook(cx, st.kernels[i], ws, x, it);
    }
  }

  lemma LateIs(cx: Context, k: seq<KItem>, ws: seq<Wset>)
    requires ContextOk(cx) && KernelOk(cx.g, k) && Shape(cx, k, ws) && ItemSet(ws) == Clo(cx.g, KernelSet(k))
    ensures LateBefore(cx.g, ws, |k|, |ws|) <==> Late(cx.g, k)
  {
    var g := cx.g;
    if LateBefore(g, ws, |k|, |ws|) {
      var j :| |k| <= j < |ws| && First(g, ws[j].item) <= 1;
      assert Entered(g, KernelSet(k), ws[j].item.p) && LateAt(g, ws[j].item.p);
    }
    assert forall i :: 0 <= i < |k| ==> KernelItem(ws[i].item);
    if Late(g, k) {
      var q :| Entered(g, KernelSet(k), q) && LateAt(g, q);
      assert Item(q, 0) in ItemSet(ws);
      var j :| 0 <= j < |ws| && ws[j].item == Item(q, 0);
      assert First(g, ws[j].item) == g.prods[q][1];
    }
  }

  lemma LossIs(cx: Context, k: seq<KItem>, ws: seq<Wset>)
    requires ContextOk(cx) && KernelOk(cx.g, k) && AllItemsValid(cx.g, ws) && ItemList(ws) == Listing(cx, k)
    ensures LateSince(cx.g, ws, |k|, Acc(cx.g, k), |ws|) <==> exists m, j :: 0 <= m < j && LateAfter(cx, k, m, j)
  {
    var items := Listing(cx, k);
    assert |items| == |ws| && forall j :: 0 <= j < |ws| ==> items[j] == ws[j].item by { assert |ItemList(ws)| == |ws|; }
    if LateSince(cx.g, ws, |k|, Acc(cx.g, k), |ws|) {
      var m, j :| j < |ws| && LatePair(cx.g, ws, |k|, Acc(cx.g, k), m, j);
      assert LateAfter(cx, k, m, j);
    }
    if m, j :| 0 <= m < j && LateAfter(cx, k, m, j) {
      assert LatePair(cx.g, ws, |k|, Acc(cx.g, k), m, j);
    }
  }

  /** A state that changes in its own turn is its own goto. */
  lemma OwnGoto(g: Grammar, st: States, st': States, i: int, goes: map<int, int>)
    requires WellFormed(g) && StatesOk(g, st) && StatesOk(g, st') && 0 <= i < |st.kernels|
    requires CoreExt(st.kernels, st'.kernels) && TouchedOrSame(g, st, st', goes, i) && st'.kernels[i] != st.kernels[i]
    requires forall x :: x in goes ==> IsGoto(g, st'.kernels, i, x, goes[x])
    ensures GotoSet(g, CloOf(g, st.kernels[i]), Acc(g, st.kernels[i])) == KernelSet(st.kernels[i])
  {
    SameCoreSameSet(st.kernels[i], st'.kernels[i]);
    SameCoreAcc(g, st.kernels[i], st'.kernels[i]);
  }

  /** The loop over the closed items does all that a turn is to do. */
  lemma TurnWorked(cx: Context, st: States, st': States, i: int, ws: seq<Wset>, goes: map<int, int>)
    requires ContextOk(cx) && StatesOk(cx.g, st) && StatesOk(cx.g, st') && 0 <= i < |st.kernels|
    requires CoreExt(st.kernels, st'.kernels)
    requires OneEach(st.kernels[i]) && Closed(cx, st.kernels[i], ws, false) && WsOk(cx.g, ws)
    requires ItemSet(ws) == CloOf(cx.g, st'.kernels[i]) && AllGone(cx.g, st'.kernels, i, ws, goes)
    requires Spreads(cx.g, st, st', i, ws, |ws|, goes)
    ensures Worked(cx, st, st', i)
  {
    forall t, it | 0 <= t < |st'.kernels| ensures Receives(cx, st, st', i, t, it) {
      assert LookSent(cx.g, st, st', ws, goes, t, it);
      ReceivedIsSent(cx, st, st', i, ws, goes, t, it);
    }
    forall t | |st.kernels| <= t < |st'.kernels| ensures MadeBy(cx.g, st'.kernels, i, t) {
      assert TouchedOrSame(cx.g, st, st', goes, t);
    }
    LateIs(cx, st.kernels[i], ws);
    LossIs(cx, st.kernels[i], ws);
    if st'.kernels[i] != st.kernels[i] {
      assert TouchedOrSame(cx.g, st, st', goes, i);
      OwnGoto(cx.g, st, st', i, goes);
    }
  }
}
