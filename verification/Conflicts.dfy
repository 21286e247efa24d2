/** Automata without conflicts, and what their action rows say. */
module Conflicts {
  import opened Grammars
  import opened Levels
  import opened Items
  import opened Closure
  import opened Automaton
  import opened Carrying
  import opened Lalr
  import opened Generation
  import opened Actions

  /** In state s the item is finished and carries token t. */
  ghost predicate ReducesOn(cx: Context, ks: seq<seq<KItem>>, s: int, it: Item, t: int)
    requires ContextOk(cx) && KernelsOk(cx.g, ks) && 0 <= s < |ks|
  {
    it in CloOf(cx.g, ks[s]) && ValidItem(cx.g, it) && First(cx.g, it) <= 0 && t in Carry(cx, ks[s], it)
  }

  /** State s moves over token t, or has reached the end of the input on it. */
  ghost predicate ShiftsOn(g: Grammar, ks: seq<seq<KItem>>, s: int, t: int)
    requires WellFormed(g) && KernelsOk(g, ks) && 0 <= s < |ks|
  {
    (t > 1 && Wants(g, ks, s, t)) || (s == 1 && t == END_TOKEN)
  }

  /** State s has at most one thing to do on token t. */
  ghost predicate Undisputed(cx: Context, ks: seq<seq<KItem>>, s: int, t: int)
    requires ContextOk(cx) && KernelsOk(cx.g, ks) && 0 <= s < |ks|
  {
    && (forall it, it' :: ReducesOn(cx, ks, s, it, t) && ReducesOn(cx, ks, s, it', t) ==> it == it')
    && (forall it :: ReducesOn(cx, ks, s, it, t) ==> !ShiftsOn(cx.g, ks, s, t))
  }

  ghost predicate ConflictFree(cx: Context, ks: seq<seq<KItem>>)
    requires ContextOk(cx) && KernelsOk(cx.g, ks)
  {
    forall s, t :: 0 <= s < |ks| && 1 <= t <= cx.g.ntokens ==> Undisputed(cx, ks, s, t)
  }

  // ---------------------------------------------------------------- reductions in the closed list

  ghost predicate FinishedOn(g: Grammar, ws: seq<Wset>, k: int, u: int)
    requires WellFormed(g) && forall i :: 0 <= i < |ws| ==> ValidItem(g, ws[i].item)
  {
    0 <= u < |ws| && First(g, ws[u].item) <= 0 && k in ws[u].ws
  }

  lemma {:induction false} NoReds(g: Grammar, ws: seq<Wset>, k: int, n: nat)
    requires WellFormed(g) && n <= |ws| && (forall i :: 0 <= i < |ws| ==> ValidItem(g, ws[i].item))
    requires forall u :: 0 <= u < n ==> !FinishedOn(g, ws, k, u)
    ensures RedsOn(g, ws, k, n) == []
  {
    if n > 0 {
      assert !FinishedOn(g, ws, k, n - 1);
      NoReds(g, ws, k, n - 1);
    }
  }

  lemma {:induction false} OneRed(g: Grammar, ws: seq<Wset>, k: int, n: nat, j: nat, r: int)
    requires WellFormed(g) && n <= |ws| && (forall i :: 0 <= i < |ws| ==> ValidItem(g, ws[i].item))
    requires j < n && FinishedOn(g, ws, k, j) && forall u :: 0 <= u < n && u != j ==> !FinishedOn(g, ws, k, u)
    requires r == -First(g, ws[j].item)
    ensures RedsOn(g, ws, k, n) == [r]
  {
    if j < n - 1 {
      assert !FinishedOn(g, ws, k, n - 1);
      OneRed(g, ws, k, n - 1, j, r);
    } else {
      NoReds(g, ws, k, n - 1);
    }
  }

  /** The entries finished on t are exactly the items that are reduced on t, each once. */
  ghost predicate Mirrors(cx: Context, ks: seq<seq<KItem>>, s: int, t: int, l: seq<Wset>)
    requires ContextOk(cx) && KernelsOk(cx.g, ks) && 0 <= s < |ks|
  {
    && (forall i :: 0 <= i < |l| ==> ValidItem(cx.g, l[i].item))
    && (forall i, j :: 0 <= i < j < |l| ==> l[i].item != l[j].item)
    && (forall u :: FinishedOn(cx.g, l, t, u) ==> ReducesOn(cx, ks, s, l[u].item, t))
    && (forall it :: ReducesOn(cx, ks, s, it, t) ==> exists u :: FinishedOn(cx.g, l, t, u) && l[u].item == it)
  }

  /** The closed list does so. */
  lemma ListMirrors(cx: Context, ks: seq<seq<KItem>>, s: int, t: int)
    requires ContextOk(cx) && KernelsOk(cx.g, ks) && 0 <= s < |ks|
    ensures Mirrors(cx, ks, s, t, ClosedList(cx, ks[s]))
  {
    KernelsOneEach(cx.g, ks, s);
    ListingExact(cx, ks[s]);
    var items, l := Listing(cx, ks[s]), ClosedList(cx, ks[s]);
    assert |l| == |items| && forall i :: 0 <= i < |l| ==> l[i].item == items[i];
    forall u | FinishedOn(cx.g, l, t, u) ensures ReducesOn(cx, ks, s, l[u].item, t) { assert items[u] in items; }
    forall it | ReducesOn(cx, ks, s, it, t) ensures exists u :: FinishedOn(cx.g, l, t, u) && l[u].item == it {
      var u :| 0 <= u < |items| && items[u] == it;
      assert FinishedOn(cx.g, l, t, u) && l[u].item == it;
    }
  }

  /** Where the state moves over the token, nothing is reduced on it. */
  lemma ShiftAlone(cx: Context, ks: seq<seq<KItem>>, s: int, t: int, l: seq<Wset>)
    requires ContextOk(cx) && KernelsOk(cx.g, ks) && 0 <= s < |ks| && Undisputed(cx, ks, s, t)
    requires Mirrors(cx, ks, s, t, l) && ShiftsOn(cx.g, ks, s, t)
    ensures RedsOn(cx.g, l, t, |l|) == []
  {
    NoReds(cx.g, l, t, |l|);
  }

  /** Where an item is reduced, it is the only one. */
  lemma RedAlone(cx: Context, ks: seq<seq<KItem>>, s: int, t: int, l: seq<Wset>, it: Item)
    requires ContextOk(cx) && KernelsOk(cx.g, ks) && 0 <= s < |ks| && Undisputed(cx, ks, s, t)
    requires Mirrors(cx, ks, s, t, l) && ReducesOn(cx, ks, s, it, t)
    ensures RedsOn(cx.g, l, t, |l|) == [-First(cx.g, it)]
  {
    var j :| FinishedOn(cx.g, l, t, j) && l[j].item == it;
    forall u | 0 <= u < |l| && u != j ensures !FinishedOn(cx.g, l, t, u) {
      assert l[u].item != l[j].item;
    }
    OneRed(cx.g, l, t, |l|, j, -First(cx.g, it));
  }

  // ---------------------------------------------------------------- what the row says

  /** A token moved over is shifted. */
  lemma RowShifts(cx: Context, st: States, s: int, levprd: seq<Word>, toklev: seq<Word>, row: seq<int>, t: int)
    requires ContextOk(cx) && StatesOk(cx.g, st) && 0 <= s < |st.kernels|
    requires ExactRow(cx, st, s, levprd, toklev, row) && Undisputed(cx, st.kernels, s, t)
    requires 1 < t <= cx.g.ntokens && Wants(cx.g, st.kernels, s, t)
    ensures t < |row| && IsGoto(cx.g, st.kernels, s, t, row[t])
  {
    var ks, l := st.kernels, ClosedList(cx, st.kernels[s]);
    ListMirrors(cx, ks, s, t);
    ShiftAlone(cx, ks, s, t, l);
    var base :| BaseRow(cx.g, ks, s, base) && WeighedRow(cx.g, l, |l|, base, levprd, toklev, row);
    assert WeighedAt(cx.g, l, |l|, t, base[t], levprd, toklev[t], row[t]);
    assert ShiftAt(cx.g, ks, s, t, base[t]);
  }

  /** State 1 accepts on the end of the input. */
  lemma RowAccepts(cx: Context, st: States, levprd: seq<Word>, toklev: seq<Word>, row: seq<int>)
    requires ContextOk(cx) && StatesOk(cx.g, st) && 1 < |st.kernels|
    requires ExactRow(cx, st, 1, levprd, toklev, row) && Undisputed(cx, st.kernels, 1, END_TOKEN)
    ensures END_TOKEN < |row| && row[END_TOKEN] == ACCEPTCODE
  {
    var ks, l := st.kernels, ClosedList(cx, st.kernels[1]);
    ListMirrors(cx, ks, 1, END_TOKEN);
    ShiftAlone(cx, ks, 1, END_TOKEN, l);
    var base :| BaseRow(cx.g, ks, 1, base) && WeighedRow(cx.g, l, |l|, base, levprd, toklev, row);
    assert WeighedAt(cx.g, l, |l|, END_TOKEN, base[END_TOKEN], levprd, toklev[END_TOKEN], row[END_TOKEN]);
  }

  lemma OneResolved(r: int, levprd: seq<Word>, lt: Word)
    requires 0 <= r < |levprd|
    ensures ResolveAll(0, [r], levprd, lt) == -r
  {
    assert [r][..0] == [];
  }

  /** A finished item is reduced on what it carries. */
  lemma RowReduces(cx: Context, st: States, s: int, levprd: seq<Word>, toklev: seq<Word>, row: seq<int>, t: int,
                   it: Item)
    requires ContextOk(cx) && StatesOk(cx.g, st) && 0 <= s < |st.kernels|
    requires ExactRow(cx, st, s, levprd, toklev, row) && Undisputed(cx, st.kernels, s, t)
    requires 1 <= t <= cx.g.ntokens && ReducesOn(cx, st.kernels, s, it, t)
    ensures t < |row| && row[t] == -it.p && 1 <= it.p < |cx.g.prods|
  {
    var ks, l := st.kernels, ClosedList(cx, st.kernels[s]);
    ListMirrors(cx, ks, s, t);
    RedAlone(cx, ks, s, t, l, it);
    FinishedItem(cx.g, ks, s, it);
    var base :| BaseRow(cx.g, ks, s, base) && WeighedRow(cx.g, l, |l|, base, levprd, toklev, row);
    assert WeighedAt(cx.g, l, |l|, t, base[t], levprd, toklev[t], row[t]);
    assert !ShiftsOn(cx.g, ks, s, t);
    assert base[t] == 0;
    OneResolved(it.p, levprd, toklev[t]);
  }

  /** A token without a level keeps its shift against every reduction. */
  lemma {:induction false} NoLevelStands(cur: int, rs: seq<int>, levprd: seq<Word>, lt: Word)
    requires cur > 0 && PLevel(lt) == 0 && forall k :: 0 <= k < |rs| ==> 0 <= rs[k] < |levprd|
    ensures ResolveAll(cur, rs, levprd, lt) == cur
    decreases |rs|
  {
    if rs != [] { NoLevelStands(cur, rs[..|rs| - 1], levprd, lt); }
  }

  /** Where `$end` has no level, state 1 accepts on it whatever the conflicts. */
  lemma RowAcceptsAnyway(cx: Context, st: States, levprd: seq<Word>, toklev: seq<Word>, row: seq<int>)
    requires ContextOk(cx) && StatesOk(cx.g, st) && 1 < |st.kernels| && ExactRow(cx, st, 1, levprd, toklev, row)
    requires END_TOKEN < |toklev| && toklev[END_TOKEN] == 0
    ensures END_TOKEN < |row| && row[END_TOKEN] == ACCEPTCODE
  {
    var ks, l := st.kernels, ClosedList(cx, st.kernels[1]);
    var base :| BaseRow(cx.g, ks, 1, base) && WeighedRow(cx.g, l, |l|, base, levprd, toklev, row);
    assert WeighedAt(cx.g, l, |l|, END_TOKEN, base[END_TOKEN], levprd, toklev[END_TOKEN], row[END_TOKEN]);
    RedsOnInRange(cx.g, l, END_TOKEN, |l|);
    NoLevelStands(ACCEPTCODE, RedsOn(cx.g, l, END_TOKEN, |l|), levprd, toklev[END_TOKEN]);
  }
}
