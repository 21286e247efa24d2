/** `output`: the action row of a state, with shift/reduce and reduce/reduce conflicts decided. */
module Actions {
  import opened Grammars
  import opened Levels
  import opened Items
  import opened Closure
  import opened Automaton
  import opened Carrying
  import opened StateGen
  import opened Generation

  const ERRCODE := 8190
  const ACCEPTCODE := 8191

  // ---------------------------------------------------------------- deciding conflicts

  /** `precftn`: a shift (or earlier decision) cur > 0 against reduction r, by the levels of rule and token. */
  function Precedence(cur: int, r: int, lp: Word, lt: Word): int {
    if PLevel(lt) == 0 || PLevel(lp) == 0 then cur
    else
      var action := if PLevel(lt) == PLevel(lp) then Assoc(lt) else if PLevel(lt) > PLevel(lp) then RASC else LASC;
      if action == BASC then ERRCODE else if action == LASC then -r else cur
  }

  /** What becomes of entry cur when reduction r > 0 is also possible. */
  function Resolve(cur: int, r: int, lp: Word, lt: Word): int {
    if cur == 0 then -r
    else if cur < 0 then (if -cur > r then -r else cur)
    else Precedence(cur, r, lp, lt)
  }

  /** The entry after each of the reductions in turn. */
  function ResolveAll(cur: int, rs: seq<int>, levprd: seq<Word>, lt: Word): int
    requires forall k :: 0 <= k < |rs| ==> 0 <= rs[k] < |levprd|
    decreases |rs|
  {
    if rs == [] then cur
    else
      var n := |rs| - 1;
      Resolve(ResolveAll(cur, rs[..n], levprd, lt), rs[n], levprd[rs[n]], lt)
  }

  /** With no shift, the lowest-numbered rule is reduced. */
  lemma {:induction false} LowestRuleWins(rs: seq<int>, levprd: seq<Word>, lt: Word)
    requires forall k :: 0 <= k < |rs| ==> 0 < rs[k] < |levprd|
    ensures rs == [] ==> ResolveAll(0, rs, levprd, lt) == 0
    ensures rs != [] ==> ResolveAll(0, rs, levprd, lt) < 0 && -ResolveAll(0, rs, levprd, lt) in rs
    ensures forall k :: 0 <= k < |rs| ==> -ResolveAll(0, rs, levprd, lt) <= rs[k]
    decreases |rs|
  {
    if rs != [] {
      var n := |rs| - 1;
      LowestRuleWins(rs[..n], levprd, lt);
      assert forall k :: 0 <= k < n ==> rs[..n][k] == rs[k];
    }
  }

  /** Whatever the precedences, an entry stays what it was, becomes one of the reductions or an error. */
  lemma {:induction false} ResolveKinds(cur: int, rs: seq<int>, levprd: seq<Word>, lt: Word)
    requires forall k :: 0 <= k < |rs| ==> 0 < rs[k] < |levprd|
    requires cur >= 0
    ensures var v := ResolveAll(cur, rs, levprd, lt); v == cur || (v == ERRCODE && cur > 0) || (v < 0 && -v in rs)
    decreases |rs|
  {
    if rs != [] {
      var n := |rs| - 1;
      ResolveKinds(cur, rs[..n], levprd, lt);
      assert forall k :: 0 <= k < n ==> rs[..n][k] == rs[k];
    }
  }

  /** How a reduction fares against a shift. */
  datatype Contest = Loses | Wins | Forbids

  /** The rule's level beats the token's, or equals it under left association; equal levels that do not associate
      forbid both; otherwise, and where a level is missing, the reduction loses. */
  function Against(lp: Word, lt: Word): Contest {
    if 0 < PLevel(lt) && (PLevel(lt) < PLevel(lp) || (PLevel(lt) == PLevel(lp) && Assoc(lt) == LASC)) then Wins
    else if 0 < PLevel(lt) == PLevel(lp) && Assoc(lt) == BASC then Forbids
    else Loses
  }

  predicate RulesIn(rs: seq<int>, levprd: seq<Word>) {
    forall k :: 0 <= k < |rs| ==> 0 < rs[k] < |levprd|
  }

  function Contests(rs: seq<int>, levprd: seq<Word>, lt: Word): seq<Contest>
    requires RulesIn(rs, levprd)
  {
    seq(|rs|, k requires 0 <= k < |rs| => Against(levprd[rs[k]], lt))
  }

  /** v reduces by the lowest rule from index w on. */
  predicate LowestFrom(rs: seq<int>, w: nat, v: int) {
    v < 0 && w <= |rs| && -v in rs[w..] && forall k :: w <= k < |rs| ==> -v <= rs[k]
  }

  /** What becomes of a shift, given how each reduction fares against it: where none wins the shift stands, or is an
      error if one forbids it; from the first that wins on, the lowest rule is reduced and no level is asked. */
  ghost predicate Settled(shift: int, rs: seq<int>, cs: seq<Contest>, v: int)
    requires |cs| == |rs|
  {
    if Wins !in cs then v == if Forbids in cs then ERRCODE else shift
    else exists w :: 0 <= w < |rs| && cs[w] == Wins && Wins !in cs[..w] && LowestFrom(rs, w, v)
  }

  lemma LowestNext(rs: seq<int>, w: nat, v0: int, r: int)
    requires w < |rs| && LowestFrom(rs, w, v0) && r > 0
    ensures LowestFrom(rs + [r], w, if -v0 > r then -r else v0)
  {
    assert (rs + [r])[w..] == rs[w..] + [r];
  }

  /** A decision against one more reduction that fares as c says. */
  function Fares(cur: int, r: int, c: Contest): int {
    match c
    case Wins => -r
    case Forbids => ERRCODE
    case Loses => cur
  }

  lemma SettledNext(shift: int, rs: seq<int>, cs: seq<Contest>, v0: int, r: int, c: Contest, v: int)
    requires |cs| == |rs| && shift > 0 && r > 0 && Settled(shift, rs, cs, v0)
    requires v == if v0 < 0 then (if -v0 > r then -r else v0) else Fares(v0, r, c)
    ensures Settled(shift, rs + [r], cs + [c], v)
  {
    var rs', cs' := rs + [r], cs + [c];
    if Wins in cs {
      var w :| 0 <= w < |rs| && cs[w] == Wins && Wins !in cs[..w] && LowestFrom(rs, w, v0);
      LowestNext(rs, w, v0, r);
      assert cs'[w] == Wins && cs'[..w] == cs[..w];
    } else if c == Wins {
      var w := |rs|;
      assert cs'[w] == Wins && cs'[..w] == cs && rs'[w..] == [r];
      assert LowestFrom(rs', w, v);
    }
  }

  lemma ResolveStep(cur: int, r: int, lp: Word, lt: Word)
    requires cur > 0
    ensures Resolve(cur, r, lp, lt) == Fares(cur, r, Against(lp, lt))
  {
  }

  /** Yacc's precedence rule, for a shift against any list of reductions. */
  lemma {:induction false} PrecedenceRule(shift: int, rs: seq<int>, levprd: seq<Word>, lt: Word)
    requires shift > 0 && RulesIn(rs, levprd)
    ensures Settled(shift, rs, Contests(rs, levprd, lt), ResolveAll(shift, rs, levprd, lt))
    decreases |rs|
  {
    if rs != [] {
      var n := |rs| - 1;
      var front, r := rs[..n], rs[n];
      PrecedenceRule(shift, front, levprd, lt);
      var v0 := ResolveAll(shift, front, levprd, lt);
      var c := Against(levprd[r], lt);
      ResolveKinds(shift, front, levprd, lt);
      if v0 > 0 { ResolveStep(v0, r, levprd[r], lt); }
      SettledNext(shift, front, Contests(front, levprd, lt), v0, r, c, ResolveAll(shift, rs, levprd, lt));
      assert rs == front + [r];
      assert Contests(rs, levprd, lt) == Contests(front, levprd, lt) + [c];
    }
  }

  /** Yacc's rule for a rule and a token as they were declared: the later level wins; at the same level a rule wins
      under `%left`, loses under `%right` and forbids both under `%nonassoc`; without a level the shift stands. */
  function Weigh(rule: Level, token: Level): Contest {
    if rule.level == 0 || token.level == 0 || rule.level < token.level then Loses
    else if rule.level > token.level || token.assoc == LASC then Wins
    else if token.assoc == BASC then Forbids
    else Loses
  }

  predicate AllDeclared(rs: seq<int>, levels: seq<Level>) {
    forall k :: 0 <= k < |rs| ==> 0 < rs[k] < |levels|
  }

  function Weighings(rs: seq<int>, levels: seq<Level>, token: Level): seq<Contest>
    requires AllDeclared(rs, levels)
  {
    seq(|rs|, k requires 0 <= k < |rs| => Weigh(levels[rs[k]], token))
  }

  /** The words the reader stores decide as the declarations say. */
  lemma DeclaredContest(lp: Word, lt: Word, rule: Level, token: Level)
    requires Stored(lp, rule) && Stored(lt, token)
    ensures Against(lp, lt) == Weigh(rule, token)
  {
    StoredReadBack(lp, rule);
    StoredReadBack(lt, token);
  }

  lemma DeclaredContests(rs: seq<int>, levprd: seq<Word>, lt: Word, levels: seq<Level>, token: Level)
    requires RulesIn(rs, levprd) && |levels| == |levprd| && Stored(lt, token)
    requires forall r :: 0 < r < |levprd| ==> Stored(levprd[r], levels[r])
    ensures AllDeclared(rs, levels) && Contests(rs, levprd, lt) == Weighings(rs, levels, token)
  {
    forall k | 0 <= k < |rs| ensures Against(levprd[rs[k]], lt) == Weigh(levels[rs[k]], token) {
      DeclaredContest(levprd[rs[k]], lt, levels[rs[k]], token);
    }
  }

  /** Conflicts are settled by what was declared. */
  lemma DeclaredRule(shift: int, rs: seq<int>, levprd: seq<Word>, lt: Word, levels: seq<Level>, token: Level)
    requires shift > 0 && RulesIn(rs, levprd) && |levels| == |levprd| && Stored(lt, token)
    requires forall r :: 0 < r < |levprd| ==> Stored(levprd[r], levels[r])
    ensures AllDeclared(rs, levels)
    ensures Settled(shift, rs, Weighings(rs, levels, token), ResolveAll(shift, rs, levprd, lt))
  {
    PrecedenceRule(shift, rs, levprd, lt);
    DeclaredContests(rs, levprd, lt, levels, token);
  }

  // ---------------------------------------------------------------- shifts

  ghost predicate ShiftAt(g: Grammar, ks: seq<seq<KItem>>, s: int, c: int, v: int)
    requires WellFormed(g) && KernelsOk(g, ks) && 0 <= s < |ks|
  {
    if c > 1 && Wants(g, ks, s, c) then IsGoto(g, ks, s, c, v) else v == 0
  }

  /** Entry c is the goto of s on token c, 0 when s has none. */
  ghost predicate ShiftRow(g: Grammar, ks: seq<seq<KItem>>, s: int, row: seq<int>)
    requires WellFormed(g) && KernelsOk(g, ks) && 0 <= s < |ks|
  {
    |row| == g.ntokens + 1 && forall c :: 0 <= c <= g.ntokens ==> ShiftAt(g, ks, s, c, row[c])
  }

  /** Gather the items from u on that have the dot before c, and look their state up. */
  method FindShift(g: Grammar, st: States, i: nat, ws: seq<Wset>, u: nat, c: int) returns (t: nat)
    requires WellFormed(g) && StatesOk(g, st) && |st.kernels| < NSTATES && i < |st.kernels|
    requires Complete(g, st.kernels, i)
    requires WsOk(g, ws) && ItemSet(ws) == CloOf(g, st.kernels[i])
    requires u < |ws| && First(g, ws[u].item) == c > 1 && NoneBefore(g, ws, c, u)
    ensures IsGoto(g, st.kernels, i, c, t)
  {
    var pending, flags := CollectGoto(g, ws, seq(|ws|, _ => false), u, c);
    PutMoved(g, ws, u);
    GonePending(g, ws, c, |ws|);
    GoneHas(g, ws, c, |ws|, u);
    GotoKnown(g, st.kernels, i, ws, u);
    var ok, st';
    ok, st', t := State(g, st, pending, c, true);
    NewGoto(g, st, st', i, ws, c, t);
  }

  /** The first loop of `output` over the closed items. */
  method Shifts(g: Grammar, st: States, i: nat, ws: seq<Wset>) returns (temp1: seq<int>)
    requires WellFormed(g) && StatesOk(g, st) && |st.kernels| < NSTATES && i < |st.kernels|
    requires Complete(g, st.kernels, i)
    requires WsOk(g, ws) && ItemSet(ws) == CloOf(g, st.kernels[i])
    ensures ShiftRow(g, st.kernels, i, temp1)
  {
    temp1 := seq(g.ntokens + 1, _ => 0);
    var u := 0;
    while u < |ws|
      invariant 0 <= u <= |ws| && |temp1| == g.ntokens + 1
      invariant forall c :: 0 <= c <= g.ntokens ==>
                  if temp1[c] == 0 then c > 1 ==> NoneBefore(g, ws, c, u)
                  else c > 1 && IsGoto(g, st.kernels, i, c, temp1[c]) && !NoneBefore(g, ws, c, u)
    {
      var c := First(g, ws[u].item);
      ItemBasics(g, ws[u].item);
      if c > 1 && c < NTBASE && temp1[c] == 0 {
        var t := FindShift(g, st, i, ws, u, c);
        temp1 := temp1[c := t];
      }
      NoneBeforeNext(g, ws, u);
      u := u + 1;
    }
    forall c | 0 <= c <= g.ntokens ensures ShiftAt(g, st.kernels, i, c, temp1[c]) {
      WantsList(g, st.kernels, i, ws, c);
    }
  }

  lemma NoneBeforeNext(g: Grammar, ws: seq<Wset>, u: nat)
    requires WellFormed(g) && u < |ws| && forall i :: 0 <= i < |ws| ==> ValidItem(g, ws[i].item)
    ensures forall c :: NoneBefore(g, ws, c, u + 1) <==> NoneBefore(g, ws, c, u) && First(g, ws[u].item) != c
  {
    forall c ensures NoneBefore(g, ws, c, u + 1) <==> NoneBefore(g, ws, c, u) && First(g, ws[u].item) != c {
    }
  }

  lemma WantsList(g: Grammar, ks: seq<seq<KItem>>, s: int, ws: seq<Wset>, c: int)
    requires WellFormed(g) && KernelsOk(g, ks) && 0 <= s < |ks| && WsOk(g, ws) && ItemSet(ws) == CloOf(g, ks[s])
    ensures Wants(g, ks, s, c) <==> !NoneBefore(g, ws, c, |ws|)
  {
    if Wants(g, ks, s, c) {
      var it :| it in CloOf(g, ks[s]) && ValidItem(g, it) && First(g, it) == c;
      var j :| 0 <= j < |ws| && ws[j].item == it;
    }
    if !NoneBefore(g, ws, c, |ws|) {
      var j :| 0 <= j < |ws| && First(g, ws[j].item) == c;
      assert ws[j].item in ItemSet(ws);
    }
  }

  // ---------------------------------------------------------------- reductions

  /** The productions whose items are finished in ws[..n] with k in their lookahead, in list order. */
  ghost function RedsOn(g: Grammar, ws: seq<Wset>, k: int, n: nat): seq<int>
    requires WellFormed(g) && n <= |ws| && forall i :: 0 <= i < |ws| ==> ValidItem(g, ws[i].item)
  {
    if n == 0 then []
    else
      var r := First(g, ws[n - 1].item);
      if r <= 0 && k in ws[n - 1].ws then RedsOn(g, ws, k, n - 1) + [-r] else RedsOn(g, ws, k, n - 1)
  }

  lemma {:induction false} RedsFrom(g: Grammar, ws: seq<Wset>, k: int, n: nat, i: int) returns (u: int)
    requires WellFormed(g) && n <= |ws| && (forall i :: 0 <= i < |ws| ==> ValidItem(g, ws[i].item))
    requires 0 <= i < |RedsOn(g, ws, k, n)|
    ensures 0 <= u < n && First(g, ws[u].item) <= 0 && k in ws[u].ws && RedsOn(g, ws, k, n)[i] == -First(g, ws[u].item)
    decreases n
  {
    if First(g, ws[n - 1].item) <= 0 && k in ws[n - 1].ws && i == |RedsOn(g, ws, k, n - 1)| {
      u := n - 1;
    } else {
      u := RedsFrom(g, ws, k, n - 1, i);
    }
  }

  /** The finished item of production p is in the closure of s. */
  ghost predicate CanReduce(g: Grammar, ks: seq<seq<KItem>>, s: int, p: int)
    requires WellFormed(g) && KernelsOk(g, ks) && 0 <= s < |ks|
  {
    1 <= p < |g.prods| && Item(p, Len(g, p) - 1) in CloOf(g, ks[s])
  }

  /** Production 0 is never finished: `$end` is not moved over. */
  lemma FinishedItem(g: Grammar, ks: seq<seq<KItem>>, s: int, it: Item)
    requires WellFormed(g) && KernelsOk(g, ks) && 0 <= s < |ks|
    requires it in CloOf(g, ks[s]) && ValidItem(g, it) && First(g, it) <= 0
    ensures First(g, it) == -it.p && CanReduce(g, ks, s, it.p)
  {
    ItemBasics(g, it);
    assert WfProd(g, 0, g.prods[0]);
    assert StateOk(g, ks, s);
    if it in KernelSet(ks[s]) {
      var i :| 0 <= i < |ks[s]| && ks[s][i].item == it;
      assert s > 0 ==> Moved(g, it, Acc(g, ks[s]));
    }
  }

  lemma EntryReduces(g: Grammar, ks: seq<seq<KItem>>, s: int, ws: seq<Wset>, u: int)
    requires WellFormed(g) && KernelsOk(g, ks) && 0 <= s < |ks| && WsOk(g, ws) && ItemSet(ws) == CloOf(g, ks[s])
    requires 0 <= u < |ws| && First(g, ws[u].item) <= 0
    ensures CanReduce(g, ks, s, -First(g, ws[u].item))
  {
    assert ws[u].item in ItemSet(ws);
    FinishedItem(g, ks, s, ws[u].item);
  }

  lemma RedCanReduce(g: Grammar, ks: seq<seq<KItem>>, s: int, ws: seq<Wset>, k: int, i: int)
    requires WellFormed(g) && KernelsOk(g, ks) && 0 <= s < |ks| && WsOk(g, ws) && ItemSet(ws) == CloOf(g, ks[s])
    requires 0 <= i < |RedsOn(g, ws, k, |ws|)|
    ensures CanReduce(g, ks, s, RedsOn(g, ws, k, |ws|)[i])
  {
    var u := RedsFrom(g, ws, k, |ws|, i);
    EntryReduces(g, ks, s, ws, u);
  }

  lemma RedsCanReduce(g: Grammar, ks: seq<seq<KItem>>, s: int, ws: seq<Wset>, k: int)
    requires WellFormed(g) && KernelsOk(g, ks) && 0 <= s < |ks| && WsOk(g, ws) && ItemSet(ws) == CloOf(g, ks[s])
    ensures forall i :: 0 <= i < |RedsOn(g, ws, k, |ws|)| ==> CanReduce(g, ks, s, RedsOn(g, ws, k, |ws|)[i])
  {
    forall i | 0 <= i < |RedsOn(g, ws, k, |ws|)| ensures CanReduce(g, ks, s, RedsOn(g, ws, k, |ws|)[i]) {
      RedCanReduce(g, ks, s, ws, k, i);
    }
  }

  predicate LevelsOk(g: Grammar, levprd: seq<Word>, toklev: seq<Word>) {
    |levprd| == |g.prods| && |toklev| == g.ntokens + 1
  }

  predicate RedsInRange(g: Grammar, ws: seq<Wset>, n: nat)
    requires WellFormed(g) && n <= |ws| && forall i :: 0 <= i < |ws| ==> ValidItem(g, ws[i].item)
  {
    forall i :: 0 <= i < n ==> First(g, ws[i].item) <= 0 ==> 0 <= -First(g, ws[i].item) < |g.prods|
  }

  lemma FinalsInRange(g: Grammar, ws: seq<Wset>)
    requires WellFormed(g) && forall i :: 0 <= i < |ws| ==> ValidItem(g, ws[i].item)
    ensures RedsInRange(g, ws, |ws|)
  {
    forall i | 0 <= i < |ws| ensures First(g, ws[i].item) <= 0 ==> 0 <= -First(g, ws[i].item) < |g.prods| {
      ItemBasics(g, ws[i].item);
    }
  }

  lemma RedsOnInRange(g: Grammar, ws: seq<Wset>, k: int, n: nat)
    requires WellFormed(g) && n <= |ws| && (forall i :: 0 <= i < |ws| ==> ValidItem(g, ws[i].item))
    ensures forall i :: 0 <= i < |RedsOn(g, ws, k, n)| ==> 0 <= RedsOn(g, ws, k, n)[i] < |g.prods|
  {
    FinalsInRange(g, ws);
    var reds := RedsOn(g, ws, k, n);
    forall i | 0 <= i < |reds| ensures 0 <= reds[i] < |g.prods| {
      var u := RedsFrom(g, ws, k, n, i);
    }
  }

  /** Entry k after the finished items of ws[..n] have been weighed in turn. */
  ghost function Weighed(g: Grammar, ws: seq<Wset>, k: int, n: nat, cur: int, levprd: seq<Word>, lt: Word): int
    requires WellFormed(g) && n <= |ws| && (forall i :: 0 <= i < |ws| ==> ValidItem(g, ws[i].item))
    requires |levprd| == |g.prods|
  {
    RedsOnInRange(g, ws, k, n);
    ResolveAll(cur, RedsOn(g, ws, k, n), levprd, lt)
  }

  lemma WeighNext(g: Grammar, ws: seq<Wset>, k: int, n: nat, cur: int, levprd: seq<Word>, lt: Word)
    requires WellFormed(g) && n < |ws| && (forall i :: 0 <= i < |ws| ==> ValidItem(g, ws[i].item))
    requires |levprd| == |g.prods|
    ensures First(g, ws[n].item) <= 0 && k in ws[n].ws ==> 0 <= -First(g, ws[n].item) < |levprd|
    ensures var r, v := -First(g, ws[n].item), Weighed(g, ws, k, n, cur, levprd, lt);
            Weighed(g, ws, k, n + 1, cur, levprd, lt) ==
            if r >= 0 && k in ws[n].ws then Resolve(v, r, levprd[r], lt) else v
  {
    ItemBasics(g, ws[n].item);
    RedsOnInRange(g, ws, k, n);
    if First(g, ws[n].item) <= 0 && k in ws[n].ws {
      var rs := RedsOn(g, ws, k, n);
      assert (rs + [-First(g, ws[n].item)])[..|rs|] == rs;
    }
  }

  /** Item u is finished: weigh its production against every entry in its lookahead. */
  method WeighItem(g: Grammar, ws: seq<Wset>, u: nat, row: seq<int>, levprd: seq<Word>, toklev: seq<Word>)
    returns (row': seq<int>)
    requires WellFormed(g) && u < |ws| && (forall i :: 0 <= i < |ws| ==> ValidItem(g, ws[i].item))
    requires LevelsOk(g, levprd, toklev) && |row| == g.ntokens + 1
    requires First(g, ws[u].item) <= 0
    ensures |row'| == |row|
    ensures var r := -First(g, ws[u].item);
            0 <= r < |levprd| && forall k :: 0 <= k <= g.ntokens ==>
              row'[k] == if k in ws[u].ws then Resolve(row[k], r, levprd[r], toklev[k]) else row[k]
  {
    row' := row;
    ItemBasics(g, ws[u].item);
    var lastred := -First(g, ws[u].item);
    var k := 0;
    while k <= g.ntokens
      invariant 0 <= k <= g.ntokens + 1 && |row'| == |row|
      invariant forall j :: 0 <= j <= g.ntokens ==>
                  row'[j] ==
                  if j < k && j in ws[u].ws then Resolve(row[j], lastred, levprd[lastred], toklev[j]) else row[j]
    {
      if k in ws[u].ws {
        if row'[k] == 0 {
          row' := row'[k := -lastred];
        } else if row'[k] < 0 {
          if -row'[k] > lastred {
            row' := row'[k := -lastred];
          }
        } else {
          row' := row'[k := Precedence(row'[k], lastred, levprd[lastred], toklev[k])];
        }
      }
      k := k + 1;
    }
  }

  /** Each entry is that of base weighed against the finished items of ws[..n] with its token in their lookahead. */
  ghost predicate WeighedRow(g: Grammar, ws: seq<Wset>, n: nat, base: seq<int>, levprd: seq<Word>, toklev: seq<Word>,
                             row: seq<int>)
    requires WellFormed(g)
  {
    && n <= |ws| && (forall i :: 0 <= i < |ws| ==> ValidItem(g, ws[i].item)) && LevelsOk(g, levprd, toklev)
    && |row| == |base| == g.ntokens + 1
    && forall k :: 0 <= k <= g.ntokens ==> WeighedAt(g, ws, n, k, base[k], levprd, toklev[k], row[k])
  }

  ghost predicate WeighedAt(g: Grammar, ws: seq<Wset>, n: nat, k: int, cur: int, levprd: seq<Word>, lt: Word, v: int)
    requires WellFormed(g) && n <= |ws| && (forall i :: 0 <= i < |ws| ==> ValidItem(g, ws[i].item))
    requires |levprd| == |g.prods|
  {
    v == Weighed(g, ws, k, n, cur, levprd, lt)
  }

  /** Item u's turn, whether it is finished or not. */
  method WeighTurn(g: Grammar, ws: seq<Wset>, u: nat, row: seq<int>, levprd: seq<Word>, toklev: seq<Word>,
                   ghost base: seq<int>)
    returns (row': seq<int>)
    requires WellFormed(g) && u < |ws| && WeighedRow(g, ws, u, base, levprd, toklev, row)
    ensures WeighedRow(g, ws, u + 1, base, levprd, toklev, row')
  {
    row' := row;
    if First(g, ws[u].item) <= 0 {
      row' := WeighItem(g, ws, u, row, levprd, toklev);
    }
    forall k | 0 <= k <= g.ntokens ensures WeighedAt(g, ws, u + 1, k, base[k], levprd, toklev[k], row'[k]) {
      assert WeighedAt(g, ws, u, k, base[k], levprd, toklev[k], row[k]);
      WeighNext(g, ws, k, u, base[k], levprd, toklev[k]);
    }
  }

  lemma WeighStart(g: Grammar, ws: seq<Wset>, base: seq<int>, levprd: seq<Word>, toklev: seq<Word>)
    requires WellFormed(g) && (forall i :: 0 <= i < |ws| ==> ValidItem(g, ws[i].item))
    requires LevelsOk(g, levprd, toklev) && |base| == g.ntokens + 1
    ensures WeighedRow(g, ws, 0, base, levprd, toklev, base)
  {
    forall k | 0 <= k <= g.ntokens ensures WeighedAt(g, ws, 0, k, base[k], levprd, toklev[k], base[k]) {
      assert RedsOn(g, ws, k, 0) == [];
    }
  }

  /** The second loop of `output`: the reductions. */
  method Reductions(g: Grammar, ws: seq<Wset>, base: seq<int>, levprd: seq<Word>, toklev: seq<Word>)
    returns (temp1: seq<int>)
    requires WellFormed(g) && (forall i :: 0 <= i < |ws| ==> ValidItem(g, ws[i].item))
    requires LevelsOk(g, levprd, toklev) && |base| == g.ntokens + 1
    ensures WeighedRow(g, ws, |ws|, base, levprd, toklev, temp1)
  {
    temp1 := base;
    WeighStart(g, ws, base, levprd, toklev);
    var u := 0;
    while u < |ws|
      invariant 0 <= u <= |ws| && WeighedRow(g, ws, u, base, levprd, toklev, temp1)
    {
      temp1 := WeighTurn(g, ws, u, temp1, levprd, toklev, base);
      u := u + 1;
    }
  }

  // ---------------------------------------------------------------- the whole row

  /** What an entry of the action row may be. */
  ghost predicate ActionAt(g: Grammar, ks: seq<seq<KItem>>, s: int, k: int, v: int)
    requires WellFormed(g) && KernelsOk(g, ks) && 0 <= s < |ks|
  {
    || v == 0
    || v == ERRCODE
    || (v == ACCEPTCODE && s == 1 && k == END_TOKEN)
    || (0 < v < NSTATES && k > 1 && IsGoto(g, ks, s, k, v))
    || (v < 0 && CanReduce(g, ks, s, -v))
  }

  ghost predicate ActionRow(g: Grammar, ks: seq<seq<KItem>>, s: int, row: seq<int>)
    requires WellFormed(g) && KernelsOk(g, ks) && 0 <= s < |ks|
  {
    |row| == g.ntokens + 1 && forall k :: 0 <= k <= g.ntokens ==> ActionAt(g, ks, s, k, row[k])
  }

  lemma WeighedIsAction(g: Grammar, ks: seq<seq<KItem>>, s: int, ws: seq<Wset>, k: int, cur: int, levprd: seq<Word>,
                        lt: Word)
    requires WellFormed(g) && KernelsOk(g, ks) && 0 <= s < |ks| && WsOk(g, ws) && ItemSet(ws) == CloOf(g, ks[s])
    requires |levprd| == |g.prods| && cur >= 0 && ActionAt(g, ks, s, k, cur)
    ensures ActionAt(g, ks, s, k, Weighed(g, ws, k, |ws|, cur, levprd, lt))
  {
    RedsCanReduce(g, ks, s, ws, k);
    ResolveKinds(cur, RedsOn(g, ws, k, |ws|), levprd, lt);
  }

  /** The row before reductions: the gotos on tokens, and in state 1 the accept on `$end`. */
  ghost predicate BaseRow(g: Grammar, ks: seq<seq<KItem>>, i: int, base: seq<int>)
    requires WellFormed(g) && KernelsOk(g, ks) && 0 <= i < |ks|
  {
    |base| == g.ntokens + 1 && forall k :: 0 <= k <= g.ntokens ==>
      if i == 1 && k == END_TOKEN then base[k] == ACCEPTCODE else ShiftAt(g, ks, i, k, base[k])
  }

  /** The action row of state i, exactly: its gotos on tokens weighed against the finished items of its closure, each
      with the lookahead it carries, in the order of the closure. */
  ghost predicate ExactRow(cx: Context, st: States, i: int, levprd: seq<Word>, toklev: seq<Word>, row: seq<int>)
    requires ContextOk(cx) && StatesOk(cx.g, st) && 0 <= i < |st.kernels|
  {
    var ws := ClosedList(cx, st.kernels[i]);
    exists base :: BaseRow(cx.g, st.kernels, i, base) && WeighedRow(cx.g, ws, |ws|, base, levprd, toklev, row)
  }

  /** Two lists that differ only in the lookahead of unfinished items. */
  ghost predicate SameFinished(g: Grammar, ws: seq<Wset>, ws': seq<Wset>)
    requires WellFormed(g)
  {
    && |ws| == |ws'|
    && (forall j :: 0 <= j < |ws| ==> ValidItem(g, ws[j].item) && ws'[j].item == ws[j].item)
    && (forall j :: 0 <= j < |ws| && First(g, ws[j].item) <= 0 ==> ws'[j].ws == ws[j].ws)
  }

  lemma {:induction false} RedsSame(g: Grammar, ws: seq<Wset>, ws': seq<Wset>, k: int, n: nat)
    requires WellFormed(g) && SameFinished(g, ws, ws') && n <= |ws|
    ensures RedsOn(g, ws, k, n) == RedsOn(g, ws', k, n)
  {
    if n > 0 { RedsSame(g, ws, ws', k, n - 1); }
  }

  lemma WeighedSame(g: Grammar, ws: seq<Wset>, ws': seq<Wset>, base: seq<int>, levprd: seq<Word>, toklev: seq<Word>,
                    row: seq<int>)
    requires WellFormed(g) && SameFinished(g, ws, ws') && WeighedRow(g, ws, |ws|, base, levprd, toklev, row)
    ensures WeighedRow(g, ws', |ws'|, base, levprd, toklev, row)
  {
    forall k | 0 <= k <= g.ntokens ensures WeighedAt(g, ws', |ws'|, k, base[k], levprd, toklev[k], row[k]) {
      assert WeighedAt(g, ws, |ws|, k, base[k], levprd, toklev[k], row[k]);
      RedsSame(g, ws, ws', k, |ws|);
    }
  }

  /** Closed with lookahead, or without it where no late production needs it, a state has the same finished items. */
  lemma LookaheadSpared(cx: Context, kernel: seq<KItem>, ws: seq<Wset>, nolook: bool)
    requires ContextOk(cx) && KernelOk(cx.g, kernel) && OneEach(kernel) && Closed(cx, kernel, ws, nolook)
    requires nolook ==> !Late(cx.g, kernel)
    ensures SameFinished(cx.g, ws, ClosedList(cx, kernel))
  {
    if nolook {
      var l := ClosedList(cx, kernel);
      assert |ItemList(ws)| == |ws|;
      forall j | 0 <= j < |ws|
        ensures l[j].item == ws[j].item && (First(cx.g, ws[j].item) <= 0 ==> l[j].ws == ws[j].ws)
      {
        assert ItemList(ws)[j] == ws[j].item;
        if j < |kernel| {
          CarryKernel(cx, kernel, j);
        } else {
          assert Entered(cx.g, KernelSet(kernel), ws[j].item.p) && !LateAt(cx.g, ws[j].item.p);
        }
      }
    } else {
      ClosedIsList(cx, kernel, ws);
    }
  }

  /** `output` for one state: lookahead is recomputed only where the closure brings in late productions. */
  method StateActions(cx: Context, st: States, i: nat, levprd: seq<Word>, toklev: seq<Word>) returns (temp1: seq<int>)
    requires ContextOk(cx) && StatesOk(cx.g, st) && |st.kernels| < NSTATES && i < |st.kernels|
    requires Complete(cx.g, st.kernels, i) && LevelsOk(cx.g, levprd, toklev)
    requires st.tystate[i] == MUSTLOOKAHEAD <==> Late(cx.g, st.kernels[i])
    ensures ExactRow(cx, st, i, levprd, toklev, temp1)
    ensures ActionRow(cx.g, st.kernels, i, temp1)
  {
    var nolook := st.tystate[i] != MUSTLOOKAHEAD;
    var ws := Close(cx, st.kernels[i], nolook);
    ClosedState(cx, st, i, ws, nolook);
    var row := Shifts(cx.g, st, i, ws);
    if i == 1 {
      row := row[END_TOKEN := ACCEPTCODE];
    }
    temp1 := Reductions(cx.g, ws, row, levprd, toklev);
    assert BaseRow(cx.g, st.kernels, i, row);
    LookaheadSpared(cx, st.kernels[i], ws, nolook);
    WeighedSame(cx.g, ws, ClosedList(cx, st.kernels[i]), row, levprd, toklev, temp1);
    RowIsActions(cx.g, st.kernels, i, ws, row, levprd, toklev, temp1);
  }

  lemma RowIsActions(g: Grammar, ks: seq<seq<KItem>>, i: int, ws: seq<Wset>, base: seq<int>, levprd: seq<Word>,
                     toklev: seq<Word>, row: seq<int>)
    requires WellFormed(g) && KernelsOk(g, ks) && 0 <= i < |ks| < NSTATES && WsOk(g, ws)
    requires ItemSet(ws) == CloOf(g, ks[i])
    requires BaseRow(g, ks, i, base) && WeighedRow(g, ws, |ws|, base, levprd, toklev, row)
    ensures ActionRow(g, ks, i, row)
  {
    forall k | 0 <= k <= g.ntokens ensures ActionAt(g, ks, i, k, row[k]) {
      assert ActionAt(g, ks, i, k, base[k]);
      assert WeighedAt(g, ws, |ws|, k, base[k], levprd, toklev[k], row[k]);
      WeighedIsAction(g, ks, i, ws, k, base[k], levprd, toklev[k]);
    }
  }

  /** The automaton determines the row. */
  lemma ExactRowUnique(cx: Context, st: States, i: int, levprd: seq<Word>, toklev: seq<Word>, row: seq<int>,
                       row': seq<int>)
    requires ContextOk(cx) && StatesOk(cx.g, st) && 0 <= i < |st.kernels|
    requires ExactRow(cx, st, i, levprd, toklev, row) && ExactRow(cx, st, i, levprd, toklev, row')
    ensures row == row'
  {
    var g, ks, ws := cx.g, st.kernels, ClosedList(cx, st.kernels[i]);
    var base :| BaseRow(g, ks, i, base) && WeighedRow(g, ws, |ws|, base, levprd, toklev, row);
    var base' :| BaseRow(g, ks, i, base') && WeighedRow(g, ws, |ws|, base', levprd, toklev, row');
    forall k | 0 <= k <= g.ntokens ensures row[k] == row'[k] {
      if !(i == 1 && k == END_TOKEN) {
        assert ShiftAt(g, ks, i, k, base[k]) && ShiftAt(g, ks, i, k, base'[k]);
        if k > 1 && Wants(g, ks, i, k) { GotoUnique(g, st, i, k, base[k], base'[k]); }
      }
      assert base[k] == base'[k];
      assert WeighedAt(g, ws, |ws|, k, base[k], levprd, toklev[k], row[k]);
      assert WeighedAt(g, ws, |ws|, k, base'[k], levprd, toklev[k], row'[k]);
    }
  }
}
