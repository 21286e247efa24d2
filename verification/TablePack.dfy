/** `stin` and `gin`: rows packed into one array, and why lookups there are exact. */
module TablePack {
  import opened GotoColumns

  /** The base that says a state has no shifts; `others` fills the check array with the same number. */
  const YYFLAG := -1000

  /** What is to be packed: a shift row per state, a goto row per nonterminal (index 0 is unused), and the
      check array that gives each state its accessing symbol: a token, or minus a nonterminal number. */
  datatype Rows = Rows(optst: seq<seq<(int, int)>>, yypgo: seq<GoRow>, chk: seq<int>)

  predicate IsState(rows: Rows, q: int) {
    1 <= q < |rows.chk|
  }

  predicate ShiftRowOk(rows: Rows, row: seq<(int, int)>) {
    && (forall r :: 0 <= r < |row| ==> row[r].0 >= 1 && IsState(rows, row[r].1) && rows.chk[row[r].1] == row[r].0)
    && (forall r, r' :: 0 <= r < r' < |row| ==> row[r].0 < row[r'].0)
  }

  predicate GoRowOk(rows: Rows, row: GoRow, n: int) {
    && (forall r :: 0 <= r < |row.entries| ==>
          0 <= row.entries[r].0 < |rows.chk| && IsState(rows, row.entries[r].1) && rows.chk[row.entries[r].1] == -n)
    && (forall r, r' :: 0 <= r < r' < |row.entries| ==> row.entries[r].0 < row.entries[r'].0)
    && (row.default == 0 || (IsState(rows, row.default) && rows.chk[row.default] == -n))
  }

  /** Every target state is entered on exactly the symbol it is filed under; state 0 on none. */
  predicate RowsOk(rows: Rows) {
    && |rows.optst| == |rows.chk| >= 1
    && |rows.yypgo| >= 1
    && rows.chk[0] == YYFLAG
    && (forall s :: 0 <= s < |rows.optst| ==> ShiftRowOk(rows, rows.optst[s]))
    && (forall n :: 1 <= n < |rows.yypgo| ==> GoRowOk(rows, rows.yypgo[n], n))
  }

  // ---------------------------------------------------------------- the packing invariant

  datatype Packing = Packing(indgo: seq<int>, pgo: seq<int>, maxa: int)

  /** Shift row s stands at its base. */
  ghost predicate ShiftIn(rows: Rows, a: seq<int>, pk: Packing, s: int) {
    && 0 <= s < |rows.optst| && |pk.indgo| == |rows.optst|
    && forall r :: 0 <= r < |rows.optst[s]| ==> ShiftCell(a, pk, pk.indgo[s], rows.optst[s][r])
  }

  predicate ShiftCell(a: seq<int>, pk: Packing, base: int, e: (int, int)) {
    0 <= base + e.0 < |a| && base + e.0 <= pk.maxa && a[base + e.0] == e.1
  }

  /** Goto row n stands at its place. */
  ghost predicate GotoIn(rows: Rows, a: seq<int>, pk: Packing, n: int) {
    && 1 <= n < |rows.yypgo| && |pk.pgo| == |rows.yypgo|
    && 0 <= pk.pgo[n] < |a| && pk.pgo[n] <= pk.maxa
    && (rows.yypgo[n].default != 0 ==> a[pk.pgo[n]] == rows.yypgo[n].default)
    && forall r :: 0 <= r < |rows.yypgo[n].entries| ==> ShiftCell(a, pk, pk.pgo[n] + 1, rows.yypgo[n].entries[r])
  }

  ghost predicate FromShift(rows: Rows, pk: Packing, sdone: set<int>, x: int, v: int) {
    exists s, r :: s in sdone && 0 <= s < |rows.optst| && s < |pk.indgo| && 0 <= r < |rows.optst[s]| &&
      pk.indgo[s] + rows.optst[s][r].0 == x && rows.optst[s][r].1 == v
  }

  ghost predicate FromGoto(rows: Rows, pk: Packing, gdone: set<int>, x: int, v: int) {
    exists n :: n in gdone && 1 <= n < |rows.yypgo| && n < |pk.pgo| && FromGoRow(rows.yypgo[n], pk.pgo[n], x, v)
  }

  /** Row `row` standing at p puts v into cell x. */
  ghost predicate FromGoRow(row: GoRow, p: int, x: int, v: int) {
    || (x == p && v == row.default)
    || exists r :: 0 <= r < |row.entries| && p + 1 + row.entries[r].0 == x && row.entries[r].1 == v
  }

  /** A cell in use was written by a row that stands. */
  ghost predicate Origin(rows: Rows, pk: Packing, sdone: set<int>, gdone: set<int>, x: int, v: int) {
    x <= pk.maxa && (FromShift(rows, pk, sdone, x, v) || FromGoto(rows, pk, gdone, x, v))
  }

  /** The rows of sdone and gdone stand in the array, which holds nothing else; two states share a base other than
      the flag only if their rows are equal. */
  ghost predicate Packed(rows: Rows, a: seq<int>, pk: Packing, sdone: set<int>, gdone: set<int>) {
    && |pk.indgo| == |rows.optst| && |pk.pgo| == |rows.yypgo|
    && (forall s :: s in sdone ==> ShiftIn(rows, a, pk, s))
    && (forall s :: 0 <= s < |rows.optst| && s !in sdone ==> pk.indgo[s] == YYFLAG)
    && (forall s :: s in sdone ==> rows.optst[s] != [])
    && (forall n :: n in gdone ==> GotoIn(rows, a, pk, n))
    && (forall n :: 1 <= n < |rows.yypgo| && n !in gdone ==> pk.pgo[n] == 0)
    && (forall x {:trigger Origin(rows, pk, sdone, gdone, x, a[x])} ::
          0 <= x < |a| && a[x] != 0 ==> Origin(rows, pk, sdone, gdone, x, a[x]))
    && (forall s, s' :: s in sdone && s' in sdone && pk.indgo[s] == pk.indgo[s'] != YYFLAG ==>
          rows.optst[s] == rows.optst[s'])
  }

  // ---------------------------------------------------------------- the parser's lookups

  /** The tables as the parser has them. */
  datatype Tables = Tables(act: seq<int>, pact: seq<int>, pgo: seq<int>, chk: seq<int>)

  predicate TablesOk(tab: Tables) {
    && |tab.chk| >= 1 && |tab.pact| == |tab.chk|
    && (forall x :: 0 <= x < |tab.act| ==> 0 <= tab.act[x] < |tab.chk|)
    && (forall n :: 1 <= n < |tab.pgo| ==> 0 <= tab.pgo[n] < |tab.act|)
  }

  /** The shift of state s on token t, or 0. */
  function ShiftLookup(tab: Tables, s: int, t: int): int
    requires TablesOk(tab) && 0 <= s < |tab.pact|
  {
    var n := tab.pact[s];
    if n <= YYFLAG then 0
    else if n + t < 0 || n + t >= |tab.act| then 0
    else
      var q := tab.act[n + t];
      if tab.chk[q] == t then q else 0
  }

  /** The goto of state s on nonterminal n. */
  function GotoLookup(tab: Tables, n: int, s: int): int
    requires TablesOk(tab) && 1 <= n < |tab.pgo| && 0 <= s
  {
    var g := tab.pgo[n];
    var j := g + s + 1;
    if j >= |tab.act| then tab.act[g]
    else
      var q := tab.act[j];
      if tab.chk[q] != -n then tab.act[g] else q
  }

  /** The written tables: the used part of the array, and the bases. */
  function Written(rows: Rows, a: seq<int>, pk: Packing): Tables
    requires 0 <= pk.maxa < |a|
  {
    Tables(a[..pk.maxa + 1], pk.indgo, pk.pgo, rows.chk)
  }

  /** A cell's value tells who wrote it: its accessing symbol is a token for a shift row, a nonterminal for a
      goto row, and gives the position in that row. */
  lemma OriginCases(rows: Rows, pk: Packing, sdone: set<int>, gdone: set<int>, x: int, v: int) returns (s: int)
    requires RowsOk(rows) && Origin(rows, pk, sdone, gdone, x, v) && v != 0
    ensures IsState(rows, v) && rows.chk[v] != 0
    ensures rows.chk[v] >= 1 ==>
              && s in sdone && 0 <= s < |rows.optst| && s < |pk.indgo|
              && pk.indgo[s] + rows.chk[v] == x && (rows.chk[v], v) in rows.optst[s]
    ensures rows.chk[v] <= -1 ==>
              var n := -rows.chk[v];
              n in gdone && n < |rows.yypgo| && n < |pk.pgo| &&
              ((x == pk.pgo[n] && v == rows.yypgo[n].default) || (x - pk.pgo[n] - 1, v) in rows.yypgo[n].entries)
  {
    if FromShift(rows, pk, sdone, x, v) {
      s := ShiftOrigin(rows, pk, sdone, x, v);
    } else {
      s := 0;
      GotoOrigin(rows, pk, gdone, x, v);
    }
  }

  lemma GotoOrigin(rows: Rows, pk: Packing, gdone: set<int>, x: int, v: int)
    requires RowsOk(rows) && FromGoto(rows, pk, gdone, x, v) && v != 0
    ensures IsState(rows, v) && rows.chk[v] <= -1
    ensures var n := -rows.chk[v];
            n in gdone && n < |rows.yypgo| && n < |pk.pgo| &&
            ((x == pk.pgo[n] && v == rows.yypgo[n].default) || (x - pk.pgo[n] - 1, v) in rows.yypgo[n].entries)
  {
    var n :| n in gdone && 1 <= n < |rows.yypgo| && n < |pk.pgo| && FromGoRow(rows.yypgo[n], pk.pgo[n], x, v);
    GoRowOrigin(rows, rows.yypgo[n], n, pk.pgo[n], x, v);
  }

  lemma ShiftOrigin(rows: Rows, pk: Packing, sdone: set<int>, x: int, v: int) returns (s: int)
    requires RowsOk(rows) && FromShift(rows, pk, sdone, x, v) && v != 0
    ensures IsState(rows, v) && rows.chk[v] >= 1 && s in sdone && 0 <= s < |rows.optst| && s < |pk.indgo|
    ensures pk.indgo[s] + rows.chk[v] == x && (rows.chk[v], v) in rows.optst[s]
  {
    var r;
    s, r :| s in sdone && 0 <= s < |rows.optst| && s < |pk.indgo| && 0 <= r < |rows.optst[s]| &&
      pk.indgo[s] + rows.optst[s][r].0 == x && rows.optst[s][r].1 == v;
    assert ShiftRowOk(rows, rows.optst[s]);
    assert rows.optst[s][r] == (rows.chk[v], v);
  }

  lemma GoRowOrigin(rows: Rows, row: GoRow, n: int, p: int, x: int, v: int)
    requires GoRowOk(rows, row, n) && FromGoRow(row, p, x, v) && v != 0 && n >= 1
    ensures IsState(rows, v) && rows.chk[v] == -n
    ensures (x == p && v == row.default) || (x - p - 1, v) in row.entries
  {
    if !(x == p && v == row.default) {
      var r :| 0 <= r < |row.entries| && p + 1 + row.entries[r].0 == x && row.entries[r].1 == v;
      assert row.entries[r] == (x - p - 1, v);
    }
  }

  lemma WrittenOk(rows: Rows, a: seq<int>, pk: Packing, sdone: set<int>, gdone: set<int>)
    requires RowsOk(rows) && Packed(rows, a, pk, sdone, gdone) && 0 <= pk.maxa < |a|
    ensures TablesOk(Written(rows, a, pk))
  {
    forall x | 0 <= x < pk.maxa + 1 ensures 0 <= a[x] < |rows.chk| {
      if a[x] != 0 {
        assert Origin(rows, pk, sdone, gdone, x, a[x]);
        var s := OriginCases(rows, pk, sdone, gdone, x, a[x]);
      }
    }
    forall n | 1 <= n < |rows.yypgo| ensures 0 <= pk.pgo[n] <= pk.maxa {
      assert n in gdone ==> GotoIn(rows, a, pk, n);
    }
  }

  /** Packed shifts are exact: the lookup shifts to q iff the state's row says so, and its base is above the flag. */
  lemma ShiftsExact(rows: Rows, a: seq<int>, pk: Packing, sdone: set<int>, gdone: set<int>, s: int, t: int, q: int)
    requires RowsOk(rows) && Packed(rows, a, pk, sdone, gdone) && 0 <= pk.maxa < |a|
    requires 0 <= s < |rows.optst| && t >= 1 && q != 0
    ensures TablesOk(Written(rows, a, pk))
    ensures ShiftLookup(Written(rows, a, pk), s, t) == q <==>
              s in sdone && pk.indgo[s] > YYFLAG && (t, q) in rows.optst[s]
  {
    WrittenOk(rows, a, pk, sdone, gdone);
    var tab := Written(rows, a, pk);
    if s in sdone && pk.indgo[s] > YYFLAG && (t, q) in rows.optst[s] {
      var r :| 0 <= r < |rows.optst[s]| && rows.optst[s][r] == (t, q);
      assert ShiftIn(rows, a, pk, s) && ShiftCell(a, pk, pk.indgo[s], rows.optst[s][r]);
      assert ShiftRowOk(rows, rows.optst[s]);
      assert tab.act[pk.indgo[s] + t] == q;
    }
    if ShiftLookup(tab, s, t) == q {
      var x := pk.indgo[s] + t;
      assert a[x] == q;
      assert Origin(rows, pk, sdone, gdone, x, a[x]);
      var s' := OriginCases(rows, pk, sdone, gdone, x, q);
      assert rows.optst[s] == rows.optst[s'];
    }
  }

  /** All the shifts of a state are found. */
  ghost predicate RowFound(rows: Rows, tab: Tables, s: int)
    requires TablesOk(tab) && 0 <= s < |tab.pact| == |rows.optst|
  {
    forall t, q :: (t, q) in rows.optst[s] ==> ShiftLookup(tab, s, t) == q
  }

  /** The shifts of a row that stands are found iff its base is above the flag, and otherwise none is. */
  lemma FoundIffAboveFlag(rows: Rows, a: seq<int>, pk: Packing, sdone: set<int>, gdone: set<int>, s: int)
    requires RowsOk(rows) && Packed(rows, a, pk, sdone, gdone) && 0 <= pk.maxa < |a| && s in sdone
    requires 0 <= s < |rows.optst|
    ensures TablesOk(Written(rows, a, pk))
    ensures RowFound(rows, Written(rows, a, pk), s) <==> pk.indgo[s] > YYFLAG
    ensures pk.indgo[s] <= YYFLAG ==> forall t :: ShiftLookup(Written(rows, a, pk), s, t) == 0
  {
    WrittenOk(rows, a, pk, sdone, gdone);
    var tab := Written(rows, a, pk);
    assert ShiftRowOk(rows, rows.optst[s]);
    if pk.indgo[s] > YYFLAG {
      forall t, q | (t, q) in rows.optst[s] ensures ShiftLookup(tab, s, t) == q {
        ShiftsExact(rows, a, pk, sdone, gdone, s, t, q);
      }
    } else {
      var e := rows.optst[s][0];
      assert e in rows.optst[s] && ShiftLookup(tab, s, e.0) == 0 && e.1 != 0;
    }
  }

  /** A row whose first token is below 1000 cannot stand at the flag or below it. */
  lemma LowTokenAboveFlag(rows: Rows, a: seq<int>, pk: Packing, sdone: set<int>, gdone: set<int>, s: int)
    requires Packed(rows, a, pk, sdone, gdone) && s in sdone && 0 <= s < |rows.optst|
    requires rows.optst[s] != [] && rows.optst[s][0].0 < -YYFLAG
    ensures pk.indgo[s] > YYFLAG
  {
    assert ShiftIn(rows, a, pk, s) && ShiftCell(a, pk, pk.indgo[s], rows.optst[s][0]);
  }

  /** Where the goto is the default, no cell that would be read first belongs to the row. */
  lemma DefaultNotShadowed(rows: Rows, a: seq<int>, pk: Packing, sdone: set<int>, gdone: set<int>,
                           n: int, col: seq<int>, s: int)
    requires RowsOk(rows) && Packed(rows, a, pk, sdone, gdone)
    requires 1 <= n < |rows.yypgo| && RowOf(col, rows.yypgo[n])
    requires 0 <= s < |col| && col[s] == rows.yypgo[n].default
    requires 0 <= pk.pgo[n] + s + 1 < |a| && a[pk.pgo[n] + s + 1] != 0
    ensures IsState(rows, a[pk.pgo[n] + s + 1]) && rows.chk[a[pk.pgo[n] + s + 1]] != -n
  {
    var x, row := pk.pgo[n] + s + 1, rows.yypgo[n];
    var v := a[x];
    assert Origin(rows, pk, sdone, gdone, x, a[x]);
    var s' := OriginCases(rows, pk, sdone, gdone, x, v);
    assert (s, v) !in row.entries;
  }

  /** A goto row that stands is read right, unless it is row 1000, whose check value is also that of state 0. */
  lemma PlacedGotoFound(rows: Rows, a: seq<int>, pk: Packing, sdone: set<int>, gdone: set<int>, n: int, col: seq<int>,
                        s: int)
    requires RowsOk(rows) && Packed(rows, a, pk, sdone, gdone) && 0 <= pk.maxa < |a| && n in gdone && n != -YYFLAG
    requires 1 <= n < |rows.yypgo| && RowOf(col, rows.yypgo[n]) && 0 <= s < |col| && col[s] != 0
    requires TablesOk(Written(rows, a, pk))
    ensures GotoLookup(Written(rows, a, pk), n, s) == col[s]
  {
    var row, g := rows.yypgo[n], pk.pgo[n];
    assert GotoIn(rows, a, pk, n) && GoRowOk(rows, row, n);
    var x := g + s + 1;
    if col[s] != row.default {
      assert (s, col[s]) in row.entries;
      var r :| 0 <= r < |row.entries| && row.entries[r] == (s, col[s]);
      assert ShiftCell(a, pk, g + 1, row.entries[r]);
    } else if x <= pk.maxa && a[x] != 0 {
      DefaultNotShadowed(rows, a, pk, sdone, gdone, n, col, s);
    }
  }

  /** Whatever a nonzero cell holds, its nonterminal's row stands. */
  lemma CellOfPlaced(rows: Rows, a: seq<int>, pk: Packing, sdone: set<int>, gdone: set<int>, x: int, n: int)
    requires RowsOk(rows) && Packed(rows, a, pk, sdone, gdone) && 0 <= x < |a| && a[x] != 0 && n >= 1
    ensures IsState(rows, a[x]) && (rows.chk[a[x]] == -n ==> n in gdone)
  {
    assert Origin(rows, pk, sdone, gdone, x, a[x]);
    var s := OriginCases(rows, pk, sdone, gdone, x, a[x]);
  }

  /** The states a row leads to are entered on its nonterminal. */
  lemma ColumnCheck(rows: Rows, n: int, col: seq<int>, s: int)
    requires RowsOk(rows) && 1 <= n < |rows.yypgo| && RowOf(col, rows.yypgo[n]) && 0 <= s < |col| && col[s] != 0
    ensures IsState(rows, col[s]) && rows.chk[col[s]] == -n
  {
    var row := rows.yypgo[n];
    assert GoRowOk(rows, row, n);
    if col[s] != row.default {
      var r :| 0 <= r < |row.entries| && row.entries[r] == (s, col[s]);
    }
  }

  /** Packed gotos are exact: where a state has a goto on n, the lookup finds it iff the row of n stands. Row 1000
      never does. */
  lemma GotosExact(rows: Rows, a: seq<int>, pk: Packing, sdone: set<int>, gdone: set<int>, n: int, col: seq<int>,
                   s: int)
    requires RowsOk(rows) && Packed(rows, a, pk, sdone, gdone) && 0 <= pk.maxa < |a| && -YYFLAG !in gdone
    requires 1 <= n < |rows.yypgo| && RowOf(col, rows.yypgo[n]) && 0 <= s < |col| && col[s] != 0
    ensures TablesOk(Written(rows, a, pk))
    ensures GotoLookup(Written(rows, a, pk), n, s) == col[s] <==> n in gdone
  {
    WrittenOk(rows, a, pk, sdone, gdone);
    if n in gdone {
      PlacedGotoFound(rows, a, pk, sdone, gdone, n, col, s);
    } else {
      ColumnCheck(rows, n, col, s);
      forall x | 0 <= x <= pk.maxa ensures a[x] != col[s] {
        if a[x] != 0 { CellOfPlaced(rows, a, pk, sdone, gdone, x, n); }
      }
    }
  }
}
