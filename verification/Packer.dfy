/** `stin` and `gin`: placing one row. */
module Packer {
  import opened GotoColumns
  import opened TablePack
  import opened GotoPack

  // ---------------------------------------------------------------- writing a row

  /** a' is a with every pair of row written base cells up, nothing else touched, nothing in use overwritten. */
  ghost predicate RowWritten(a: seq<int>, a': seq<int>, base: int, row: seq<(int, int)>) {
    && Keeps(a, a')
    && (forall r :: 0 <= r < |row| ==> 0 <= base + row[r].0 < |a'| && a'[base + row[r].0] == row[r].1)
    && (forall x :: 0 <= x < |a| ==> a'[x] == a[x] || WrittenAt(base, row, x, a'[x]))
  }

  ghost predicate WrittenAt(base: int, row: seq<(int, int)>, x: int, v: int) {
    exists r :: 0 <= r < |row| && base + row[r].0 == x && row[r].1 == v
  }

  /** Each pair meets a free cell or its own value. */
  predicate CellsFit(a: seq<int>, base: int, row: seq<(int, int)>) {
    forall r :: 0 <= r < |row| ==>
      0 <= base + row[r].0 < |a| && (a[base + row[r].0] == 0 || a[base + row[r].0] == row[r].1)
  }

  predicate Ascending(row: seq<(int, int)>) {
    forall r, r' :: 0 <= r < r' < |row| ==> row[r].0 < row[r'].0
  }

  /** The writing loop that `stin` and `gin` share; maxa follows the highest cell written. */
  method WriteRow(amem: array<int>, base: int, row: seq<(int, int)>, maxa: int) returns (maxa': int)
    requires CellsFit(amem[..], base, row) && Ascending(row)
    modifies amem
    ensures RowWritten(old(amem[..]), amem[..], base, row)
    ensures maxa <= maxa' && (maxa < amem.Length ==> maxa' < amem.Length)
    ensures forall r :: 0 <= r < |row| ==> base + row[r].0 <= maxa'
  {
    ghost var a := amem[..];
    maxa' := maxa;
    var r := 0;
    while r < |row|
      invariant 0 <= r <= |row|
      invariant forall k :: 0 <= k < r ==> amem[base + row[k].0] == row[k].1 && base + row[k].0 <= maxa'
      invariant forall x :: 0 <= x < amem.Length ==> amem[x] == a[x] || WrittenAt(base, row, x, amem[x])
      invariant forall x :: 0 <= x < amem.Length && a[x] != 0 ==> amem[x] == a[x]
      invariant forall k :: r <= k < |row| ==> amem[base + row[k].0] == a[base + row[k].0]
      invariant maxa <= maxa' && (maxa < amem.Length ==> maxa' < amem.Length)
    {
      var s := base + row[r].0;
      if s > maxa' {
        maxa' := s;
      }
      assert amem[s] == 0 || amem[s] == row[r].1;
      amem[s] := row[r].1;
      assert WrittenAt(base, row, s, amem[s]);
      r := r + 1;
    }
  }

  // ---------------------------------------------------------------- placing a shift row

  ghost function PairSet(row: seq<(int, int)>): set<(int, int)> {
    set e | e in row
  }

  lemma {:induction false} DistinctCount(row: seq<(int, int)>)
    requires Ascending(row)
    ensures |PairSet(row)| == |row|
    decreases |row|
  {
    if row != [] {
      var n := |row| - 1;
      DistinctCount(row[..n]);
      assert row == row[..n] + [row[n]];
      assert PairSet(row) == PairSet(row[..n]) + {row[n]};
    }
  }

  lemma SubsetCount(x: set<(int, int)>, y: set<(int, int)>)
    requires x <= y && |x| == |y|
    ensures x == y
  {
    assert |y - x| == |y| - |x|;
  }

  /** Rows in token order with the same pairs are the same. */
  lemma {:induction false} SamePairs(row: seq<(int, int)>, row': seq<(int, int)>)
    requires Ascending(row) && Ascending(row') && forall e :: e in row <==> e in row'
    ensures row == row'
    decreases |row|
  {
    SameLength(row, row');
    if row != [] {
      var n := |row| - 1;
      LastPair(row, row');
      SameFront(row, row');
      SamePairs(row[..n], row'[..n]);
      assert row == row[..n] + [row[n]] && row' == row'[..n] + [row'[n]];
    }
  }

  lemma SameLength(row: seq<(int, int)>, row': seq<(int, int)>)
    requires Ascending(row) && Ascending(row') && forall e :: e in row <==> e in row'
    ensures |row| == |row'|
  {
    DistinctCount(row);
    DistinctCount(row');
    assert PairSet(row) == PairSet(row');
  }

  lemma SameFront(row: seq<(int, int)>, row': seq<(int, int)>)
    requires Ascending(row) && Ascending(row') && |row| == |row'| > 0 && row[|row| - 1] == row'[|row| - 1]
    requires forall e :: e in row <==> e in row'
    ensures var n := |row| - 1;
            && Ascending(row[..n]) && Ascending(row'[..n])
            && forall e :: e in row[..n] <==> e in row'[..n]
  {
    var n := |row| - 1;
    forall e ensures e in row[..n] <==> e in row'[..n] {
      InFront(row, e);
      InFront(row', e);
    }
  }

  lemma LastPair(row: seq<(int, int)>, row': seq<(int, int)>)
    requires Ascending(row) && Ascending(row') && |row| == |row'| > 0 && forall e :: e in row <==> e in row'
    ensures row[|row| - 1] == row'[|row| - 1]
  {
    var n := |row| - 1;
    assert row[n] in row' && row'[n] in row;
    var i :| 0 <= i < |row'| && row'[i] == row[n];
    var j :| 0 <= j < |row| && row[j] == row'[n];
  }

  lemma InFront(row: seq<(int, int)>, e: (int, int))
    requires Ascending(row) && |row| > 0
    ensures e in row[..|row| - 1] <==> e in row && e != row[|row| - 1]
  {
    var n := |row| - 1;
    if e in row && e != row[n] {
      var i :| 0 <= i < |row| && row[i] == e;
      assert row[..n][i] == e;
    }
    if e in row[..n] {
      var i :| 0 <= i < n && row[..n][i] == e;
      assert row[i] == e && row[i].0 < row[n].0;
    }
  }

  lemma SubRow(row: seq<(int, int)>, row': seq<(int, int)>)
    requires Ascending(row) && Ascending(row') && |row| == |row'|
    requires forall e :: e in row ==> e in row'
    ensures row == row'
  {
    DistinctCount(row);
    DistinctCount(row');
    SubsetCount(PairSet(row), PairSet(row'));
    forall e ensures e in row <==> e in row' {
      assert e in PairSet(row) <==> e in PairSet(row');
    }
    SamePairs(row, row');
  }

  /** Every pair of the row is already there. */
  predicate AllThere(a: seq<int>, base: int, row: seq<(int, int)>) {
    forall r :: 0 <= r < |row| ==> 0 <= base + row[r].0 < |a| && a[base + row[r].0] == row[r].1
  }

  /** If every pair of a row is there at the base of a row of the same length, the rows are equal: `stin` may
      share the base. */
  lemma TwinIsEqual(rows: Rows, a: seq<int>, pk: Packing, sdone: set<int>, gdone: set<int>, i: int, j: int)
    requires RowsOk(rows) && Packed(rows, a, pk, sdone, gdone)
    requires 0 <= i < |rows.optst| && j in sdone && 0 <= j < |rows.optst| && pk.indgo[j] != YYFLAG
    requires AllThere(a, pk.indgo[j], rows.optst[i]) && |rows.optst[i]| == |rows.optst[j]|
    ensures rows.optst[i] == rows.optst[j]
  {
    var n := pk.indgo[j];
    assert ShiftRowOk(rows, rows.optst[i]) && ShiftRowOk(rows, rows.optst[j]);
    forall e | e in rows.optst[i] ensures e in rows.optst[j] {
      var r :| 0 <= r < |rows.optst[i]| && rows.optst[i][r] == e;
      var x := n + e.0;
      assert a[x] == e.1;
      assert Origin(rows, pk, sdone, gdone, x, a[x]);
      var s := OriginCases(rows, pk, sdone, gdone, x, e.1);
      assert rows.optst[s] == rows.optst[j];
    }
    SubRow(rows.optst[i], rows.optst[j]);
  }

  // ---------------------------------------------------------------- the invariant is kept

  /** pk' differs from pk by the base of state i and a higher maxa. */
  ghost predicate ShiftAdded(pk: Packing, pk': Packing, i: int) {
    && |pk'.indgo| == |pk.indgo| && 0 <= i < |pk.indgo| && pk'.pgo == pk.pgo && pk.maxa <= pk'.maxa
    && forall s :: 0 <= s < |pk.indgo| && s != i ==> pk'.indgo[s] == pk.indgo[s]
  }

  lemma ShiftInKept(rows: Rows, a: seq<int>, a': seq<int>, pk: Packing, pk': Packing, s: int)
    requires RowsOk(rows) && ShiftIn(rows, a, pk, s) && Keeps(a, a') && pk.maxa <= pk'.maxa
    requires |pk'.indgo| == |pk.indgo| && pk'.indgo[s] == pk.indgo[s]
    ensures ShiftIn(rows, a', pk', s)
  {
    assert ShiftRowOk(rows, rows.optst[s]);
    forall r | 0 <= r < |rows.optst[s]| ensures ShiftCell(a', pk', pk'.indgo[s], rows.optst[s][r]) {
      assert ShiftCell(a, pk, pk.indgo[s], rows.optst[s][r]);
    }
  }

  lemma GotoInKept(rows: Rows, a: seq<int>, a': seq<int>, pk: Packing, pk': Packing, n: int)
    requires RowsOk(rows) && GotoIn(rows, a, pk, n) && Keeps(a, a') && pk.maxa <= pk'.maxa
    requires |pk'.pgo| == |pk.pgo| && pk'.pgo[n] == pk.pgo[n]
    ensures GotoIn(rows, a', pk', n)
  {
    assert GoRowOk(rows, rows.yypgo[n], n);
    forall r | 0 <= r < |rows.yypgo[n].entries| ensures ShiftCell(a', pk', pk'.pgo[n] + 1, rows.yypgo[n].entries[r]) {
      assert ShiftCell(a, pk, pk.pgo[n] + 1, rows.yypgo[n].entries[r]);
    }
  }

  lemma OriginKept(rows: Rows, pk: Packing, pk': Packing, sdone: set<int>, sdone': set<int>, gdone: set<int>,
                   gdone': set<int>, x: int, v: int)
    requires Origin(rows, pk, sdone, gdone, x, v) && pk.maxa <= pk'.maxa
    requires sdone <= sdone' && gdone <= gdone'
    requires |pk'.indgo| == |pk.indgo| && |pk'.pgo| == |pk.pgo|
    requires forall s :: s in sdone && 0 <= s < |pk.indgo| ==> pk'.indgo[s] == pk.indgo[s]
    requires forall n :: n in gdone && 0 <= n < |pk.pgo| ==> pk'.pgo[n] == pk.pgo[n]
    ensures Origin(rows, pk', sdone', gdone', x, v)
  {
    if FromShift(rows, pk, sdone, x, v) {
      var s, r :| s in sdone && 0 <= s < |rows.optst| && s < |pk.indgo| && 0 <= r < |rows.optst[s]| &&
        pk.indgo[s] + rows.optst[s][r].0 == x && rows.optst[s][r].1 == v;
      assert s in sdone' && pk'.indgo[s] + rows.optst[s][r].0 == x;
      assert FromShift(rows, pk', sdone', x, v);
    } else {
      var n :| n in gdone && 1 <= n < |rows.yypgo| && n < |pk.pgo| && FromGoRow(rows.yypgo[n], pk.pgo[n], x, v);
      assert n in gdone' && FromGoRow(rows.yypgo[n], pk'.pgo[n], x, v);
    }
  }

  lemma AddShift(rows: Rows, a: seq<int>, a': seq<int>, pk: Packing, pk': Packing, sdone: set<int>, gdone: set<int>,
                 i: int)
    requires RowsOk(rows) && Packed(rows, a, pk, sdone, gdone) && ShiftAdded(pk, pk', i)
    requires i !in sdone && rows.optst[i] != []
    requires RowWritten(a, a', pk'.indgo[i], rows.optst[i])
    requires forall r :: 0 <= r < |rows.optst[i]| ==> pk'.indgo[i] + rows.optst[i][r].0 <= pk'.maxa
    requires forall j :: j in sdone && pk.indgo[j] == pk'.indgo[i] != YYFLAG ==> rows.optst[j] == rows.optst[i]
    ensures Packed(rows, a', pk', sdone + {i}, gdone)
  {
    forall s | s in sdone + {i} ensures ShiftIn(rows, a', pk', s) {
      if s != i { ShiftInKept(rows, a, a', pk, pk', s); }
    }
    forall n | n in gdone ensures GotoIn(rows, a', pk', n) {
      GotoInKept(rows, a, a', pk, pk', n);
    }
    forall x | 0 <= x < |a'| && a'[x] != 0 ensures Origin(rows, pk', sdone + {i}, gdone, x, a'[x]) {
      AddShiftOrigin(rows, a, a', pk, pk', sdone, gdone, i, x);
    }
  }

  lemma AddShiftOrigin(rows: Rows, a: seq<int>, a': seq<int>, pk: Packing, pk': Packing, sdone: set<int>,
                       gdone: set<int>, i: int, x: int)
    requires RowsOk(rows) && Packed(rows, a, pk, sdone, gdone) && ShiftAdded(pk, pk', i) && i !in sdone
    requires RowWritten(a, a', pk'.indgo[i], rows.optst[i])
    requires forall r :: 0 <= r < |rows.optst[i]| ==> pk'.indgo[i] + rows.optst[i][r].0 <= pk'.maxa
    requires 0 <= x < |a'| && a'[x] != 0
    ensures Origin(rows, pk', sdone + {i}, gdone, x, a'[x])
  {
    if a'[x] == a[x] {
      assert Origin(rows, pk, sdone, gdone, x, a[x]);
      forall s | s in sdone && 0 <= s < |pk.indgo| ensures pk'.indgo[s] == pk.indgo[s] { }
      OriginKept(rows, pk, pk', sdone, sdone + {i}, gdone, gdone, x, a[x]);
    } else {
      var r :| 0 <= r < |rows.optst[i]| && pk'.indgo[i] + rows.optst[i][r].0 == x && rows.optst[i][r].1 == a'[x];
      assert i in sdone + {i};
      assert FromShift(rows, pk', sdone + {i}, x, a'[x]);
    }
  }

  // ---------------------------------------------------------------- stin

  /** A base is refused, overruns the array, or fits with so many free cells. */
  datatype Fit = Refused | Overrun | Fits(free: nat)

  /** The test at the head of `stin`; the source tests s > ACTSIZE and so reads one cell past the end. */
  method TryBase(amem: array<int>, n: int, row: seq<(int, int)>) returns (fit: Fit)
    ensures fit.Fits? <==> CellsFit(amem[..], n, row)
    ensures fit.Fits? && fit.free == 0 ==> AllThere(amem[..], n, row)
    ensures fit.Fits? && fit.free > 0 ==> exists r :: 0 <= r < |row| && amem[n + row[r].0] == 0
    ensures fit.Overrun? ==> exists r :: 0 <= r < |row| && n + row[r].0 == amem.Length
  {
    var flag := 0;
    var r := 0;
    while r < |row|
      invariant 0 <= r <= |row|
      invariant forall k :: 0 <= k < r ==>
                  0 <= n + row[k].0 < amem.Length && (amem[n + row[k].0] == 0 || amem[n + row[k].0] == row[k].1)
      invariant flag == 0 ==> forall k :: 0 <= k < r ==> amem[n + row[k].0] == row[k].1
      invariant flag >= 0 && (flag > 0 ==> exists k :: 0 <= k < r && amem[n + row[k].0] == 0)
    {
      var s := row[r].0 + n;
      if s < 0 || s > amem.Length {
        return Refused;
      }
      if s == amem.Length {
        return Overrun;
      }
      if amem[s] == 0 {
        flag := flag + 1;
      } else if amem[s] != row[r].1 {
        return Refused;
      }
      r := r + 1;
    }
    return Fits(flag);
  }

  /** The first state placed at base n, or -1. */
  method StateAt(indgo: seq<int>, n: int) returns (j: int)
    ensures -1 <= j < |indgo|
    ensures j >= 0 ==> indgo[j] == n
    ensures j == -1 ==> forall k :: 0 <= k < |indgo| ==> indgo[k] != n
  {
    j := 0;
    while j < |indgo|
      invariant 0 <= j <= |indgo| && forall k :: 0 <= k < j ==> indgo[k] != n
    {
      if indgo[j] == n {
        return;
      }
      j := j + 1;
    }
    j := -1;
  }

  /** A row found in place lies in the used part of the array. */
  lemma ThereIsUsed(rows: Rows, a: seq<int>, pk: Packing, sdone: set<int>, gdone: set<int>, i: int, n: int)
    requires RowsOk(rows) && Packed(rows, a, pk, sdone, gdone) && 0 <= i < |rows.optst| && AllThere(a, n, rows.optst[i])
    ensures forall r :: 0 <= r < |rows.optst[i]| ==> n + rows.optst[i][r].0 <= pk.maxa
  {
    assert ShiftRowOk(rows, rows.optst[i]);
    forall r | 0 <= r < |rows.optst[i]| ensures n + rows.optst[i][r].0 <= pk.maxa {
      var x := n + rows.optst[i][r].0;
      assert a[x] != 0;
      assert Origin(rows, pk, sdone, gdone, x, a[x]);
    }
  }

  /** A row found in place takes the base of another state: of its twin, or of an unplaced state at the flag. */
  lemma ShareBase(rows: Rows, a: seq<int>, pk: Packing, sdone: set<int>, gdone: set<int>, i: int, j: int)
    requires RowsOk(rows) && Packed(rows, a, pk, sdone, gdone)
    requires 0 <= i < |rows.optst| && i !in sdone && rows.optst[i] != [] && 0 <= j < |rows.optst|
    requires AllThere(a, pk.indgo[j], rows.optst[i]) && |rows.optst[i]| == |rows.optst[j]|
    ensures Packed(rows, a, pk.(indgo := pk.indgo[i := pk.indgo[j]]), sdone + {i}, gdone)
  {
    var pk' := pk.(indgo := pk.indgo[i := pk.indgo[j]]);
    if pk.indgo[j] != YYFLAG { TwinIsEqual(rows, a, pk, sdone, gdone, i, j); }
    ThereIsUsed(rows, a, pk, sdone, gdone, i, pk.indgo[j]);
    AddShift(rows, a, a, pk, pk', sdone, gdone, i);
  }

  predicate AllFree(a: seq<int>, base: int, row: seq<(int, int)>) {
    forall r :: 0 <= r < |row| ==> 0 <= base + row[r].0 < |a| && a[base + row[r].0] == 0
  }

  /** Below `to`, the row's cells are all free only at bases that are taken. */
  ghost predicate NoneBelow(a: seq<int>, indgo: seq<int>, to: int, row: seq<(int, int)>) {
    forall n :: n < to && AllFree(a, n, row) ==> n in indgo
  }

  /** No base is left for the row. */
  ghost predicate NoBase(a: seq<int>, indgo: seq<int>, row: seq<(int, int)>) {
    forall n :: AllFree(a, n, row) ==> n in indgo
  }

  /** No base below the search has room. */
  lemma SearchStart(a: seq<int>, indgo: seq<int>, maxoff: int, row: seq<(int, int)>)
    requires row != [] && row[0].0 <= maxoff
    ensures NoneBelow(a, indgo, -maxoff, row)
  {
    forall n | AllFree(a, n, row) ensures n >= -maxoff {
      assert 0 <= n + row[0].0;
    }
  }

  /** A base whose row reaches the end of the array is followed only by such bases. */
  lemma Overruns(a: seq<int>, indgo: seq<int>, n: int, row: seq<(int, int)>, r: int)
    requires NoneBelow(a, indgo, n, row) && 0 <= r < |row| && n + row[r].0 >= |a|
    ensures NoBase(a, indgo, row)
  {
    forall m | AllFree(a, m, row) ensures m in indgo {
      assert m + row[r].0 < |a|;
    }
  }

  /** What `stin` does at base n, whose cells are free or right. */
  method TakeBase(rows: Rows, amem: array<int>, pk: Packing, i: nat, n: int, free: nat,
                  ghost sdone: set<int>, ghost gdone: set<int>)
    returns (taken: bool, pk': Packing)
    requires RowsOk(rows) && Packed(rows, amem[..], pk, sdone, gdone) && pk.maxa < amem.Length
    requires i < |rows.optst| && i !in sdone && rows.optst[i] != []
    requires CellsFit(amem[..], n, rows.optst[i]) && (free == 0 ==> AllThere(amem[..], n, rows.optst[i]))
    modifies amem
    ensures taken ==> Packed(rows, amem[..], pk', sdone + {i}, gdone) && pk.maxa <= pk'.maxa < amem.Length
    ensures taken ==> pk'.indgo == pk.indgo[i := n] && Keeps(old(amem[..]), amem[..])
    ensures !taken ==> amem[..] == old(amem[..]) && n in pk.indgo
  {
    ghost var a := amem[..];
    pk' := pk;
    var j := StateAt(pk.indgo, n);
    if j >= 0 {
      taken := free == 0 && |rows.optst[i]| == |rows.optst[j]|;
      if taken {
        ShareBase(rows, a, pk, sdone, gdone, i, j);
        pk' := pk.(indgo := pk.indgo[i := n]);
      }
      return;
    }
    assert ShiftRowOk(rows, rows.optst[i]);
    var maxa := WriteRow(amem, n, rows.optst[i], pk.maxa);
    pk' := Packing(pk.indgo[i := n], pk.pgo, maxa);
    AddShift(rows, a, amem[..], pk, pk', sdone, gdone, i);
    taken := true;
  }

  /** `stin`: place shift row i at the first base that fits, sharing a base only with an equal row. */
  method StIn(rows: Rows, amem: array<int>, pk: Packing, i: nat, maxoff: int, ghost sdone: set<int>,
              ghost gdone: set<int>)
    returns (ok: bool, pk': Packing)
    requires RowsOk(rows) && Packed(rows, amem[..], pk, sdone, gdone) && pk.maxa < amem.Length
    requires i < |rows.optst| && i !in sdone && rows.optst[i] != [] && rows.optst[i][0].0 <= maxoff
    modifies amem
    ensures ok ==> Packed(rows, amem[..], pk', sdone + {i}, gdone) && pk.maxa <= pk'.maxa < amem.Length
    ensures ok ==> |pk'.indgo| == |pk.indgo| && pk'.indgo == pk.indgo[i := pk'.indgo[i]]
    ensures ok ==> Keeps(old(amem[..]), amem[..])
    ensures ok ==> NoneBelow(old(amem[..]), pk.indgo, pk'.indgo[i], rows.optst[i])
    ensures !ok ==> pk' == pk && amem[..] == old(amem[..]) && NoBase(amem[..], pk.indgo, rows.optst[i])
  {
    ghost var a := amem[..];
    pk' := pk;
    var n := -maxoff;
    SearchStart(a, pk.indgo, maxoff, rows.optst[i]);
    while n < amem.Length
      invariant amem[..] == a && NoneBelow(a, pk.indgo, n, rows.optst[i])
    {
      var fit := TryBase(amem, n, rows.optst[i]);
      if fit.Overrun? {
        ghost var r :| 0 <= r < |rows.optst[i]| && n + rows.optst[i][r].0 == |a|;
        Overruns(a, pk.indgo, n, rows.optst[i], r);
        return false, pk;
      }
      if fit.Fits? {
        var taken;
        taken, pk' := TakeBase(rows, amem, pk, i, n, fit.free, sdone, gdone);
        if taken {
          return true, pk';
        }
      }
      n := n + 1;
    }
    assert ShiftRowOk(rows, rows.optst[i]);
    Overruns(a, pk.indgo, n, rows.optst[i], 0);
    return false, pk;
  }

  // ---------------------------------------------------------------- gin

  lemma AddGoto(rows: Rows, a: seq<int>, a': seq<int>, pk: Packing, pk': Packing, sdone: set<int>, gdone: set<int>,
                i: int)
    requires RowsOk(rows) && Packed(rows, a, pk, sdone, gdone) && i !in gdone && 1 <= i < |rows.yypgo|
    requires pk'.indgo == pk.indgo && |pk'.pgo| == |pk.pgo| && pk.maxa <= pk'.maxa
    requires forall n :: 0 <= n < |pk.pgo| && n != i ==> pk'.pgo[n] == pk.pgo[n]
    requires Keeps(a, a') && GotoIn(rows, a', pk', i)
    requires forall x :: 0 <= x < |a| ==>
              a'[x] == a[x] || (x <= pk'.maxa && FromGoRow(rows.yypgo[i], pk'.pgo[i], x, a'[x]))
    ensures Packed(rows, a', pk', sdone, gdone + {i})
  {
    forall s | s in sdone ensures ShiftIn(rows, a', pk', s) {
      ShiftInKept(rows, a, a', pk, pk', s);
    }
    forall n | n in gdone + {i} ensures GotoIn(rows, a', pk', n) {
      if n != i { GotoInKept(rows, a, a', pk, pk', n); }
    }
    forall x | 0 <= x < |a'| && a'[x] != 0 ensures Origin(rows, pk', sdone, gdone + {i}, x, a'[x]) {
      AddGotoOrigin(rows, a, a', pk, pk', sdone, gdone, i, x);
    }
  }

  lemma AddGotoOrigin(rows: Rows, a: seq<int>, a': seq<int>, pk: Packing, pk': Packing, sdone: set<int>,
                      gdone: set<int>, i: int, x: int)
    requires RowsOk(rows) && Packed(rows, a, pk, sdone, gdone) && i !in gdone && 1 <= i < |rows.yypgo|
    requires pk'.indgo == pk.indgo && |pk'.pgo| == |pk.pgo| && pk.maxa <= pk'.maxa
    requires forall n :: 0 <= n < |pk.pgo| && n != i ==> pk'.pgo[n] == pk.pgo[n]
    requires |a'| == |a| && 0 <= x < |a| && a'[x] != 0
    requires a'[x] == a[x] || (x <= pk'.maxa && FromGoRow(rows.yypgo[i], pk'.pgo[i], x, a'[x]))
    ensures Origin(rows, pk', sdone, gdone + {i}, x, a'[x])
  {
    if a'[x] == a[x] {
      assert Origin(rows, pk, sdone, gdone, x, a[x]);
      OriginKept(rows, pk, pk', sdone, sdone, gdone, gdone + {i}, x, a[x]);
    } else {
      assert i in gdone + {i};
    }
  }

  /** The cells a goto row needs above its default. */
  predicate CellsFree(a: seq<int>, p: int, entries: seq<(int, int)>) {
    forall r :: 0 <= r < |entries| ==> 0 <= p + 1 + entries[r].0 < |a| && a[p + 1 + entries[r].0] == 0
  }

  /** The inner loop of `gin`; maxa rises even for a place that is then given up. */
  method TryPlace(amem: array<int>, p: nat, entries: seq<(int, int)>, maxa: int)
    returns (ok: bool, free: bool, maxa': int)
    requires forall r :: 0 <= r < |entries| ==> entries[r].0 >= 0
    requires maxa < amem.Length
    ensures maxa <= maxa' && (ok ==> maxa' < amem.Length)
    ensures ok ==> (free <==> CellsFree(amem[..], p, entries))
    ensures !ok ==> exists r :: 0 <= r < |entries| && p + 1 + entries[r].0 >= amem.Length
  {
    ok, free, maxa' := true, true, maxa;
    var r := 0;
    while r < |entries|
      invariant 0 <= r <= |entries| && maxa <= maxa' < amem.Length
      invariant forall k :: 0 <= k < r ==> p + 1 + entries[k].0 < amem.Length && amem[p + 1 + entries[k].0] == 0
    {
      var s := p + entries[r].0 + 1;
      if s > maxa' {
        maxa' := s;
        if maxa' >= amem.Length {
          return false, false, maxa';
        }
      }
      if amem[s] != 0 {
        return true, false, maxa';
      }
      r := r + 1;
    }
  }

  /** The default at p, the entries behind it. */
  method WriteGotoCells(amem: array<int>, row: GoRow, p: nat, maxa: int) returns (maxa': int)
    requires p < amem.Length && CellsFree(amem[..], p, row.entries) && Ascending(row.entries)
    requires (forall r :: 0 <= r < |row.entries| ==> row.entries[r].0 >= 0) && maxa < amem.Length
    modifies amem
    ensures RowWritten(old(amem[..])[p := row.default], amem[..], p + 1, row.entries)
    ensures maxa <= maxa' < amem.Length && p <= maxa'
    ensures forall r :: 0 <= r < |row.entries| ==> p + 1 + row.entries[r].0 <= maxa'
  {
    ghost var a := amem[..];
    amem[p] := row.default;
    ghost var a1 := amem[..];
    assert a1 == a[p := row.default];
    FreeFits(a, a1, p, row.entries);
    maxa' := WriteRow(amem, p + 1, row.entries, if p > maxa then p else maxa);
  }

  /** Write a goto row whose cells are free. */
  method WriteGoto(rows: Rows, amem: array<int>, pk: Packing, i: nat, p: nat, maxa: int, ghost sdone: set<int>,
                   ghost gdone: set<int>)
    returns (pk': Packing)
    requires RowsOk(rows) && Packed(rows, amem[..], pk, sdone, gdone) && 1 <= i < |rows.yypgo| && i !in gdone
    requires p < amem.Length && amem[p] == 0 && CellsFree(amem[..], p, rows.yypgo[i].entries)
    requires pk.maxa <= maxa < amem.Length
    modifies amem
    ensures Packed(rows, amem[..], pk', sdone, gdone + {i}) && pk.maxa <= pk'.maxa < amem.Length
    ensures pk'.indgo == pk.indgo && Keeps(old(amem[..]), amem[..])
  {
    ghost var a := amem[..];
    var row := rows.yypgo[i];
    assert GoRowOk(rows, row, i);
    var maxa' := WriteGotoCells(amem, row, p, maxa);
    pk' := Packing(pk.indgo, pk.pgo[i := p], maxa');
    GotoWritten(rows, a, a[p := row.default], amem[..], pk, pk', i, p);
    AddGoto(rows, a, amem[..], pk, pk', sdone, gdone, i);
  }

  lemma FreeFits(a: seq<int>, a1: seq<int>, p: nat, entries: seq<(int, int)>)
    requires CellsFree(a, p, entries) && |a1| == |a| && (forall r :: 0 <= r < |entries| ==> entries[r].0 >= 0)
    requires forall x :: 0 <= x < |a| && x != p ==> a1[x] == a[x]
    ensures CellsFit(a1, p + 1, entries)
  {
  }

  lemma GotoWrittenCells(row: GoRow, a: seq<int>, a1: seq<int>, a2: seq<int>, p: int, x: int)
    requires 0 <= p < |a| && a1 == a[p := row.default] && RowWritten(a1, a2, p + 1, row.entries)
    requires 0 <= x < |a| && a2[x] != a[x]
    ensures FromGoRow(row, p, x, a2[x])
    ensures x == p || exists r :: 0 <= r < |row.entries| && p + 1 + row.entries[r].0 == x
  {
    if a2[x] != a1[x] {
      assert WrittenAt(p + 1, row.entries, x, a2[x]);
      var r :| 0 <= r < |row.entries| && p + 1 + row.entries[r].0 == x && row.entries[r].1 == a2[x];
    }
  }

  lemma GotoWrittenIn(rows: Rows, a1: seq<int>, a2: seq<int>, pk': Packing, i: int, p: int)
    requires 1 <= i < |rows.yypgo| == |pk'.pgo| && 0 <= p < |a1| && a1[p] == rows.yypgo[i].default
    requires RowWritten(a1, a2, p + 1, rows.yypgo[i].entries) && pk'.pgo[i] == p && p <= pk'.maxa
    requires forall r :: 0 <= r < |rows.yypgo[i].entries| ==> p + 1 + rows.yypgo[i].entries[r].0 <= pk'.maxa
    ensures GotoIn(rows, a2, pk', i)
  {
    var row := rows.yypgo[i];
    forall r | 0 <= r < |row.entries| ensures ShiftCell(a2, pk', pk'.pgo[i] + 1, row.entries[r]) {
      assert a2[p + 1 + row.entries[r].0] == row.entries[r].1;
    }
  }

  lemma GotoWritten(rows: Rows, a: seq<int>, a1: seq<int>, a2: seq<int>, pk: Packing, pk': Packing, i: int, p: int)
    requires RowsOk(rows) && 1 <= i < |rows.yypgo| == |pk.pgo| && 0 <= p < |a| && a[p] == 0
    requires a1 == a[p := rows.yypgo[i].default] && RowWritten(a1, a2, p + 1, rows.yypgo[i].entries)
    requires pk'.pgo == pk.pgo[i := p] && p <= pk'.maxa
    requires forall r :: 0 <= r < |rows.yypgo[i].entries| ==> p + 1 + rows.yypgo[i].entries[r].0 <= pk'.maxa
    ensures Keeps(a, a2) && GotoIn(rows, a2, pk', i)
    ensures forall x :: 0 <= x < |a| ==> a2[x] == a[x] || (x <= pk'.maxa && FromGoRow(rows.yypgo[i], p, x, a2[x]))
  {
    GotoWrittenIn(rows, a1, a2, pk', i, p);
    forall x | 0 <= x < |a| && a2[x] != a[x] ensures x <= pk'.maxa && FromGoRow(rows.yypgo[i], p, x, a2[x]) {
      GotoWrittenCells(rows.yypgo[i], a, a1, a2, p, x);
    }
    forall x | 0 <= x < |a| && a[x] != 0 ensures a2[x] == a[x] {
      assert a1[x] == a[x];
    }
  }

  /** No place below `to` has the cells for a default and its entries free. */
  predicate NoPlace(a: seq<int>, to: int, entries: seq<(int, int)>) {
    forall p :: 0 <= p < to && p < |a| && a[p] == 0 ==> !CellsFree(a, p, entries)
  }

  lemma NextPlace(a: seq<int>, p: nat, entries: seq<(int, int)>)
    requires NoPlace(a, p, entries) && p < |a| && (a[p] == 0 ==> !CellsFree(a, p, entries))
    ensures NoPlace(a, p + 1, entries)
  {
  }

  lemma GotoOverruns(a: seq<int>, p: nat, entries: seq<(int, int)>)
    requires NoPlace(a, p, entries) && exists r :: 0 <= r < |entries| && p + 1 + entries[r].0 >= |a|
    ensures NoPlace(a, |a|, entries)
  {
    var r :| 0 <= r < |entries| && p + 1 + entries[r].0 >= |a|;
    forall q | p <= q < |a| ensures !CellsFree(a, q, entries) { assert q + 1 + entries[r].0 >= |a|; }
  }

  /** The search of `gin`: the first free cell with the cells of the entries free behind it. */
  method FindPlace(amem: array<int>, entries: seq<(int, int)>, maxa0: int) returns (ok: bool, p: nat, maxa: int)
    requires maxa0 < amem.Length && forall r :: 0 <= r < |entries| ==> entries[r].0 >= 0
    ensures ok ==> p < amem.Length && amem[p] == 0 && CellsFree(amem[..], p, entries) && maxa0 <= maxa < amem.Length
    ensures ok ==> NoPlace(amem[..], p, entries)
    ensures !ok ==> NoPlace(amem[..], amem.Length, entries)
  {
    p, maxa := 0, maxa0;
    while p < amem.Length
      invariant 0 <= p && maxa0 <= maxa < amem.Length && NoPlace(amem[..], p, entries)
    {
      if amem[p] == 0 {
        var free;
        ok, free, maxa := TryPlace(amem, p, entries, maxa);
        if !ok {
          GotoOverruns(amem[..], p, entries);
          return;
        }
        if free {
          return;
        }
      }
      NextPlace(amem[..], p, entries);
      p := p + 1;
    }
    ok := false;
  }

  /** `gin`: place the goto row of nonterminal i, default first, where every cell it needs is free. */
  method GIn(rows: Rows, amem: array<int>, pk: Packing, i: nat, ghost sdone: set<int>, ghost gdone: set<int>)
    returns (ok: bool, pk': Packing)
    requires RowsOk(rows) && Packed(rows, amem[..], pk, sdone, gdone) && pk.maxa < amem.Length
    requires 1 <= i < |rows.yypgo| && i !in gdone
    modifies amem
    ensures ok ==> Packed(rows, amem[..], pk', sdone, gdone + {i}) && pk.maxa <= pk'.maxa < amem.Length
    ensures ok ==> pk'.indgo == pk.indgo && Keeps(old(amem[..]), amem[..])
    ensures !ok ==> pk' == pk && amem[..] == old(amem[..]) && NoPlace(amem[..], amem.Length, rows.yypgo[i].entries)
  {
    pk' := pk;
    assert GoRowOk(rows, rows.yypgo[i], i);
    var p, maxa;
    ok, p, maxa := FindPlace(amem, rows.yypgo[i].entries, pk.maxa);
    if ok {
      pk' := WriteGoto(rows, amem, pk, i, p, maxa, sdone, gdone);
    }
  }
}
