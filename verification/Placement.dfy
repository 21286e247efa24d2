/** `nxti` and `callopt`: the order in which rows are placed, and which are. */
module Placement {
  import opened GotoPack
  import opened GotoColumns
  import opened TablePack
  import opened Packer

  // ---------------------------------------------------------------- weights

  /** The greatest first component of a row, 0 for none. */
  function MaxFirst(row: seq<(int, int)>): (j: int)
    ensures j >= 0 && forall r :: 0 <= r < |row| ==> row[r].0 <= j
    ensures j == 0 || exists r :: 0 <= r < |row| && row[r].0 == j
  {
    if row == [] then 0
    else
      var n := |row| - 1;
      var j := MaxFirst(row[..n]);
      assert forall r :: 0 <= r < n ==> row[..n][r] == row[r];
      assert row[n].0 == row[n].0;
      if row[n].0 > j then row[n].0 else j
  }

  function ShiftWeight(row: seq<(int, int)>): int { 2 * |row| + 2 * MaxFirst(row) }

  function GotoWeight(row: GoRow): int { 1 + 2 * |row.entries| + 2 * MaxFirst(row.entries) }

  /** A row as the vector of numbers the source keeps: index and entry in turn. */
  function Vector(row: seq<(int, int)>): seq<int> {
    if row == [] then [] else Vector(row[..|row| - 1]) + [row[|row| - 1].0, row[|row| - 1].1]
  }

  lemma {:induction false} VectorIs(row: seq<(int, int)>)
    ensures |Vector(row)| == 2 * |row|
    ensures forall r :: 0 <= r < |row| ==> Vector(row)[2 * r] == row[r].0 && Vector(row)[2 * r + 1] == row[r].1
    decreases |row|
  {
    if row != [] { VectorIs(row[..|row| - 1]); }
  }

  /** The weight of a row is the length of its vector and twice its greatest index; a goto row's has its default at
      the end. */
  lemma WeightIs(row: seq<(int, int)>, go: GoRow)
    ensures ShiftWeight(row) == |Vector(row)| + 2 * MaxFirst(row)
    ensures GotoWeight(go) == |Vector(go.entries) + [go.default]| + 2 * MaxFirst(go.entries)
  {
    VectorIs(row);
    VectorIs(go.entries);
  }

  method MaxIndex(row: seq<(int, int)>) returns (j: int)
    ensures j == MaxFirst(row)
  {
    j := 0;
    var p := 0;
    while p < |row|
      invariant 0 <= p <= |row| && j == MaxFirst(row[..p])
    {
      assert row[..p + 1][..p] == row[..p];
      if row[p].0 > j {
        j := row[p].0;
      }
      p := p + 1;
    }
    assert row[..p] == row;
  }

  /** The first loop of `callopt`. */
  method ShiftWeights(optst: seq<seq<(int, int)>>) returns (sgreed: seq<int>, maxoff: int)
    ensures |sgreed| == |optst| && forall s :: 0 <= s < |optst| ==> sgreed[s] == ShiftWeight(optst[s])
    ensures forall s :: 0 <= s < |optst| && optst[s] != [] ==> optst[s][0].0 <= maxoff
  {
    sgreed, maxoff := [], 0;
    var i := 0;
    while i < |optst|
      invariant 0 <= i <= |optst| && |sgreed| == i && forall s :: 0 <= s < i ==> sgreed[s] == ShiftWeight(optst[s])
      invariant forall s :: 0 <= s < i && optst[s] != [] ==> optst[s][0].0 <= maxoff
    {
      var j := MaxIndex(optst[i]);
      if optst[i] != [] && optst[i][0].0 > maxoff {
        maxoff := optst[i][0].0;
      }
      sgreed := sgreed + [2 * |optst[i]| + 2 * j];
      i := i + 1;
    }
  }

  /** The second loop of `callopt`. */
  method GotoWeights(yypgo: seq<GoRow>, maxoff: int) returns (ggreed: seq<int>, maxoff': int)
    requires |yypgo| >= 1
    ensures |ggreed| == |yypgo| && ggreed[0] == 0 && forall n :: 1 <= n < |yypgo| ==> ggreed[n] == GotoWeight(yypgo[n])
    ensures maxoff' >= maxoff
  {
    ggreed, maxoff' := [0], maxoff;
    var i := 1;
    while i < |yypgo|
      invariant 1 <= i <= |yypgo| && |ggreed| == i && ggreed[0] == 0 && maxoff' >= maxoff
      invariant forall n :: 1 <= n < i ==> ggreed[n] == GotoWeight(yypgo[n])
    {
      var j := MaxIndex(yypgo[i].entries);
      ggreed := ggreed + [1 + 2 * |yypgo[i].entries| + 2 * j];
      if j > maxoff' {
        maxoff' := j;
      }
      i := i + 1;
    }
  }

  // ---------------------------------------------------------------- the order of placing

  /** What `nxti` returns: a state number, or minus a nonterminal number; the value for "no more" is also that of
      nonterminal 1000. */
  const NOMORE := -1000

  /** Row i: a shift row with something to place, or a goto row. */
  predicate IsRow(rows: Rows, i: int) {
    if i >= 0 then i < |rows.optst| && rows.optst[i] != [] else -i < |rows.yypgo|
  }

  function Weight(rows: Rows, i: int): int
    requires IsRow(rows, i)
  {
    if i >= 0 then ShiftWeight(rows.optst[i]) else GotoWeight(rows.yypgo[-i])
  }

  /** Row i is placed before row j: the heavier first; of equals the states, and the higher numbers, first. */
  predicate Ahead(rows: Rows, i: int, j: int)
    requires IsRow(rows, i) && IsRow(rows, j)
  {
    || Weight(rows, i) > Weight(rows, j)
    || (Weight(rows, i) == Weight(rows, j) && if i >= 0 then i > j else j < 0 && i < j)
  }

  predicate Stands(i: int, sdone: set<int>, gdone: set<int>) {
    if i >= 0 then i in sdone else -i in gdone
  }

  /** What is left has its weight, what is done or empty has none. */
  ghost predicate Weighted(rows: Rows, ggreed: seq<int>, sgreed: seq<int>, sdone: set<int>, gdone: set<int>) {
    && |sgreed| == |rows.optst| && |ggreed| == |rows.yypgo| && |ggreed| >= 1 && ggreed[0] == 0
    && (forall s :: 0 <= s < |sgreed| ==> sgreed[s] == if s in sdone then 0 else ShiftWeight(rows.optst[s]))
    && (forall n :: 1 <= n < |ggreed| ==> ggreed[n] == if n in gdone then 0 else GotoWeight(rows.yypgo[n]))
  }

  /** Row i is the next one: nothing left is ahead of it. */
  ghost predicate IsNext(rows: Rows, sdone: set<int>, gdone: set<int>, i: int) {
    && IsRow(rows, i) && !Stands(i, sdone, gdone)
    && forall j :: IsRow(rows, j) && !Stands(j, sdone, gdone) && j != i ==> Ahead(rows, i, j)
  }

  ghost predicate NothingLeft(rows: Rows, sdone: set<int>, gdone: set<int>) {
    forall i :: IsRow(rows, i) ==> Stands(i, sdone, gdone)
  }

  predicate AllZero(greed: seq<int>) {
    forall k :: 0 <= k < |greed| ==> greed[k] == 0
  }

  /** Number i has the greatest weight, the last such among its kind, the states preferred. */
  predicate IsTop(ggreed: seq<int>, sgreed: seq<int>, i: int) {
    if i >= 0 then
      && i < |sgreed| && sgreed[i] > 0
      && (forall k :: 0 <= k < |ggreed| ==> ggreed[k] <= sgreed[i])
      && (forall k :: 0 <= k < |sgreed| ==> sgreed[k] <= sgreed[i] && (k > i ==> sgreed[k] < sgreed[i]))
    else
      && -i < |ggreed| && ggreed[-i] > 0
      && (forall k :: 0 <= k < |ggreed| ==> ggreed[k] <= ggreed[-i] && (k > -i ==> ggreed[k] < ggreed[-i]))
      && (forall k :: 0 <= k < |sgreed| ==> sgreed[k] < ggreed[-i])
  }

  /** `nxti`: the number of greatest weight, or NOMORE when all weights are zero. */
  method NxtI(ggreed: seq<int>, sgreed: seq<int>) returns (maxi: int)
    requires |ggreed| >= 1 && ggreed[0] == 0
    requires (forall k :: 0 <= k < |ggreed| ==> ggreed[k] >= 0) && (forall k :: 0 <= k < |sgreed| ==> sgreed[k] >= 0)
    ensures AllZero(ggreed) && AllZero(sgreed) ==> maxi == NOMORE
    ensures !(AllZero(ggreed) && AllZero(sgreed)) ==> IsTop(ggreed, sgreed, maxi)
  {
    var max := 0;
    maxi := 0;
    var i := 1;
    while i < |ggreed|
      invariant 1 <= i <= |ggreed| && max >= 0 && maxi <= 0
      invariant forall k :: 0 <= k < i ==> ggreed[k] <= max
      invariant max > 0 ==> 1 <= -maxi < i && ggreed[-maxi] == max && forall k :: -maxi < k < i ==> ggreed[k] < max
    {
      if ggreed[i] >= max {
        max := ggreed[i];
        maxi := -i;
      }
      i := i + 1;
    }
    ghost var gmax := max;
    i := 0;
    while i < |sgreed|
      invariant 0 <= i <= |sgreed| && max >= gmax
      invariant forall k :: 0 <= k < i ==> sgreed[k] <= max
      invariant max > 0 && maxi < 0 ==> max == gmax && 1 <= -maxi < |ggreed| && ggreed[-maxi] == max
      invariant max > 0 && maxi < 0 ==> forall k :: -maxi < k < |ggreed| ==> ggreed[k] < max
      invariant max > 0 && maxi < 0 ==> forall k :: 0 <= k < i ==> sgreed[k] < max
      invariant max > 0 && maxi >= 0 ==> maxi < i && sgreed[maxi] == max && forall k :: maxi < k < i ==> sgreed[k] < max
    {
      if sgreed[i] >= max {
        max := sgreed[i];
        maxi := i;
      }
      i := i + 1;
    }
    if max == 0 {
      maxi := NOMORE;
    }
  }

  lemma WeightsCount(rows: Rows, ggreed: seq<int>, sgreed: seq<int>, sdone: set<int>, gdone: set<int>)
    requires Weighted(rows, ggreed, sgreed, sdone, gdone)
    ensures (forall k :: 0 <= k < |ggreed| ==> ggreed[k] >= 0) && (forall k :: 0 <= k < |sgreed| ==> sgreed[k] >= 0)
    ensures AllZero(ggreed) && AllZero(sgreed) ==> NothingLeft(rows, sdone, gdone)
  {
    if AllZero(ggreed) && AllZero(sgreed) {
      forall i | IsRow(rows, i) ensures Stands(i, sdone, gdone) {
        assert i >= 0 ==> sgreed[i] == 0;
        assert i < 0 ==> ggreed[-i] == 0;
      }
    }
  }

  /** The number of greatest weight is the next row. */
  lemma TopIsNext(rows: Rows, ggreed: seq<int>, sgreed: seq<int>, sdone: set<int>, gdone: set<int>, i: int)
    requires Weighted(rows, ggreed, sgreed, sdone, gdone) && IsTop(ggreed, sgreed, i)
    ensures IsNext(rows, sdone, gdone, i)
  {
    assert MaxFirst([]) == 0;
    forall j | IsRow(rows, j) && !Stands(j, sdone, gdone) && j != i ensures Ahead(rows, i, j) {
      assert j >= 0 ==> sgreed[j] == Weight(rows, j);
      assert j < 0 ==> ggreed[-j] == Weight(rows, j);
    }
  }

  // ---------------------------------------------------------------- callopt

  /** What stands was ahead of what does not. */
  ghost predicate InOrder(rows: Rows, sdone: set<int>, gdone: set<int>) {
    forall i, j :: IsRow(rows, i) && IsRow(rows, j) && Stands(i, sdone, gdone) && !Stands(j, sdone, gdone) ==>
      Ahead(rows, i, j)
  }

  /** Every shift row stands below no base that is free for it, but for the base that is the flag. */
  ghost predicate FirstFit(rows: Rows, a: seq<int>, pk: Packing, sdone: set<int>) {
    forall s, n ::
      s in sdone && 0 <= s < |pk.indgo| && s < |rows.optst| && n < pk.indgo[s] && AllFree(a, n, rows.optst[s]) ==>
      n == YYFLAG || n in pk.indgo
  }

  /** The state of `callopt` between two rows. */
  ghost predicate Placing(rows: Rows, a: seq<int>, pk: Packing, sdone: set<int>, gdone: set<int>) {
    && Packed(rows, a, pk, sdone, gdone) && 0 <= pk.maxa < |a|
    && InOrder(rows, sdone, gdone) && FirstFit(rows, a, pk, sdone) && -NOMORE !in gdone
  }

  /** Which rows stand in the end: all of them, or with 1000 nonterminals and more just those ahead of row 1000. */
  ghost predicate Final(rows: Rows, sdone: set<int>, gdone: set<int>) {
    if |rows.yypgo| <= -NOMORE then NothingLeft(rows, sdone, gdone)
    else forall i :: IsRow(rows, i) ==> (Stands(i, sdone, gdone) <==> Ahead(rows, i, NOMORE))
  }

  /** Row i has no place left. */
  ghost predicate NoFit(rows: Rows, a: seq<int>, pk: Packing, i: int)
    requires IsRow(rows, i)
  {
    if i >= 0 then NoBase(a, pk.indgo, rows.optst[i]) else NoPlace(a, |a|, rows.yypgo[-i].entries)
  }

  lemma PlacedNext(rows: Rows, sdone: set<int>, gdone: set<int>, i: int, sdone': set<int>, gdone': set<int>)
    requires InOrder(rows, sdone, gdone) && IsNext(rows, sdone, gdone, i)
    requires sdone' == (if i >= 0 then sdone + {i} else sdone) && gdone' == (if i >= 0 then gdone else gdone + {-i})
    ensures InOrder(rows, sdone', gdone')
  {
    forall x, y | IsRow(rows, x) && IsRow(rows, y) && Stands(x, sdone', gdone') && !Stands(y, sdone', gdone')
      ensures Ahead(rows, x, y)
    {
      assert !Stands(y, sdone, gdone) && y != i;
      assert x == i || Stands(x, sdone, gdone);
    }
  }

  lemma FitKept(rows: Rows, a: seq<int>, a': seq<int>, pk: Packing, pk': Packing, sdone: set<int>, gdone: set<int>,
                i: int)
    requires Packed(rows, a, pk, sdone, gdone) && FirstFit(rows, a, pk, sdone) && Keeps(a, a')
    requires i !in sdone && 0 <= i < |pk.indgo| == |pk'.indgo| && pk'.indgo == pk.indgo[i := pk'.indgo[i]]
    requires NoneBelow(a, pk.indgo, pk'.indgo[i], rows.optst[i])
    ensures FirstFit(rows, a', pk', sdone + {i})
  {
    forall s, n | s in sdone + {i} && 0 <= s < |pk'.indgo| && s < |rows.optst| && n < pk'.indgo[s] &&
                  AllFree(a', n, rows.optst[s])
      ensures n == YYFLAG || n in pk'.indgo
    {
      FreeBefore(a, a', n, rows.optst[s]);
      assert n in pk.indgo || n == YYFLAG;
      if n in pk.indgo && n != YYFLAG {
        var k :| 0 <= k < |pk.indgo| && pk.indgo[k] == n;
        assert k != i && pk'.indgo[k] == n;
      }
    }
  }

  /** What is free now was free before. */
  lemma FreeBefore(a: seq<int>, a': seq<int>, n: int, row: seq<(int, int)>)
    requires Keeps(a, a') && AllFree(a', n, row)
    ensures AllFree(a, n, row)
  {
    forall r | 0 <= r < |row| ensures 0 <= n + row[r].0 < |a| && a[n + row[r].0] == 0 {
      assert a'[n + row[r].0] == 0;
    }
  }

  lemma FitKeptByGoto(rows: Rows, a: seq<int>, a': seq<int>, pk: Packing, pk': Packing, sdone: set<int>)
    requires FirstFit(rows, a, pk, sdone) && Keeps(a, a') && pk'.indgo == pk.indgo
    ensures FirstFit(rows, a', pk', sdone)
  {
    forall s, n | s in sdone && 0 <= s < |pk'.indgo| && s < |rows.optst| && n < pk'.indgo[s] &&
                  AllFree(a', n, rows.optst[s])
      ensures n == YYFLAG || n in pk'.indgo
    {
      FreeBefore(a, a', n, rows.optst[s]);
    }
  }

  /** The loop ends at NOMORE: with nothing left, or at row 1000. */
  lemma Stopped(rows: Rows, sdone: set<int>, gdone: set<int>)
    requires InOrder(rows, sdone, gdone) && -NOMORE !in gdone
    requires NothingLeft(rows, sdone, gdone) || IsNext(rows, sdone, gdone, NOMORE)
    ensures Final(rows, sdone, gdone)
  {
    if |rows.yypgo| > -NOMORE {
      assert IsRow(rows, NOMORE) && !Stands(NOMORE, sdone, gdone);
      forall i | IsRow(rows, i) ensures Stands(i, sdone, gdone) <==> Ahead(rows, i, NOMORE) {
      }
    }
  }

  /** Place the next row. */
  method PlaceRow(rows: Rows, amem: array<int>, pk: Packing, i: int, maxoff: int, ghost sdone: set<int>,
                  ghost gdone: set<int>)
    returns (ok: bool, pk': Packing, ghost sdone': set<int>, ghost gdone': set<int>)
    requires RowsOk(rows) && Placing(rows, amem[..], pk, sdone, gdone) && IsNext(rows, sdone, gdone, i) && i != NOMORE
    requires forall s :: 0 <= s < |rows.optst| && rows.optst[s] != [] ==> rows.optst[s][0].0 <= maxoff
    modifies amem
    ensures ok ==> Placing(rows, amem[..], pk', sdone', gdone')
    ensures ok ==> sdone' == (if i >= 0 then sdone + {i} else sdone)
    ensures ok ==> gdone' == (if i >= 0 then gdone else gdone + {-i})
    ensures !ok ==> pk' == pk && sdone' == sdone && gdone' == gdone
    ensures !ok ==> Placing(rows, amem[..], pk, sdone, gdone) && NoFit(rows, amem[..], pk, i)
  {
    ghost var a := amem[..];
    sdone', gdone' := sdone, gdone;
    if i >= 0 {
      ok, pk' := StIn(rows, amem, pk, i, maxoff, sdone, gdone);
      if ok {
        sdone' := sdone + {i};
        FitKept(rows, a, amem[..], pk, pk', sdone, gdone, i);
      }
    } else {
      ok, pk' := GIn(rows, amem, pk, -i, sdone, gdone);
      if ok {
        gdone' := gdone + {-i};
        FitKeptByGoto(rows, a, amem[..], pk, pk', sdone);
      }
    }
    if ok { PlacedNext(rows, sdone, gdone, i, sdone', gdone'); }
  }

  /** The pick of `nxti` among the rows that are left. */
  method Pick(ghost rows: Rows, ggreed: seq<int>, sgreed: seq<int>, ghost sdone: set<int>, ghost gdone: set<int>)
    returns (i: int)
    requires Weighted(rows, ggreed, sgreed, sdone, gdone)
    ensures if NothingLeft(rows, sdone, gdone) then i == NOMORE else IsNext(rows, sdone, gdone, i)
  {
    WeightsCount(rows, ggreed, sgreed, sdone, gdone);
    i := NxtI(ggreed, sgreed);
    if !(AllZero(ggreed) && AllZero(sgreed)) {
      TopIsNext(rows, ggreed, sgreed, sdone, gdone, i);
    }
  }

  ghost function Left(greed: seq<int>): set<int> {
    set i | 0 <= i < |greed| && greed[i] > 0
  }

  lemma TakeOne(greed: seq<int>, i: int)
    requires 0 <= i < |greed| && greed[i] > 0
    ensures Left(greed[i := 0]) < Left(greed)
  {
    assert i in Left(greed) && i !in Left(greed[i := 0]);
  }

  lemma NothingPlaced(rows: Rows, a: seq<int>, pk: Packing)
    requires RowsOk(rows) && |pk.indgo| == |rows.optst| && |pk.pgo| == |rows.yypgo| && 0 <= pk.maxa < |a|
    requires (forall s :: 0 <= s < |pk.indgo| ==> pk.indgo[s] == YYFLAG)
    requires (forall n :: 0 <= n < |pk.pgo| ==> pk.pgo[n] == 0)
    requires forall x :: 0 <= x < |a| ==> a[x] == 0
    ensures Placing(rows, a, pk, {}, {})
  {
  }

  /** The weights `callopt` starts with. */
  method Weights(rows: Rows) returns (ggreed: seq<int>, sgreed: seq<int>, maxoff: int)
    requires RowsOk(rows)
    ensures Weighted(rows, ggreed, sgreed, {}, {})
    ensures forall s :: 0 <= s < |rows.optst| && rows.optst[s] != [] ==> rows.optst[s][0].0 <= maxoff
  {
    sgreed, maxoff := ShiftWeights(rows.optst);
    ggreed, maxoff := GotoWeights(rows.yypgo, maxoff);
  }

  /** The loop of `callopt` between two rounds: i is the row `nxti` has picked. */
  ghost predicate Working(rows: Rows, a: seq<int>, pk: Packing, ggreed: seq<int>, sgreed: seq<int>, i: int,
                          sdone: set<int>, gdone: set<int>) {
    && Placing(rows, a, pk, sdone, gdone) && Weighted(rows, ggreed, sgreed, sdone, gdone)
    && if NothingLeft(rows, sdone, gdone) then i == NOMORE else IsNext(rows, sdone, gdone, i)
  }

  /** A placed row loses its weight. */
  method Spend(ghost rows: Rows, ggreed: seq<int>, sgreed: seq<int>, i: int, ghost sdone: set<int>,
               ghost gdone: set<int>)
    returns (ggreed': seq<int>, sgreed': seq<int>)
    requires Weighted(rows, ggreed, sgreed, sdone, gdone) && IsRow(rows, i) && !Stands(i, sdone, gdone)
    ensures var sdone' := if i >= 0 then sdone + {i} else sdone;
            var gdone' := if i >= 0 then gdone else gdone + {-i};
            Weighted(rows, ggreed', sgreed', sdone', gdone')
    ensures Left(sgreed') < Left(sgreed) || (sgreed' == sgreed && Left(ggreed') < Left(ggreed))
  {
    ggreed', sgreed' := ggreed, sgreed;
    if i >= 0 {
      TakeOne(sgreed, i);
      sgreed' := sgreed[i := 0];
    } else {
      TakeOne(ggreed, -i);
      ggreed' := ggreed[-i := 0];
    }
  }

  /** One round of the loop: place row i, and pick the next. */
  method Round(rows: Rows, amem: array<int>, pk: Packing, ggreed: seq<int>, sgreed: seq<int>, i: int, maxoff: int,
               ghost sdone: set<int>, ghost gdone: set<int>)
    returns (ok: bool, pk': Packing, ggreed': seq<int>, sgreed': seq<int>, i': int,
             ghost sdone': set<int>, ghost gdone': set<int>)
    requires RowsOk(rows) && Working(rows, amem[..], pk, ggreed, sgreed, i, sdone, gdone) && i != NOMORE
    requires forall s :: 0 <= s < |rows.optst| && rows.optst[s] != [] ==> rows.optst[s][0].0 <= maxoff
    modifies amem
    ensures ok ==> Working(rows, amem[..], pk', ggreed', sgreed', i', sdone', gdone')
    ensures ok ==> Left(sgreed') < Left(sgreed) || (sgreed' == sgreed && Left(ggreed') < Left(ggreed))
    ensures !ok ==> Placing(rows, amem[..], pk', sdone', gdone') && i' == i && IsNext(rows, sdone', gdone', i)
    ensures !ok ==> NoFit(rows, amem[..], pk', i)
  {
    ggreed', sgreed', i' := ggreed, sgreed, i;
    ok, pk', sdone', gdone' := PlaceRow(rows, amem, pk, i, maxoff, sdone, gdone);
    if ok {
      ggreed', sgreed' := Spend(rows, ggreed, sgreed, i, sdone, gdone);
      i' := Pick(rows, ggreed', sgreed', sdone', gdone');
    }
  }

  /** `callopt`: clear the array, then place rows in order of weight until `nxti` says there are no more. */
  method CallOpt(rows: Rows, amem: array<int>)
    returns (ok: bool, pk: Packing, i: int, ghost sdone: set<int>, ghost gdone: set<int>)
    requires RowsOk(rows) && amem.Length > 0
    modifies amem
    ensures Placing(rows, amem[..], pk, sdone, gdone)
    ensures ok ==> Final(rows, sdone, gdone)
    ensures !ok ==> i != NOMORE && IsNext(rows, sdone, gdone, i) && NoFit(rows, amem[..], pk, i)
  {
    var ggreed, sgreed, maxoff := Weights(rows);
    forall x | 0 <= x < amem.Length {
      amem[x] := 0;
    }
    pk := Packing(seq(|rows.optst|, _ => YYFLAG), seq(|rows.yypgo|, _ => 0), 0);
    sdone, gdone := {}, {};
    NothingPlaced(rows, amem[..], pk);
    i := Pick(rows, ggreed, sgreed, sdone, gdone);
    ok := true;
    while i != NOMORE
      invariant Working(rows, amem[..], pk, ggreed, sgreed, i, sdone, gdone) && ok
      decreases Left(sgreed), Left(ggreed)
    {
      ok, pk, ggreed, sgreed, i, sdone, gdone := Round(rows, amem, pk, ggreed, sgreed, i, maxoff, sdone, gdone);
      if !ok {
        return;
      }
    }
    Stopped(rows, sdone, gdone);
  }

  /** Everything is placed iff there are fewer than 1000 nonterminals. */
  lemma AllPlacedIff(rows: Rows, sdone: set<int>, gdone: set<int>)
    requires |rows.yypgo| >= 1 && Final(rows, sdone, gdone)
    ensures NothingLeft(rows, sdone, gdone) <==> |rows.yypgo| <= -NOMORE
  {
    if |rows.yypgo| > -NOMORE {
      assert IsRow(rows, NOMORE) && !Ahead(rows, NOMORE, NOMORE);
    }
  }

  /** With fewer than 1000 nonterminals, all goto rows stand and all shift rows that are not empty. */
  lemma AllStand(rows: Rows, a: seq<int>, pk: Packing, sdone: set<int>, gdone: set<int>)
    requires Packed(rows, a, pk, sdone, gdone) && Final(rows, sdone, gdone) && |rows.yypgo| <= -NOMORE
    ensures forall s :: 0 <= s < |rows.optst| ==> (s in sdone <==> rows.optst[s] != [])
    ensures forall n :: 1 <= n < |rows.yypgo| ==> n in gdone
  {
    forall s | 0 <= s < |rows.optst| && rows.optst[s] != [] ensures s in sdone { assert IsRow(rows, s); }
    forall n | 1 <= n < |rows.yypgo| ensures n in gdone {
      var i := -n;
      assert IsRow(rows, i) && Stands(i, sdone, gdone);
    }
  }

  // ---------------------------------------------------------------- two limits that are real

  /** A thousand nonterminals; from both states there is a goto on the last one, to state 1. */
  function ThousandRows(): (rows: Rows)
    ensures rows.optst == [[], []] && rows.chk == [YYFLAG, -1000] && |rows.yypgo| == 1001
    ensures forall n :: 0 <= n < 1001 ==> rows.yypgo[n] == GoRow([], if n == 1000 then 1 else 0)
  {
    Rows([[], []], seq(1001, i => GoRow([], if i == 1000 then 1 else 0)), [YYFLAG, -1000])
  }

  lemma ThousandRowsOk(rows: Rows)
    requires rows == ThousandRows()
    ensures RowsOk(rows) && RowOf([1, 1], rows.yypgo[1000])
    ensures forall i :: IsRow(rows, i) ==> !Ahead(rows, i, NOMORE)
  {
    forall n | 1 <= n < |rows.yypgo| ensures GoRowOk(rows, rows.yypgo[n], n) {
      assert rows.yypgo[n] == GoRow([], if n == 1000 then 1 else 0);
    }
    assert rows.yypgo[1000] == GoRow([], 1);
    assert 1 in [1, 1];
    forall i | IsRow(rows, i) ensures !Ahead(rows, i, NOMORE) {
      assert i < 0 && rows.yypgo[-i].entries == [];
    }
  }

  /** With 1000 nonterminals `callopt` ends without an error and without a place for row 1000, and the parser then
      misses the goto of state 0 on it, which is state 1. */
  method GotoOnThousandFails(amem: array<int>) returns (ok: bool, rows: Rows, pk: Packing)
    requires amem.Length > 0
    modifies amem
    ensures ok && RowsOk(rows) && |rows.yypgo| == 1001 && RowOf([1, 1], rows.yypgo[1000])
    ensures 0 <= pk.maxa < amem.Length && TablesOk(Written(rows, amem[..], pk)) && |pk.pgo| == 1001
    ensures GotoLookup(Written(rows, amem[..], pk), 1000, 0) != 1
  {
    rows := ThousandRows();
    ThousandRowsOk(rows);
    var i;
    ghost var sdone, gdone;
    ok, pk, i, sdone, gdone := CallOpt(rows, amem);
    assert IsRow(rows, NOMORE) && !Stands(NOMORE, sdone, gdone);
    GotosExact(rows, amem[..], pk, sdone, gdone, 1000, [1, 1], 0);
  }

  /** One state shifts token 1001, the other nothing. */
  const HighRows := Rows([[(1001, 1)], []], [GoRow([], 0)], [YYFLAG, 1001])

  lemma HighRowsOk()
    ensures RowsOk(HighRows) && forall i :: IsRow(HighRows, i) <==> i == 0
  {
  }

  /** However the array stands, the first base for the row is -1001, and free unless the row is there. */
  lemma HighBase(a: seq<int>, pk: Packing, sdone: set<int>, gdone: set<int>)
    requires |a| > 0 && Placing(HighRows, a, pk, sdone, gdone)
    ensures 0 in sdone ==> pk.indgo[0] == -1001
    ensures 0 !in sdone ==> AllFree(a, -1001, HighRows.optst[0]) && -1001 !in pk.indgo
  {
    var rows, row := HighRows, HighRows.optst[0];
    assert row == [(1001, 1)] && row[0] == (1001, 1) && rows.optst[1] == [];
    forall s | s in sdone ensures s == 0 { assert ShiftIn(rows, a, pk, s); }
    assert forall n :: n in gdone ==> GotoIn(rows, a, pk, n);
    assert forall n :: n !in gdone;
    assert 0 in sdone ==> ShiftIn(rows, a, pk, 0) && ShiftCell(a, pk, pk.indgo[0], row[0]);
    assert 1 !in sdone && pk.indgo[1] == YYFLAG;
    assert -1001 in pk.indgo <==> pk.indgo[0] == -1001;
    assert AllFree(a, -1001, row) <==> a[0] == 0;
    if a[0] != 0 {
      assert Origin(rows, pk, sdone, gdone, 0, a[0]);
      var s, r :| s in sdone && 0 <= s < |rows.optst| && s < |pk.indgo| && 0 <= r < |rows.optst[s]| &&
        pk.indgo[s] + rows.optst[s][r].0 == 0 && rows.optst[s][r].1 == a[0];
    }
  }

  /** A state whose first token is 1001 is put at base -1001, and the parser then finds none of its shifts. */
  method ShiftOnHighTokenFails(amem: array<int>) returns (ok: bool, pk: Packing)
    requires amem.Length > 0
    modifies amem
    ensures ok && RowsOk(HighRows) && |pk.indgo| == 2 && pk.indgo[0] == -1001
    ensures 0 <= pk.maxa < amem.Length && TablesOk(Written(HighRows, amem[..], pk))
    ensures (1001, 1) in HighRows.optst[0] && ShiftLookup(Written(HighRows, amem[..], pk), 0, 1001) == 0
  {
    HighRowsOk();
    var i;
    ghost var sdone, gdone;
    ok, pk, i, sdone, gdone := CallOpt(HighRows, amem);
    HighBase(amem[..], pk, sdone, gdone);
    assert IsRow(HighRows, 0);
    FoundIffAboveFlag(HighRows, amem[..], pk, sdone, gdone, 0);
  }
}
