/** How large an array suffices for `callopt`. */
module Capacity {
  import opened TablePack
  import opened Packer
  import opened Placement

  // ---------------------------------------------------------------- numbers clear of some others

  /** The n numbers from lo on. */
  ghost function Span(lo: int, n: nat): set<int> {
    if n == 0 then {} else Span(lo, n - 1) + {lo + n - 1}
  }

  lemma {:induction false} SpanIs(lo: int, n: nat)
    ensures |Span(lo, n)| == n && forall x :: x in Span(lo, n) <==> lo <= x < lo + n
  {
    if n > 0 { SpanIs(lo, n - 1); }
  }

  /** n times k, by addition. */
  function Times(n: nat, k: nat): nat {
    if n == 0 then 0 else Times(n - 1, k) + k
  }

  lemma {:induction false} TimesIs(n: nat, k: nat)
    ensures Times(n, k) == n * k
  {
    if n > 0 { TimesIs(n - 1, k); }
  }

  lemma {:induction false} TimesGrows(n: nat, k: nat, n': nat, k': nat)
    requires n <= n' && k <= k'
    ensures Times(n, k) <= Times(n', k')
    decreases n + n'
  {
    if n < n' {
      TimesGrows(n, k, n' - 1, k');
    } else if n > 0 {
      TimesGrows(n - 1, k, n' - 1, k');
    }
  }

  /** The numbers nearer than w to one of the first n bases. */
  ghost function Near(bases: seq<int>, n: nat, w: nat): set<int>
    requires n <= |bases|
  {
    if n == 0 then {} else Near(bases, n - 1, w) + Span(bases[n - 1] - w, 2 * w)
  }

  lemma {:induction false} NearIs(bases: seq<int>, n: nat, w: nat)
    requires n <= |bases|
    ensures |Near(bases, n, w)| <= Times(n, 2 * w)
    ensures forall k :: 0 <= k < n ==> Span(bases[k] - w, 2 * w) <= Near(bases, n, w)
  {
    if n > 0 {
      NearIs(bases, n - 1, w);
      SpanIs(bases[n - 1] - w, 2 * w);
    }
  }

  lemma {:induction false} NoMore<T>(s: set<T>, t: set<T>)
    requires s <= t
    ensures |s| <= |t|
  {
    if s != {} {
      var x :| x in s;
      NoMore(s - {x}, t - {x});
    }
  }

  lemma OneMore(s: set<int>, t: set<int>) returns (x: int)
    requires |s| > |t|
    ensures x in s && x !in t
  {
    if forall y :: y in s ==> y in t { NoMore(s, t); }
    x :| x in s && x !in t;
  }

  /** Some number, not a large one, is clear of all bases. */
  lemma ClearSpot(bases: seq<int>, w: nat) returns (n: nat)
    ensures n <= Times(|bases|, 2 * w)
    ensures forall k :: 0 <= k < |bases| ==> !(bases[k] - w <= n < bases[k] + w)
  {
    var size := Times(|bases|, 2 * w) + 1;
    SpanIs(0, size);
    NearIs(bases, |bases|, w);
    n := OneMore(Span(0, size), Near(bases, |bases|, w));
    forall k | 0 <= k < |bases| ensures !(bases[k] - w <= n < bases[k] + w) {
      SpanIs(bases[k] - w, 2 * w);
      assert n !in Span(bases[k] - w, 2 * w);
    }
  }

  // ---------------------------------------------------------------- room for a row

  /** No row reaches w cells beyond its base. */
  ghost predicate Narrow(rows: Rows, w: nat) {
    && (forall s, r :: 0 <= s < |rows.optst| && 0 <= r < |rows.optst[s]| ==> rows.optst[s][r].0 < w)
    && (forall n, r :: 1 <= n < |rows.yypgo| && 0 <= r < |rows.yypgo[n].entries| ==> rows.yypgo[n].entries[r].0 + 1 < w)
  }

  /** A cell in use is near the base of the row it belongs to. */
  lemma UsedIsNear(rows: Rows, a: seq<int>, pk: Packing, sdone: set<int>, gdone: set<int>, w: nat, x: int)
    returns (k: int)
    requires RowsOk(rows) && Packed(rows, a, pk, sdone, gdone) && Narrow(rows, w) && w > 0
    requires 0 <= x < |a| && a[x] != 0
    ensures 0 <= k < |pk.indgo + pk.pgo| && (pk.indgo + pk.pgo)[k] <= x < (pk.indgo + pk.pgo)[k] + w
  {
    assert Origin(rows, pk, sdone, gdone, x, a[x]);
    if FromShift(rows, pk, sdone, x, a[x]) {
      k := ShiftNear(rows, pk, sdone, w, x, a[x]);
    } else {
      var n := GotoNear(rows, pk, gdone, w, x, a[x]);
      k := |pk.indgo| + n;
    }
  }

  lemma ShiftNear(rows: Rows, pk: Packing, sdone: set<int>, w: nat, x: int, v: int) returns (s: int)
    requires RowsOk(rows) && Narrow(rows, w) && FromShift(rows, pk, sdone, x, v)
    ensures 0 <= s < |pk.indgo| && pk.indgo[s] <= x < pk.indgo[s] + w
  {
    var r;
    s, r :| s in sdone && 0 <= s < |rows.optst| && s < |pk.indgo| && 0 <= r < |rows.optst[s]| &&
      pk.indgo[s] + rows.optst[s][r].0 == x && rows.optst[s][r].1 == v;
    assert ShiftRowOk(rows, rows.optst[s]);
  }

  lemma GotoNear(rows: Rows, pk: Packing, gdone: set<int>, w: nat, x: int, v: int) returns (n: int)
    requires RowsOk(rows) && Narrow(rows, w) && w > 0 && FromGoto(rows, pk, gdone, x, v)
    ensures 0 <= n < |pk.pgo| && pk.pgo[n] <= x < pk.pgo[n] + w
  {
    n :| n in gdone && 1 <= n < |rows.yypgo| && n < |pk.pgo| && FromGoRow(rows.yypgo[n], pk.pgo[n], x, v);
    assert GoRowOk(rows, rows.yypgo[n], n);
  }

  /** w cells in a row are free, at a base that no state has. */
  lemma FreeWindow(rows: Rows, a: seq<int>, pk: Packing, sdone: set<int>, gdone: set<int>, w: nat) returns (n: nat)
    requires RowsOk(rows) && Packed(rows, a, pk, sdone, gdone) && Narrow(rows, w) && w > 0
    requires |a| > Times(|pk.indgo| + |pk.pgo|, 2 * w) + w
    ensures n + w <= |a| && n !in pk.indgo && forall x :: n <= x < n + w ==> a[x] == 0
  {
    var bases := pk.indgo + pk.pgo;
    n := ClearSpot(bases, w);
    forall x | n <= x < n + w ensures a[x] == 0 {
      if a[x] != 0 { var k := UsedIsNear(rows, a, pk, sdone, gdone, w, x); }
    }
    assert forall k :: 0 <= k < |pk.indgo| ==> pk.indgo[k] == bases[k];
  }

  /** In an array of this size every row finds a place. */
  lemma RoomEnough(rows: Rows, a: seq<int>, pk: Packing, sdone: set<int>, gdone: set<int>, w: nat, n: nat,
                   i: int)
    requires RowsOk(rows) && Packed(rows, a, pk, sdone, gdone) && Narrow(rows, w) && w > 0 && IsRow(rows, i)
    requires n == |pk.indgo| + |pk.pgo| && |a| > Times(n, 2 * w) + w
    ensures !NoFit(rows, a, pk, i)
  {
    var p := FreeWindow(rows, a, pk, sdone, gdone, w);
    if i >= 0 {
      assert ShiftRowOk(rows, rows.optst[i]);
      assert AllFree(a, p, rows.optst[i]);
    } else {
      assert GoRowOk(rows, rows.yypgo[-i], -i);
      assert CellsFree(a, p, rows.yypgo[-i].entries);
    }
  }
}
