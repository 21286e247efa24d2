/** `apack`: first-fit packing of a state's goto row into the shared action memory. */
module GotoPack {

  /** Every nonzero entry of row is found at base plus its index. */
  predicate Stored(a: seq<int>, base: int, row: seq<int>) {
    forall k :: 0 <= k < |row| && row[k] != 0 ==> 0 <= base + k < |a| && a[base + k] == row[k]
  }

  /** a' keeps every nonzero cell of a. */
  predicate Keeps(a: seq<int>, a': seq<int>) {
    |a| == |a'| && forall x :: 0 <= x < |a| && a[x] != 0 ==> a'[x] == a[x]
  }

  /** One call after another: each keeps what is in use and stores its own row. */
  predicate Calls(arrays: seq<seq<int>>, offs: seq<int>, rows: seq<seq<int>>) {
    && |arrays| == |rows| + 1 && |offs| == |rows|
    && (forall k :: 0 <= k < |rows| ==> Keeps(arrays[k], arrays[k + 1]) && Stored(arrays[k + 1], offs[k], rows[k]))
  }

  /** Whatever is packed later, every row packed so far is still found at its offset. */
  lemma {:induction false} NeverLost(arrays: seq<seq<int>>, offs: seq<int>, rows: seq<seq<int>>, i: nat, j: nat)
    requires Calls(arrays, offs, rows) && i < j < |arrays|
    ensures Stored(arrays[j], offs[i], rows[i])
    decreases j
  {
    if i + 1 < j {
      NeverLost(arrays, offs, rows, i, j - 1);
      assert Keeps(arrays[j - 1], arrays[j - 1 + 1]);
    }
  }

  /** Row q fits at rr: each nonzero entry meets a free cell or its own value. */
  predicate Fits(a: seq<int>, rr: int, q: seq<int>) {
    0 <= rr && rr + |q| <= |a| &&
    forall k :: 0 <= k < |q| && q[k] != 0 ==> a[rr + k] == 0 || a[rr + k] == q[k]
  }

  method FitsAt(amem: array<int>, rr: int, q: seq<int>) returns (fits: bool)
    requires 0 <= rr && rr + |q| <= amem.Length
    ensures fits == Fits(amem[..], rr, q)
  {
    var qq := rr;
    var pp := 0;
    while pp < |q|
      invariant 0 <= pp <= |q| && qq == rr + pp
      invariant forall k :: 0 <= k < pp && q[k] != 0 ==> amem[rr + k] == 0 || amem[rr + k] == q[k]
    {
      if q[pp] != 0 {
        if q[pp] != amem[qq] && amem[qq] != 0 {
          assert amem[..][rr + pp] == amem[qq];
          return false;
        }
      }
      qq := qq + 1;
      pp := pp + 1;
    }
    return true;
  }

  method Fill(amem: array<int>, rr: int, q: seq<int>)
    requires Fits(amem[..], rr, q)
    modifies amem
    ensures Keeps(old(amem[..]), amem[..]) && Stored(amem[..], rr, q)
    ensures forall x :: 0 <= x < amem.Length && !(rr <= x < rr + |q|) ==> amem[x] == old(amem[x])
    ensures forall k :: 0 <= k < |q| && q[k] == 0 ==> amem[rr + k] == old(amem[rr + k])
  {
    ghost var a := amem[..];
    var qq := rr;
    var pp := 0;
    while pp < |q|
      invariant 0 <= pp <= |q| && qq == rr + pp
      invariant forall x :: 0 <= x < amem.Length && !(rr <= x < qq) ==> amem[x] == a[x]
      invariant forall k :: 0 <= k < pp ==> amem[rr + k] == if q[k] != 0 then q[k] else a[rr + k]
    {
      if q[pp] != 0 {
        amem[qq] := q[pp];
      }
      qq := qq + 1;
      pp := pp + 1;
    }
    forall x | 0 <= x < amem.Length && a[x] != 0 ensures amem[x] == a[x] {
      if rr <= x < rr + |q| {
        var k := x - rr;
        assert amem[rr + k] == if q[k] != 0 then q[k] else a[rr + k];
        assert q[k] != 0 ==> a[rr + k] == 0 || a[rr + k] == q[k];
      }
    }
  }

  /** The row between its first and last nonzero entries starts -off cells in. */
  method Trim(p: seq<int>) returns (off: int, q: seq<int>)
    ensures off <= 0 && -off + |q| <= |p| && q == p[-off..-off + |q|]
    ensures forall k :: 0 <= k < |p| && p[k] != 0 ==> -off <= k < -off + |q|
    ensures q == [] <==> forall k :: 0 <= k < |p| ==> p[k] == 0
    ensures q != [] ==> q[0] != 0 && q[|q| - 1] != 0
  {
    var n := |p| - 1;
    off := 0;
    var pp := 0;
    while pp <= n && p[pp] == 0
      invariant 0 <= pp <= |p| && off == -pp
      invariant forall k :: 0 <= k < pp ==> p[k] == 0
    {
      off := off - 1;
      pp := pp + 1;
    }
    if pp > n {
      return off, [];
    }
    while n > pp && p[n] == 0
      invariant pp <= n < |p|
      invariant forall k :: n < k < |p| ==> p[k] == 0
    {
      n := n - 1;
    }
    q := p[pp..n + 1];
  }

  /** Some base would take the row without touching a cell another row uses. */
  predicate Room(a: seq<int>, base: int, p: seq<int>) {
    forall k :: 0 <= k < |p| && p[k] != 0 ==> 0 <= base + k < |a| && (a[base + k] == 0 || a[base + k] == p[k])
  }

  /** No base would. */
  ghost predicate NoneFits(a: seq<int>, p: seq<int>) {
    forall base :: !Room(a, base, p)
  }

  lemma RoomFits(a: seq<int>, base: int, p: seq<int>, off: int, q: seq<int>)
    requires Room(a, base, p) && q != []
    requires off <= 0 && -off + |q| <= |p| && q == p[-off..-off + |q|] && q[0] != 0 && q[|q| - 1] != 0
    ensures Fits(a, base - off, q)
  {
    assert p[-off] != 0 && p[-off + |q| - 1] != 0;
    forall k | 0 <= k < |q| && q[k] != 0 ensures a[base - off + k] == 0 || a[base - off + k] == q[k] {
      assert p[-off + k] == q[k];
    }
  }

  /** No cell from u on is in use. */
  predicate FreeFrom(a: seq<int>, u: nat) {
    forall k :: u <= k < |a| ==> a[k] == 0
  }

  /** The lowest place a row fits is not beyond the first cell from which all are free. */
  lemma FilledFree(a: seq<int>, a': seq<int>, rr: nat, q: seq<int>, n: nat)
    requires |a'| == |a| && |q| <= n && (forall x :: 0 <= x < rr ==> !Fits(a, x, q))
    requires forall x :: 0 <= x < |a| && !(rr <= x < rr + |q|) ==> a'[x] == a[x]
    ensures forall u: nat :: FreeFrom(a, u) ==> FreeFrom(a', u + n)
  {
    forall u: nat | FreeFrom(a, u) ensures FreeFrom(a', u + n) {
      assert u + |q| <= |a| ==> Fits(a, u, q);
    }
  }

  /** The row p goes in at the lowest place it fits; the result offset is such that p[k] is at off + k. */
  method APack(amem: array<int>, p: seq<int>) returns (ok: bool, off: int)
    modifies amem
    ensures Keeps(old(amem[..]), amem[..])
    ensures ok ==> Stored(amem[..], off, p)
    ensures !ok ==> amem[..] == old(amem[..]) && NoneFits(amem[..], p)
    ensures forall u: nat :: FreeFrom(old(amem[..]), u) ==> FreeFrom(amem[..], u + |p|)
  {
    var trimmed, q := Trim(p);
    if q == [] {
      return true, 0;
    }
    var r := amem.Length - |q|;
    var rr := 0;
    while rr <= r
      invariant 0 <= rr
      invariant amem[..] == old(amem[..])
      invariant forall x :: 0 <= x < rr ==> !Fits(amem[..], x, q)
    {
      var fits := FitsAt(amem, rr, q);
      if fits {
        Fill(amem, rr, q);
        FilledFree(old(amem[..]), amem[..], rr, q, |p|);
        off := trimmed + rr;
        forall k | 0 <= k < |p| && p[k] != 0 ensures 0 <= off + k < amem.Length && amem[off + k] == p[k] {
          var j := k + trimmed;
          assert q[j] == p[k] && off + k == rr + j;
          assert amem[..][rr + j] == q[j];
        }
        return true, off;
      }
      rr := rr + 1;
    }
    forall base ensures !Room(amem[..], base, p) {
      if Room(amem[..], base, p) {
        RoomFits(amem[..], base, p, trimmed, q);
      }
    }
    return false, 0;
  }
}
