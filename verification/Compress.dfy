/** `wract`: an action row becomes a shift row, a default and an exception section. */
module Compress {
  import opened Actions

  /** What the parser does next; Lost is a search that runs off the exception table. */
  datatype Decision = Shift(state: int) | Reduce(prod: int) | Accept | Error | Lost

  predicate IsShift(v: int) {
    v > 0 && v != ACCEPTCODE && v != ERRCODE
  }

  /** What a nonzero entry of an action row says. */
  function Meaning(v: int): Decision {
    if v < 0 then Reduce(-v)
    else if v == ACCEPTCODE then Accept
    else if v == ERRCODE then Error
    else Shift(v)
  }

  // ---------------------------------------------------------------- the parser's reading

  /** The index of the header pair of state s at or after xi. */
  function FindHeader(exca: seq<(int, int)>, s: int, xi: nat): (r: nat)
    requires xi <= |exca|
    ensures xi <= r <= |exca|
    decreases |exca| - xi
  {
    if xi == |exca| || exca[xi] == (-1, s) then xi else FindHeader(exca, s, xi + 1)
  }

  /** A number read from the exception table, or nothing when the scan runs off it. */
  datatype Reading = Nothing | Number(n: int)

  /** The value of the first pair at or after xi that is for t or marks an end. */
  function ScanSection(exca: seq<(int, int)>, t: int, xi: nat): Reading
    requires xi <= |exca|
    decreases |exca| - xi
  {
    if xi == |exca| then Nothing
    else if exca[xi].0 < 0 || exca[xi].0 == t then Number(exca[xi].1)
    else ScanSection(exca, t, xi + 1)
  }

  function ExcaLookup(exca: seq<(int, int)>, s: int, t: int): Reading {
    var h := FindHeader(exca, s, 0);
    if h == |exca| then Nothing else ScanSection(exca, t, h + 1)
  }

  /** How the parser reads the number it ends up with. */
  function Verdict(n: int): Decision {
    if n < 0 then Accept else if n == 0 then Error else Reduce(n)
  }

  /** The decision of state s on token t when no shift applies. */
  function Fallback(defact: int, exca: seq<(int, int)>, s: int, t: int): Decision {
    if defact != -2 then Verdict(defact)
    else
      match ExcaLookup(exca, s, t)
      case Nothing => Lost
      case Number(n) => Verdict(n)
  }

  // ---------------------------------------------------------------- choosing the default

  /** How often v occurs in the row. */
  ghost function Count(row: seq<int>, v: int): nat {
    multiset(row)[v]
  }

  method CountOf(row: seq<int>, v: int) returns (n: nat)
    ensures n == Count(row, v)
  {
    n := 0;
    var p := 0;
    while p < |row|
      invariant 0 <= p <= |row| && n == Count(row[..p], v)
    {
      assert row[..p + 1] == row[..p] + [row[p]];
      if row[p] == v {
        n := n + 1;
      }
      p := p + 1;
    }
    assert row[..p] == row;
  }

  lemma CountPositive(row: seq<int>, v: int)
    ensures Count(row, v) > 0 <==> v in row
  {
    assert v in multiset(row) <==> v in row;
  }

  /** Entry p is a reduction more frequent than any before it. */
  ghost predicate FirstBest(row: seq<int>, p: int) {
    0 <= p < |row| && row[p] < 0 && forall k :: 0 <= k < p && row[k] < 0 ==> Count(row, row[k]) < Count(row, row[p])
  }

  /** No reduction of the row is more frequent, nor as frequent and earlier; 0 means there is no reduction. */
  ghost predicate MostFrequent(row: seq<int>, lastred: int) {
    && lastred >= 0
    && (lastred > 0 ==> exists p :: FirstBest(row, p) && row[p] == -lastred)
    && (forall j :: 0 <= j < |row| && row[j] < 0 ==> lastred > 0 && Count(row, row[j]) <= Count(row, -lastred))
  }

  method ChooseDefault(row: seq<int>) returns (lastred: int)
    ensures MostFrequent(row, lastred)
  {
    lastred := 0;
    var ntimes := 0;
    ghost var p := -1;
    var j := 0;
    while j < |row|
      invariant 0 <= j <= |row| && lastred >= 0
      invariant lastred > 0 ==> FirstBest(row, p) && row[p] == -lastred && ntimes == Count(row, -lastred)
      invariant lastred == 0 ==> ntimes == 0
      invariant forall k :: 0 <= k < j && row[k] < 0 ==> lastred > 0 && Count(row, row[k]) <= ntimes
    {
      if row[j] < 0 && row[j] + lastred != 0 {
        var count := CountOf(row, row[j]);
        CountPositive(row, row[j]);
        assert row[j] in row;
        if count > ntimes {
          lastred, p := -row[j], j;
          ntimes := count;
        }
      }
      j := j + 1;
    }
  }

  // ---------------------------------------------------------------- writing the row

  /** Which number stands for a non-shift entry in the exception table. */
  function ExcaValue(v: int): int {
    if v < 0 then -v else if v == ACCEPTCODE then -1 else 0
  }

  /** A cleared entry needs no pair; any other entry that is not a shift does. */
  predicate NeedsException(v: int, lastred: int) {
    v != 0 && v + lastred != 0 && !IsShift(v)
  }

  /** A shift on t is listed. */
  predicate Shifted(row: seq<int>, t: int, optst: seq<(int, int)>) {
    0 <= t < |row| && (IsShift(row[t]) ==> (t, row[t]) in optst)
  }

  /** An exception on t is listed. */
  predicate Excepted(row: seq<int>, t: int, lastred: int, pairs: seq<(int, int)>) {
    0 <= t < |row| && (NeedsException(row[t], lastred) ==> (t, ExcaValue(row[t])) in pairs)
  }

  /** The pairs are in token order, each pair below n. */
  predicate InTokenOrder(pairs: seq<(int, int)>, n: int) {
    && (forall r :: 0 <= r < |pairs| ==> 0 <= pairs[r].0 < n)
    && (forall r, r' :: 0 <= r < r' < |pairs| ==> pairs[r].0 < pairs[r'].0)
  }

  predicate IsShiftPair(row: seq<int>, e: (int, int)) {
    0 <= e.0 < |row| && IsShift(row[e.0]) && e.1 == row[e.0]
  }

  predicate IsExcaPair(row: seq<int>, lastred: int, e: (int, int)) {
    0 <= e.0 < |row| && NeedsException(row[e.0], lastred) && e.1 == ExcaValue(row[e.0])
  }

  /** Exactly the shifts of row[..n], in token order. */
  ghost predicate ShiftPairs(row: seq<int>, n: int, optst: seq<(int, int)>) {
    && InTokenOrder(optst, n)
    && (forall r :: 0 <= r < |optst| ==> IsShiftPair(row, optst[r]))
    && (forall t :: 0 <= t < n ==> Shifted(row, t, optst))
  }

  /** Exactly the exceptions of row[..n], in token order. */
  ghost predicate ExcaPairs(row: seq<int>, n: int, lastred: int, pairs: seq<(int, int)>) {
    && InTokenOrder(pairs, n)
    && (forall r :: 0 <= r < |pairs| ==> IsExcaPair(row, lastred, pairs[r]))
    && (forall t :: 0 <= t < n ==> Excepted(row, t, lastred, pairs))
  }

  method SplitRow(row: seq<int>, lastred: int) returns (optst: seq<(int, int)>, pairs: seq<(int, int)>)
    requires lastred >= 0
    ensures ShiftPairs(row, |row|, optst) && ExcaPairs(row, |row|, lastred, pairs)
  {
    optst, pairs := [], [];
    var p := 0;
    while p < |row|
      invariant 0 <= p <= |row|
      invariant ShiftPairs(row, p, optst) && ExcaPairs(row, p, lastred, pairs)
    {
      var p1 := if row[p] + lastred == 0 then 0 else row[p];
      ghost var optst0, pairs0 := optst, pairs;
      if p1 != 0 {
        if p1 < 0 {
          pairs := pairs + [(p, -p1)];
        } else if p1 == ACCEPTCODE {
          pairs := pairs + [(p, -1)];
        } else if p1 == ERRCODE {
          pairs := pairs + [(p, 0)];
        } else {
          optst := optst + [(p, p1)];
        }
      }
      ShiftNext(row, p, optst0, optst);
      ExcaNext(row, p, lastred, pairs0, pairs);
      p := p + 1;
    }
  }

  lemma TokenOrderNext(pairs: seq<(int, int)>, n: nat, v: int)
    requires InTokenOrder(pairs, n)
    ensures InTokenOrder(pairs, n + 1) && InTokenOrder(pairs + [(n, v)], n + 1)
  {
  }

  lemma ShiftNext(row: seq<int>, p: nat, optst: seq<(int, int)>, optst': seq<(int, int)>)
    requires p < |row| && ShiftPairs(row, p, optst)
    requires optst' == if IsShift(row[p]) then optst + [(p, row[p])] else optst
    ensures ShiftPairs(row, p + 1, optst')
  {
    TokenOrderNext(optst, p, row[p]);
    forall t | 0 <= t < p + 1 ensures Shifted(row, t, optst') {
      assert t < p ==> Shifted(row, t, optst);
    }
    forall r | 0 <= r < |optst'| ensures IsShiftPair(row, optst'[r]) {
      assert r < |optst| ==> IsShiftPair(row, optst[r]);
    }
  }

  lemma ExcaNext(row: seq<int>, p: nat, lastred: int, pairs: seq<(int, int)>, pairs': seq<(int, int)>)
    requires p < |row| && ExcaPairs(row, p, lastred, pairs)
    requires pairs' == if NeedsException(row[p], lastred) then pairs + [(p, ExcaValue(row[p]))] else pairs
    ensures ExcaPairs(row, p + 1, lastred, pairs')
  {
    TokenOrderNext(pairs, p, ExcaValue(row[p]));
    forall t | 0 <= t < p + 1 ensures Excepted(row, t, lastred, pairs') {
      assert t < p ==> Excepted(row, t, lastred, pairs);
    }
    forall r | 0 <= r < |pairs'| ensures IsExcaPair(row, lastred, pairs'[r]) {
      assert r < |pairs| ==> IsExcaPair(row, lastred, pairs[r]);
    }
  }

  /** The section `wract` writes for state i: nothing, or header, exceptions, default. */
  function Section(i: int, pairs: seq<(int, int)>, lastred: int): seq<(int, int)> {
    if pairs == [] then [] else [(-1, i)] + pairs + [(-2, lastred)]
  }

  /** What the compressed row must say of token t. */
  function Intended(row: seq<int>, lastred: int, t: int): Decision
    requires 0 <= t < |row|
  {
    if row[t] != 0 then Meaning(row[t]) else Verdict(lastred)
  }

  // ---------------------------------------------------------------- reading it back

  lemma {:induction false} FindAt(exca: seq<(int, int)>, s: int, xi: nat, h: nat)
    requires xi <= h < |exca| && exca[h] == (-1, s)
    requires forall k :: xi <= k < h ==> exca[k] != (-1, s)
    ensures FindHeader(exca, s, xi) == h
    decreases h - xi
  {
    if xi < h { FindAt(exca, s, xi + 1, h); }
  }

  lemma {:induction false} ScanTo(exca: seq<(int, int)>, t: int, xi: nat, h: nat)
    requires xi <= h < |exca| && (exca[h].0 < 0 || exca[h].0 == t)
    requires forall k :: xi <= k < h ==> exca[k].0 >= 0 && exca[k].0 != t
    ensures ScanSection(exca, t, xi) == Number(exca[h].1)
    decreases h - xi
  {
    if xi < h { ScanTo(exca, t, xi + 1, h); }
  }

  /** The exception table holds the section of s at cut, and no earlier header of s. */
  ghost predicate Placed(exca: seq<(int, int)>, cut: int, s: int, pairs: seq<(int, int)>, lastred: int) {
    && 0 <= cut && cut + |pairs| + 2 <= |exca|
    && exca[cut] == (-1, s)
    && (forall r :: 0 <= r < |pairs| ==> exca[cut + 1 + r] == pairs[r])
    && exca[cut + 1 + |pairs|] == (-2, lastred)
    && (forall k :: 0 <= k < cut ==> exca[k] != (-1, s))
  }

  lemma ReadPair(exca: seq<(int, int)>, cut: int, s: int, pairs: seq<(int, int)>, lastred: int, t: int, r: nat)
    requires Placed(exca, cut, s, pairs, lastred) && r <= |pairs|
    requires forall k :: 0 <= k < |pairs| ==> pairs[k].0 >= 0
    requires forall k :: 0 <= k < r ==> pairs[k].0 != t
    requires r < |pairs| ==> pairs[r].0 == t
    ensures ExcaLookup(exca, s, t) == Number(if r < |pairs| then pairs[r].1 else lastred)
  {
    FindAt(exca, s, 0, cut);
    forall k | cut + 1 <= k < cut + 1 + r ensures exca[k].0 >= 0 && exca[k].0 != t {
      assert exca[cut + 1 + (k - cut - 1)] == pairs[k - cut - 1];
    }
    ScanTo(exca, t, cut + 1, cut + 1 + r);
  }

  lemma {:induction false} FirstPair(pairs: seq<(int, int)>, t: int) returns (r: nat)
    ensures r <= |pairs| && (forall k :: 0 <= k < r ==> pairs[k].0 != t) && (r < |pairs| ==> pairs[r].0 == t)
    decreases |pairs|
  {
    if pairs == [] || pairs[0].0 == t {
      r := 0;
    } else {
      var q := FirstPair(pairs[1..], t);
      r := q + 1;
      assert forall k :: 1 <= k < r ==> pairs[k] == pairs[1..][k - 1];
    }
  }

  /** State s's default and section together encode the non-shift part of row. */
  ghost predicate Encodes(exca: seq<(int, int)>, s: int, row: seq<int>, lastred: int, defact: int) {
    && lastred >= 0
    && if defact == -2 then
         exists cut, pairs ::
           Placed(exca, cut, s, pairs, lastred) && ExcaPairs(row, |row|, lastred, pairs) && pairs != []
       else
         defact == lastred && forall t :: 0 <= t < |row| ==> !NeedsException(row[t], lastred)
  }

  /** Sections written later do not change what is read. */
  lemma EncodesAppend(exca: seq<(int, int)>, exca': seq<(int, int)>, s: int, row: seq<int>, lastred: int, defact: int)
    requires Encodes(exca, s, row, lastred, defact) && exca <= exca'
    ensures Encodes(exca', s, row, lastred, defact)
  {
    if defact == -2 {
      var cut, pairs: seq<(int, int)> :|
        Placed(exca, cut, s, pairs, lastred) && ExcaPairs(row, |row|, lastred, pairs) && pairs != [];
      assert forall k :: 0 <= k < |exca| ==> exca'[k] == exca[k];
      assert Placed(exca', cut, s, pairs, lastred);
    }
  }

  /** Compression preserves actions: off the shifts, the parser reads back every nonzero entry, and reads the
      default reduction or error where the row had nothing; so it does on a token whose shift it has not found. */
  lemma EncodesDecides(exca: seq<(int, int)>, s: int, row: seq<int>, lastred: int, defact: int, t: int)
    requires Encodes(exca, s, row, lastred, defact) && 0 <= t < |row|
    ensures Fallback(defact, exca, s, t) == if IsShift(row[t]) then Verdict(lastred) else Intended(row, lastred, t)
  {
    if defact == -2 {
      var cut, pairs :| Placed(exca, cut, s, pairs, lastred) && ExcaPairs(row, |row|, lastred, pairs);
      var r := FirstPair(pairs, t);
      ReadPair(exca, cut, s, pairs, lastred, t, r);
      assert Excepted(row, t, lastred, pairs);
      assert r == |pairs| ==> (t, ExcaValue(row[t])) !in pairs;
    }
  }

  /** The row has a shift. */
  predicate HasShift(row: seq<int>) {
    exists t :: 0 <= t < |row| && IsShift(row[t])
  }

  /** The row has an entry that neither a shift nor the default covers. */
  predicate HasException(row: seq<int>, lastred: int) {
    exists t :: 0 <= t < |row| && NeedsException(row[t], lastred)
  }

  /** The default is the mark for exceptions iff there are exceptions. */
  lemma MarkedIffException(exca: seq<(int, int)>, s: int, row: seq<int>, lastred: int, defact: int)
    requires Encodes(exca, s, row, lastred, defact)
    ensures defact == -2 <==> HasException(row, lastred)
    ensures defact != -2 ==> defact == lastred
  {
    if defact == -2 {
      var cut, pairs: seq<(int, int)> :|
        Placed(exca, cut, s, pairs, lastred) && ExcaPairs(row, |row|, lastred, pairs) && pairs != [];
      assert IsExcaPair(row, lastred, pairs[0]);
    }
  }

  lemma ShiftIffPairs(row: seq<int>, optst: seq<(int, int)>)
    requires ShiftPairs(row, |row|, optst)
    ensures HasShift(row) <==> optst != []
  {
    if optst != [] {
      assert IsShiftPair(row, optst[0]);
    } else {
      forall t | 0 <= t < |row| ensures !IsShift(row[t]) { assert Shifted(row, t, optst); }
    }
  }

  /** No header for a state from n on has been written. */
  ghost predicate HeadersBelow(exca: seq<(int, int)>, n: int) {
    forall k :: 0 <= k < |exca| && exca[k].0 == -1 ==> exca[k].1 < n
  }

  lemma SectionPlaced(exca: seq<(int, int)>, i: int, pairs: seq<(int, int)>, lastred: int)
    requires HeadersBelow(exca, i) && pairs != []
    ensures Placed(exca + Section(i, pairs, lastred), |exca|, i, pairs, lastred)
  {
    var sec := Section(i, pairs, lastred);
    assert forall r :: 0 <= r < |pairs| ==> sec[1 + r] == pairs[r];
  }

  /** The default of a row: its most frequent reduction, or none when it shifts `error`. */
  ghost predicate DefaultOf(row: seq<int>, lastred: int) {
    |row| > 2 && if row[2] > 0 then lastred == 0 else MostFrequent(row, lastred)
  }

  /** `wract` for state i, whose action row is `row`: the default is the most frequent reduction, unless the
      state shifts `error`, when the default is the error action. */
  method WrAct(i: nat, row: seq<int>, exca: seq<(int, int)>)
    returns (optst: seq<(int, int)>, defact: int, exca': seq<(int, int)>, lastred: int)
    requires |row| > 2 && HeadersBelow(exca, i)
    ensures DefaultOf(row, lastred)
    ensures ShiftPairs(row, |row|, optst)
    ensures Encodes(exca', i, row, lastred, defact)
    ensures HeadersBelow(exca', i + 1) && exca <= exca'
  {
    lastred := ChooseDefault(row);
    if row[2] > 0 {
      lastred := 0;
    }
    var pairs;
    optst, pairs := SplitRow(row, lastred);
    defact := lastred;
    exca' := exca + Section(i, pairs, lastred);
    if pairs != [] {
      defact := -2;
    }
    SectionEncodes(exca, i, row, pairs, lastred);
  }

  lemma SectionEncodes(exca: seq<(int, int)>, i: int, row: seq<int>, pairs: seq<(int, int)>, lastred: int)
    requires HeadersBelow(exca, i) && lastred >= 0 && ExcaPairs(row, |row|, lastred, pairs)
    ensures Encodes(exca + Section(i, pairs, lastred), i, row, lastred, if pairs == [] then lastred else -2)
    ensures HeadersBelow(exca + Section(i, pairs, lastred), i + 1)
  {
    var exca' := exca + Section(i, pairs, lastred);
    if pairs != [] {
      SectionPlaced(exca, i, pairs, lastred);
      assert Placed(exca', |exca|, i, pairs, lastred);
    } else {
      forall t | 0 <= t < |row| ensures !NeedsException(row[t], lastred) { assert Excepted(row, t, lastred, pairs); }
    }
    forall k | 0 <= k < |exca'| ensures exca'[k].0 == -1 ==> exca'[k].1 < i + 1 {
      if |exca| < k < |exca| + 1 + |pairs| { assert exca'[k] == pairs[k - |exca| - 1]; }
    }
  }
}
