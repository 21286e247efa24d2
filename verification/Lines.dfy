/** The selections godoc builds itself: both meet the Selection contract. */
module Lines {

  import opened Selections

  /** Where the line that is being read at j ends. */
  function LineEnd(text: string, j: nat): (e: nat)
    requires j <= |text|
    ensures j <= e <= |text| && (j < |text| ==> j < e)
    ensures forall k :: j <= k < e - 1 ==> text[k] != '\n'
    ensures e < |text| ==> e > 0 && text[e - 1] == '\n'
    decreases |text| - j
  {
    if j == |text| then j
    else if text[j] == '\n' then j + 1
    else LineEnd(text, j + 1)
  }

  /** The lines of the text from offset i on. */
  function LinesFrom(text: string, i: nat): seq<Segment>
    requires i <= |text|
    decreases |text| - i
  {
    if i == |text| then [] else [Segment(i, LineEnd(text, i))] + LinesFrom(text, LineEnd(text, i))
  }

  /** Lines are a selection that covers the text from i on, each a maximal run up to a newline. */
  lemma {:induction false} LinesMeetContract(text: string, i: nat)
    requires i <= |text| < INFINITY
    ensures SelectionOk(LinesFrom(text, i))
    ensures forall k :: 0 <= k < |LinesFrom(text, i)| ==>
              i <= LinesFrom(text, i)[k].start && LinesFrom(text, i)[k].end <= |text|
    ensures forall x :: i <= x < |text| <==> CoveredBy(LinesFrom(text, i), x)
    decreases |text| - i
  {
    if i < |text| {
      var e := LineEnd(text, i);
      var rest := LinesFrom(text, e);
      LinesMeetContract(text, e);
      var all := LinesFrom(text, i);
      assert all == [Segment(i, e)] + rest;
      forall x ensures CoveredBy(all, x) <==> i <= x < e || CoveredBy(rest, x) {
        if CoveredBy(rest, x) {
          var k :| 0 <= k < |rest| && rest[k].start <= x < rest[k].end;
          assert all[k + 1] == rest[k];
        }
        if i <= x < e { assert all[0].start <= x < all[0].end; }
      }
    }
  }

  /** A line ends at the first newline from its start on, or with the text. */
  lemma {:induction false} LinesAreLines(text: string, i: nat, k: nat)
    requires i <= |text| && k < |LinesFrom(text, i)|
    ensures var s := LinesFrom(text, i)[k];
            && i <= s.start < s.end <= |text|
            && (forall x :: s.start <= x < s.end - 1 ==> text[x] != '\n')
            && (s.end < |text| ==> text[s.end - 1] == '\n')
    decreases k
  {
    if k > 0 { LinesAreLines(text, LineEnd(text, i), k - 1); }
  }

  /** The closure `lineSelection` returns, with the variables it captures. */
  class LineSelection {
    const text: string
    var i: nat
    var j: nat

    ghost predicate Valid()
      reads this
    {
      i == j <= |text|
    }

    /** The lines still to come. */
    ghost function Rest(): seq<Segment>
      reads this
      requires Valid()
    {
      LinesFrom(text, i)
    }

    constructor (t: string)
      ensures text == t && Valid() && Rest() == LinesFrom(t, 0)
    {
      text, i, j := t, 0, 0;
    }

    /** A call returns the next line, and empty segments once there is none. */
    method Call() returns (seg: Segment)
      requires Valid()
      modifies this
      ensures Valid()
      ensures old(Rest()) != [] ==> [seg] + Rest() == old(Rest())
      ensures old(Rest()) == [] ==> seg.IsEmpty() && Rest() == []
    {
      seg := Segment(0, 0);
      while j < |text|
        invariant i <= j <= |text| && i == old(i)
        invariant LineEnd(text, j) == LineEnd(text, i)
        invariant forall k :: i <= k < j ==> text[k] != '\n'
      {
        j := j + 1;
        if text[j - 1] == '\n' {
          break;
        }
      }
      if i < j {
        seg := Segment(i, j);
        i := j;
      }
    }
  }

  /** The non-empty pairs from index i on. */
  function PairsFrom(matches: seq<(int, int)>, i: nat): seq<Segment>
    requires i <= |matches|
    decreases |matches| - i
  {
    if i == |matches| then []
    else
      var (from, to) := matches[i];
      (if from < to then [Segment(from, to)] else []) + PairsFrom(matches, i + 1)
  }

  /** Non-overlapping matches in order, as a regular expression search returns them, some of them empty. */
  predicate MatchesOk(matches: seq<(int, int)>) {
    && (forall k :: 0 <= k < |matches| ==> 0 <= matches[k].0 <= matches[k].1 < INFINITY)
    && (forall j, k :: 0 <= j < k < |matches| ==> matches[j].1 <= matches[k].0)
  }

  /** s is one of the non-empty matches from index i on. */
  predicate IsMatch(matches: seq<(int, int)>, i: nat, s: Segment) {
    s.start < s.end && exists k :: i <= k < |matches| && matches[k] == (s.start, s.end)
  }

  lemma {:induction false} PairsAreMatches(matches: seq<(int, int)>, i: nat, s: Segment)
    requires i <= |matches|
    ensures s in PairsFrom(matches, i) <==> IsMatch(matches, i, s)
    decreases |matches| - i
  {
    if i < |matches| { PairsAreMatches(matches, i + 1, s); }
  }

  /** What makeSelection iterates over meets the contract: it is the non-empty matches, in order. */
  lemma {:induction false} PairsMeetContract(matches: seq<(int, int)>, i: nat)
    requires i <= |matches| && MatchesOk(matches)
    ensures SelectionOk(PairsFrom(matches, i))
    decreases |matches| - i
  {
    if i < |matches| {
      PairsMeetContract(matches, i + 1);
      var rest := PairsFrom(matches, i + 1);
      if matches[i].0 < matches[i].1 {
        forall k | 0 <= k < |rest| ensures matches[i].1 <= rest[k].start {
          PairsAreMatches(matches, i + 1, rest[k]);
        }
        FirstThenRest(Segment(matches[i].0, matches[i].1), rest);
      }
    }
  }

  lemma FirstThenRest(s: Segment, rest: seq<Segment>)
    requires SelectionOk(rest) && 0 <= s.start < s.end < INFINITY && forall k :: 0 <= k < |rest| ==>
              s.end <= rest[k].start
    ensures SelectionOk([s] + rest)
  {
  }

  /** The closure `makeSelection` returns. */
  class MatchSelection {
    const matches: seq<(int, int)>
    var i: nat

    ghost predicate Valid()
      reads this
    {
      i <= |matches|
    }

    ghost function Rest(): seq<Segment>
      reads this
      requires Valid()
    {
      PairsFrom(matches, i)
    }

    constructor (ms: seq<(int, int)>)
      ensures matches == ms && Valid() && Rest() == PairsFrom(ms, 0)
    {
      matches, i := ms, 0;
    }

    method Call() returns (seg: Segment)
      requires Valid()
      modifies this
      ensures Valid()
      ensures old(Rest()) != [] ==> [seg] + Rest() == old(Rest())
      ensures old(Rest()) == [] ==> seg.IsEmpty() && Rest() == []
    {
      while i < |matches|
        invariant i <= |matches| && Rest() == old(Rest())
      {
        var m := matches[i];
        i := i + 1;
        if m.0 < m.1 {
          return Segment(m.0, m.1);
        }
      }
      return Segment(0, 0);
    }
  }
}
