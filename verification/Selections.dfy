/** godoc's FormatSelections: a sweep over segment changes with delayed writing. */
module Selections {

  const INFINITY := 2_000_000_000

  datatype Segment = Segment(start: int, end: int) {
    predicate IsEmpty() { start >= end }
  }

  const NoSegment := Segment(INFINITY, INFINITY)

  /** The contract of a Selection: consecutive, non-overlapping, non-empty segments. A nil selection has none. */
  predicate SelectionOk(segs: seq<Segment>) {
    && (forall k :: 0 <= k < |segs| ==> 0 <= segs[k].start < segs[k].end < INFINITY)
    && (forall j, k :: 0 <= j < k < |segs| ==> segs[j].end <= segs[k].start)
  }

  /** Offset x lies in a segment of the selection. */
  predicate CoveredBy(segs: seq<Segment>, x: int) {
    exists k :: 0 <= k < |segs| && segs[k].start <= x < segs[k].end
  }

  // ---------------------------------------------------------------- one selection in the merger

  /** cur is what the merger holds of a selection after f calls: nothing once it is exhausted, else the last
      segment fetched, its start set to infinity when passed. */
  predicate CursorOk(segs: seq<Segment>, f: nat, cur: Segment) {
    && f <= |segs|
    && (cur == NoSegment ==> f == |segs|)
    && (cur != NoSegment ==>
          f >= 1 && cur.end == segs[f - 1].end && (cur.start == segs[f - 1].start || cur.start == INFINITY))
  }

  /** The offset of the selection's next change. */
  function Head(cur: Segment): int {
    if cur.start < INFINITY then cur.start else cur.end
  }

  /** The selection's current segment has begun and not ended. */
  predicate Inside(cur: Segment) {
    cur.start == INFINITY && cur.end < INFINITY
  }

  /** How many segments lie wholly behind. */
  function Behind(f: nat, cur: Segment): int {
    if cur == NoSegment then f else f - 1
  }

  /** The sweep has reached offset `at`: what is behind ended by then, what is ahead starts from then on. */
  predicate Swept(segs: seq<Segment>, f: nat, cur: Segment, at: int)
    requires CursorOk(segs, f, cur)
  {
    && (forall k :: 0 <= k < Behind(f, cur) ==> segs[k].end <= at)
    && (cur != NoSegment ==> at <= Head(cur) && (Inside(cur) ==> segs[f - 1].start <= at))
  }

  /** Between the sweep and the next change, the selection covers a byte iff it is inside a segment. */
  lemma CoverageIsInside(segs: seq<Segment>, f: nat, cur: Segment, at: int, x: int)
    requires SelectionOk(segs) && CursorOk(segs, f, cur) && Swept(segs, f, cur, at)
    requires at <= x && (cur != NoSegment ==> x < Head(cur))
    ensures CoveredBy(segs, x) <==> Inside(cur)
  {
    if Inside(cur) {
      assert segs[f - 1].start <= x < segs[f - 1].end;
    } else {
      assert cur != NoSegment ==> forall k :: f - 1 < k < |segs| ==> segs[f - 1].end <= segs[k].start;
    }
  }

  // ---------------------------------------------------------------- the merger

  /** The merger as a value: the selections, how often each has been called, the segments held. */
  datatype MState = MState(sels: seq<seq<Segment>>, fetched: seq<nat>, segments: seq<Segment>)

  predicate MergerOk(m: MState) {
    && |m.fetched| == |m.sels| == |m.segments|
    && (forall i :: 0 <= i < |m.sels| ==> SelectionOk(m.sels[i]) && CursorOk(m.sels[i], m.fetched[i], m.segments[i]))
  }

  predicate SweptTo(m: MState, at: int)
    requires MergerOk(m)
  {
    forall i :: 0 <= i < |m.sels| ==> Swept(m.sels[i], m.fetched[i], m.segments[i], at)
  }

  /** The changes a cursor still has to report. */
  function Left(segs: seq<Segment>, f: nat, cur: Segment): nat
    requires f <= |segs|
  {
    2 * (|segs| - f) + (if cur.start < INFINITY then 2 else if cur.end < INFINITY then 1 else 0)
  }

  /** How many of its changes a cursor has reported. */
  function Reported(segs: seq<Segment>, f: nat, cur: Segment): int
    requires f <= |segs|
  {
    2 * |segs| - Left(segs, f, cur)
  }

  function LeftAll(m: MState, n: nat): nat
    requires MergerOk(m) && n <= |m.sels|
  {
    if n == 0 then 0 else LeftAll(m, n - 1) + Left(m.sels[n - 1], m.fetched[n - 1], m.segments[n - 1])
  }

  lemma {:induction false} LeftSmaller(m: MState, m': MState, i: int, n: nat)
    requires MergerOk(m) && MergerOk(m') && m'.sels == m.sels && 0 <= i < |m.sels| && n <= |m.sels|
    requires forall j :: 0 <= j < |m.sels| && j != i ==>
              m'.fetched[j] == m.fetched[j] && m'.segments[j] == m.segments[j]
    requires Left(m'.sels[i], m'.fetched[i], m'.segments[i]) < Left(m.sels[i], m.fetched[i], m.segments[i])
    ensures LeftAll(m', n) <= LeftAll(m, n) && (i < n ==> LeftAll(m', n) < LeftAll(m, n))
    decreases n
  {
    if n > 0 { LeftSmaller(m, m', i, n - 1); }
  }

  /** After its change at Head, a cursor is just past that change, or holds the selection's next segment. */
  ghost predicate Stepped(segs: seq<Segment>, f: nat, cur: Segment, f': nat, cur': Segment) {
    if cur.start < INFINITY then f' == f && cur' == Segment(INFINITY, cur.end)
    else if f < |segs| then f' == f + 1 && cur' == segs[f]
    else f' == f && cur' == NoSegment
  }

  lemma SteppedOk(segs: seq<Segment>, f: nat, cur: Segment, f': nat, cur': Segment)
    requires SelectionOk(segs) && CursorOk(segs, f, cur) && cur != NoSegment && Stepped(segs, f, cur, f', cur')
    ensures CursorOk(segs, f', cur') && Left(segs, f', cur') < Left(segs, f, cur)
    ensures Swept(segs, f, cur, Head(cur)) ==> Swept(segs, f', cur', Head(cur))
    ensures Inside(cur') == (cur.start < INFINITY)
  {
  }

  /** m' is m after reporting the change of selection i. */
  ghost predicate NextOf(m: MState, m': MState, i: int)
    requires MergerOk(m)
  {
    && MergerOk(m') && m'.sels == m.sels && 0 <= i < |m.sels|
    && m.segments[i] != NoSegment
    && (forall j :: 0 <= j < |m.sels| ==> Head(m.segments[i]) <= Head(m.segments[j]))
    && Stepped(m.sels[i], m.fetched[i], m.segments[i], m'.fetched[i], m'.segments[i])
    && (forall j :: 0 <= j < |m.sels| && j != i ==> m'.fetched[j] == m.fetched[j] && m'.segments[j] == m.segments[j])
  }

  /** No selection changes before offset `to`. */
  predicate QuietUpTo(m: MState, to: int) {
    forall i :: 0 <= i < |m.segments| && m.segments[i] != NoSegment ==> to <= Head(m.segments[i])
  }

  /** `merger`: merges selections into a sequence of segment changes. */
  class Merger {
    const sels: seq<seq<Segment>>
    var fetched: seq<nat>
    var segments: seq<Segment>

    ghost function M(): MState
      reads this
    {
      MState(sels, fetched, segments)
    }

    /** A call of selection i: its next segment, or an empty one. */
    method Call(i: nat) returns (seg: Segment)
      requires i < |sels| == |fetched| && fetched[i] <= |sels[i]|
      modifies this`fetched
      ensures fetched == old(fetched)[i := old(fetched[i]) + if old(fetched[i]) < |sels[i]| then 1 else 0]
      ensures seg == if old(fetched[i]) < |sels[i]| then sels[i][old(fetched[i])] else Segment(0, 0)
    {
      if fetched[i] < |sels[i]| {
        seg := sels[i][fetched[i]];
        fetched := fetched[i := fetched[i] + 1];
      } else {
        seg := Segment(0, 0);
      }
    }

    /** `newMerger` */
    constructor (selections: seq<seq<Segment>>)
      requires forall i :: 0 <= i < |selections| ==> SelectionOk(selections[i])
      ensures sels == selections && MergerOk(M()) && SweptTo(M(), 0)
      ensures forall i :: 0 <= i < |segments| ==>
                !Inside(segments[i]) && Reported(sels[i], fetched[i], segments[i]) == 0
    {
      sels := selections;
      fetched := seq(|selections|, _ => 0);
      segments := seq(|selections|, _ => NoSegment);
      new;
      var i := 0;
      while i < |sels|
        invariant 0 <= i <= |sels| && |fetched| == |segments| == |sels| && sels == selections
        invariant forall k :: i <= k < |sels| ==> fetched[k] == 0 && segments[k] == NoSegment
        invariant forall k :: 0 <= k < i ==>
                    && fetched[k] == (if sels[k] == [] then 0 else 1)
                    && segments[k] == (if sels[k] == [] then NoSegment else sels[k][0])
      {
        var seg := Call(i);
        if !seg.IsEmpty() {
          segments := segments[i := seg];
        }
        i := i + 1;
      }
    }

    /** `next`: the change with the smallest offset, the lowest selection first; index < 0 when none is left. */
    method Next() returns (index: int, offs: int, start: bool)
      requires MergerOk(M())
      modifies this
      ensures -1 <= index < |sels|
      ensures index < 0 ==> M() == old(M()) && forall i :: 0 <= i < |segments| ==> segments[i] == NoSegment
      ensures index >= 0 ==>
                && NextOf(old(M()), M(), index)
                && offs == old(Head(segments[index])) && start == old(segments[index].start < INFINITY)
                && (forall i :: 0 <= i < index ==> offs < old(Head(segments[i])))
    {
      offs, index, start := INFINITY, -1, false;
      var i := 0;
      while i < |segments|
        invariant 0 <= i <= |segments| && -1 <= index < i
        invariant forall k :: 0 <= k < i ==> offs <= Head(segments[k])
        invariant index < 0 ==> offs == INFINITY
        invariant index >= 0 ==> offs == Head(segments[index]) < INFINITY && start == (segments[index].start < INFINITY)
        invariant index >= 0 ==> forall k :: 0 <= k < index ==> offs < Head(segments[k])
      {
        var seg := segments[i];
        assert SelectionOk(sels[i]) && CursorOk(sels[i], fetched[i], seg);
        if seg.start < offs {
          offs, index, start := seg.start, i, true;
        } else if seg.end < offs {
          offs, index, start := seg.end, i, false;
        }
        i := i + 1;
      }
      if index < 0 {
        assert forall k :: 0 <= k < |segments| ==> CursorOk(sels[k], fetched[k], segments[k]) && SelectionOk(sels[k]);
        return;
      }
      SteppedOkAt(M(), index);
      segments := segments[index := Segment(INFINITY, segments[index].end)];
      if start {
        return;
      }
      segments := segments[index := NoSegment];
      var seg := Call(index);
      if !seg.IsEmpty() {
        segments := segments[index := seg];
      }
    }
  }

  lemma SteppedOkAt(m: MState, i: int)
    requires MergerOk(m) && 0 <= i < |m.sels| && m.segments[i] != NoSegment
    ensures forall f', cur' :: Stepped(m.sels[i], m.fetched[i], m.segments[i], f', cur') ==>
              CursorOk(m.sels[i], f', cur')
  {
    forall f', cur' | Stepped(m.sels[i], m.fetched[i], m.segments[i], f', cur') ensures CursorOk(m.sels[i], f', cur') {
      SteppedOk(m.sels[i], m.fetched[i], m.segments[i], f', cur');
    }
  }

  // ---------------------------------------------------------------- what is written

  type Bits = set<nat>

  /** The width of the bit set: shifting a bit further out gives no bit. */
  const WORD: nat := 64

  function Mask(index: nat): Bits {
    if index < WORD then {index} else {}
  }

  /** One call of the segment writer, or of the link writer. */
  datatype Out = Chunk(piece: string, bits: Bits) | Link(offs: int, start: bool)

  /** All the text handed to the segment writer. */
  function Written(out: seq<Out>): string {
    if out == [] then []
    else Written(out[..|out| - 1]) + if out[|out| - 1].Chunk? then out[|out| - 1].piece else []
  }

  /** For each byte of that text, the bits it was written with. */
  function Labels(out: seq<Out>): (r: seq<Bits>)
    ensures |r| == |Written(out)|
  {
    if out == [] then []
    else
      var o := out[|out| - 1];
      Labels(out[..|out| - 1]) + if o.Chunk? then seq(|o.piece|, _ => o.bits) else []
  }

  /** The calls of the link writer. */
  function Links(out: seq<Out>): seq<Out> {
    if out == [] then []
    else Links(out[..|out| - 1]) + if out[|out| - 1].Link? then [out[|out| - 1]] else []
  }

  lemma Appended(out: seq<Out>, o: Out)
    ensures Written(out + [o]) == Written(out) + if o.Chunk? then o.piece else []
    ensures Labels(out + [o]) == Labels(out) + if o.Chunk? then seq(|o.piece|, _ => o.bits) else []
    ensures Links(out + [o]) == Links(out) + if o.Link? then [o] else []
  {
    assert (out + [o])[..|out|] == out;
  }

  /** The selections covering offset x, those beyond the width of the bit set left out. */
  ghost function Covering(sels: seq<seq<Segment>>, x: int): Bits {
    set i: nat | i < |sels| && i < WORD && CoveredBy(sels[i], x)
  }

  /** The same selections cover every offset of the range. */
  ghost predicate Steady(sels: seq<seq<Segment>>, from: int, to: int, bits: Bits) {
    forall x :: from <= x < to ==> Covering(sels, x) == bits
  }

  /** Every byte written so far carries exactly the selections covering it. */
  ghost predicate LabelsExact(sels: seq<seq<Segment>>, labels: seq<Bits>) {
    forall x :: 0 <= x < |labels| ==> labels[x] == Covering(sels, x)
  }

  /** No chunk is empty, and two chunks in a row differ in their bits. */
  predicate Combined(out: seq<Out>) {
    && (forall k :: 0 <= k < |out| && out[k].Chunk? ==> out[k].piece != [])
    && (forall j, k :: 0 <= j < |out| && k == j + 1 < |out| && out[j].Chunk? && out[k].Chunk? ==>
          out[j].bits != out[k].bits)
  }

  /** Every link tag stands in the output exactly at its own text offset. */
  predicate LinksPlaced(out: seq<Out>) {
    forall k :: 0 <= k < |out| && out[k].Link? ==> out[k].offs == |Written(out[..k])|
  }

  /** The changes of one selection, in order. */
  function ChangeAt(segs: seq<Segment>, e: nat): Out
    requires e < 2 * |segs|
  {
    if e % 2 == 0 then Link(segs[e / 2].start, true) else Link(segs[e / 2].end, false)
  }

  function Changes(segs: seq<Segment>): seq<Out> {
    seq(2 * |segs|, e requires 0 <= e < 2 * |segs| => ChangeAt(segs, e))
  }

  // ---------------------------------------------------------------- the delayed writer

  /** The writer's variables: what was written, `last`, the current bit set and offset. */
  datatype FState = FState(out: seq<Out>, begin: int, end: int, lastBits: Bits)

  /** out is the text up to begin, correctly labelled and combined; [begin, end) is pending under lastBits. */
  ghost predicate WriterOk(text: string, sels: seq<seq<Segment>>, s: FState) {
    && 0 <= s.begin <= s.end <= |text|
    && Written(s.out) == text[..s.begin]
    && LabelsExact(sels, Labels(s.out))
    && Combined(s.out) && LinksPlaced(s.out)
    && Steady(sels, s.begin, s.end, s.lastBits)
    && (s.out != [] && s.out[|s.out| - 1].Chunk? ==> s.begin < s.end && s.out[|s.out| - 1].bits != s.lastBits)
  }

  /** Nothing is pending; a chunk written last has the last bits. */
  ghost predicate Flushed(text: string, sels: seq<seq<Segment>>, s: FState) {
    && 0 <= s.begin == s.end <= |text|
    && Written(s.out) == text[..s.end] && LabelsExact(sels, Labels(s.out))
    && Combined(s.out) && LinksPlaced(s.out)
    && (s.out != [] && s.out[|s.out| - 1].Chunk? ==> s.out[|s.out| - 1].bits == s.lastBits)
  }

  lemma StillPlaced(out: seq<Out>, o: Out)
    requires LinksPlaced(out) && (o.Link? ==> o.offs == |Written(out)|)
    ensures LinksPlaced(out + [o])
  {
    var out' := out + [o];
    forall k | 0 <= k < |out'| && out'[k].Link? ensures out'[k].offs == |Written(out'[..k])| {
      assert out'[..k] == out[..k];
      assert k == |out| ==> out[..k] == out;
    }
  }

  lemma StillCombined(out: seq<Out>, o: Out)
    requires Combined(out) && (o.Chunk? ==> o.piece != [])
    requires o.Chunk? && out != [] && out[|out| - 1].Chunk? ==> out[|out| - 1].bits != o.bits
    ensures Combined(out + [o])
  {
  }

  lemma ChunkKeeps(text: string, sels: seq<seq<Segment>>, s: FState, out': seq<Out>)
    requires WriterOk(text, sels, s) && s.begin < s.end
    requires out' == s.out + [Chunk(text[s.begin..s.end], s.lastBits)]
    ensures Written(out') == text[..s.end] && LabelsExact(sels, Labels(out'))
    ensures Combined(out') && LinksPlaced(out') && Links(out') == Links(s.out)
  {
    var o := Chunk(text[s.begin..s.end], s.lastBits);
    Appended(s.out, o);
    assert text[..s.end] == text[..s.begin] + text[s.begin..s.end];
    StillPlaced(s.out, o);
    StillCombined(s.out, o);
  }

  /** After a flush, text with other bits becomes pending. */
  lemma PendingStarts(text: string, sels: seq<seq<Segment>>, s: FState, e: int, bits: Bits)
    requires Flushed(text, sels, s) && s.end < e <= |text| && Steady(sels, s.end, e, bits) && bits != s.lastBits
    ensures WriterOk(text, sels, s.(end := e, lastBits := bits))
  {
  }

  /** Text with the same bits is added to what is pending. */
  lemma PendingGrows(text: string, sels: seq<seq<Segment>>, s: FState, e: int)
    requires WriterOk(text, sels, s) && s.end < e <= |text| && Steady(sels, s.end, e, s.lastBits)
    ensures WriterOk(text, sels, s.(end := e))
  {
  }

  /** The variables FormatSelections shares with its closures. */
  class Formatter {
    const text: string
    ghost const sels: seq<seq<Segment>>
    var out: seq<Out>
    var begin: int
    var end: int
    var lastBits: Bits
    var bitset: Bits
    var lastOffs: int

    ghost function F(): FState
      reads this
    {
      FState(out, begin, end, lastBits)
    }

    ghost predicate Valid()
      reads this
    {
      WriterOk(text, sels, F()) && end == lastOffs
    }

    constructor (t: string, ghost ss: seq<seq<Segment>>)
      ensures text == t && sels == ss && Valid() && lastOffs == 0 && bitset == {} && out == []
    {
      text, sels, out, begin, end, lastBits, bitset, lastOffs := t, ss, [], 0, 0, {}, {}, 0;
    }

    /** `flush` writes the pending text, if any. */
    method Flush()
      requires WriterOk(text, sels, F())
      modifies this`out, this`begin
      ensures Flushed(text, sels, F()) && Links(out) == old(Links(out))
    {
      if begin < end {
        ChunkKeeps(text, sels, F(), out + [Chunk(text[begin..end], lastBits)]);
        out := out + [Chunk(text[begin..end], lastBits)];
      }
      begin := end;
    }

    /** `segment` runs [lastOffs, e), covered throughout as the bit set says, through the peephole optimizer. */
    method SegmentTo(e: int)
      requires Valid() && lastOffs <= e <= |text|
      requires Steady(sels, lastOffs, e, bitset)
      modifies this`out, this`begin, this`end, this`lastBits
      ensures WriterOk(text, sels, F()) && end == e && Links(out) == old(Links(out))
    {
      if lastOffs < e {
        if end != lastOffs || lastBits != bitset {
          Flush();
          begin := lastOffs;
          PendingStarts(text, sels, F(), e, bitset);
        } else {
          PendingGrows(text, sels, F(), e);
        }
        end := e;
        lastBits := bitset;
      }
    }

    /** The link writer is called: a chunk just flushed is followed by the tag, so it puts no demand on what comes
        next. */
    method WriteTag(o: Out)
      requires Flushed(text, sels, F()) && o.Link? && o.offs == end
      modifies this`out
      ensures WriterOk(text, sels, F()) && Links(out) == old(Links(out)) + [o]
    {
      TagAfterFlush(text, sels, F(), o);
      out := out + [o];
    }

    /** A change of the link selection: the text so far is written out before the tag. */
    method LinkChange(offs: int, start: bool)
      requires Valid() && lastOffs <= offs <= |text|
      requires Steady(sels, lastOffs, offs, bitset)
      modifies this`out, this`begin, this`end, this`lastBits, this`lastOffs
      ensures Valid() && lastOffs == offs && Links(out) == old(Links(out)) + [Link(offs, start)]
    {
      SegmentTo(offs);
      Flush();
      lastOffs := offs;
      WriteTag(Link(offs, start));
    }

    /** A change of a labelled selection. */
    method LabelChange(index: nat, offs: int, start: bool)
      requires Valid() && lastOffs <= offs <= |text|
      requires Steady(sels, lastOffs, offs, bitset)
      modifies this
      ensures Valid() && lastOffs == offs && Links(out) == old(Links(out))
      ensures bitset == if start then old(bitset) + Mask(index) else old(bitset) - Mask(index)
    {
      SegmentTo(offs);
      lastOffs := offs;
      bitset := if start then bitset + Mask(index) else bitset - Mask(index);
    }
  }

  lemma TagAfterFlush(text: string, sels: seq<seq<Segment>>, s: FState, o: Out)
    requires Flushed(text, sels, s) && o.Link? && o.offs == s.end
    ensures WriterOk(text, sels, s.(out := s.out + [o])) && Links(s.out + [o]) == Links(s.out) + [o]
  {
    Appended(s.out, o);
    StillPlaced(s.out, o);
    StillCombined(s.out, o);
  }

  // ---------------------------------------------------------------- FormatSelections

  /** The selections the merger is inside of, among the first n. */
  ghost function InsideSet(segments: seq<Segment>, n: nat): Bits
    requires n <= |segments|
  {
    set i: nat | i < n && i < WORD && Inside(segments[i])
  }

  /** Up to the next change of any selection, the cover is the set the merger is inside of. */
  lemma CoverIsInside(m: MState, n: nat, at: int, to: int)
    requires MergerOk(m) && SweptTo(m, at) && n <= |m.sels| && QuietUpTo(m, to)
    ensures Steady(m.sels[..n], at, to, InsideSet(m.segments, n))
  {
    forall x | at <= x < to ensures Covering(m.sels[..n], x) == InsideSet(m.segments, n) {
      forall i: nat | i < n ensures CoveredBy(m.sels[i], x) <==> Inside(m.segments[i]) {
        assert Swept(m.sels[i], m.fetched[i], m.segments[i], at);
        CoverageIsInside(m.sels[i], m.fetched[i], m.segments[i], at, x);
      }
    }
  }

  lemma NextSweeps(m: MState, m': MState, i: int, at: int)
    requires MergerOk(m) && NextOf(m, m', i) && SweptTo(m, at)
    ensures at <= Head(m.segments[i]) && SweptTo(m', Head(m.segments[i]))
    ensures LeftAll(m', |m.sels|) < LeftAll(m, |m.sels|)
    ensures Inside(m'.segments[i]) == (m.segments[i].start < INFINITY)
  {
    var to := Head(m.segments[i]);
    assert SelectionOk(m.sels[i]) && Swept(m.sels[i], m.fetched[i], m.segments[i], at);
    assert Swept(m.sels[i], m.fetched[i], m.segments[i], to);
    SteppedOk(m.sels[i], m.fetched[i], m.segments[i], m'.fetched[i], m'.segments[i]);
    LeftSmaller(m, m', i, |m.sels|);
    forall j | 0 <= j < |m.sels| ensures Swept(m'.sels[j], m'.fetched[j], m'.segments[j], to) {
      assert Swept(m.sels[j], m.fetched[j], m.segments[j], at);
      assert CursorOk(m.sels[j], m.fetched[j], m.segments[j]);
    }
  }

  /** The change a cursor reports is the next one of its selection's changes. */
  lemma ReportsNext(segs: seq<Segment>, f: nat, cur: Segment, f': nat, cur': Segment)
    requires SelectionOk(segs) && CursorOk(segs, f, cur) && cur != NoSegment && Stepped(segs, f, cur, f', cur')
    requires CursorOk(segs, f', cur')
    ensures 0 <= Reported(segs, f, cur) < 2 * |segs| && Reported(segs, f', cur') == Reported(segs, f, cur) + 1
    ensures ChangeAt(segs, Reported(segs, f, cur)) == Link(Head(cur), cur.start < INFINITY)
  {
  }

  /** The links written are the link selection's changes so far. */
  ghost predicate LinksFollow(m: MState, n: nat, out: seq<Out>)
    requires MergerOk(m)
  {
    if n < |m.sels|
    then
      var r := Reported(m.sels[n], m.fetched[n], m.segments[n]);
      0 <= r <= 2 * |m.sels[n]| && Links(out) == Changes(m.sels[n])[..r]
    else Links(out) == []
  }

  /** The changes of a selection at offsets up to the limit, and no others. */
  ghost predicate ChangesUpTo(segs: seq<Segment>, limit: int, events: seq<Out>) {
    exists c {:trigger Changes(segs)[..c]} :: 0 <= c <= 2 * |segs| && events == Changes(segs)[..c]
      && (forall e :: 0 <= e < c ==> Changes(segs)[e].offs <= limit)
      && (forall e :: c <= e < 2 * |segs| ==> Changes(segs)[e].offs > limit)
  }

  /** The tags open and close the segments in turn. */
  lemma TagsOpenAndClose(segs: seq<Segment>, limit: int, events: seq<Out>, e: nat)
    requires ChangesUpTo(segs, limit, events) && e < |events|
    ensures e / 2 < |segs|
    ensures events[e] == if e % 2 == 0 then Link(segs[e / 2].start, true) else Link(segs[e / 2].end, false)
  {
    var c :| 0 <= c <= 2 * |segs| && events == Changes(segs)[..c];
    assert events[e] == ChangeAt(segs, e);
  }

  /** What the loop keeps: the merger is at the writer's offset, and bits and links are what it has reported. */
  ghost predicate InStep(m: MState, n: nat, at: int, bits: Bits, out: seq<Out>) {
    && n <= |m.sels| <= n + 1 && MergerOk(m) && SweptTo(m, at)
    && bits == InsideSet(m.segments, n) && LinksFollow(m, n, out)
  }

  lemma LabelInStep(m: MState, m': MState, i: nat, n: nat, at: int, bits: Bits, out: seq<Out>, bits': Bits,
                    out': seq<Out>)
    requires InStep(m, n, at, bits, out) && NextOf(m, m', i) && i < n && Links(out') == Links(out)
    requires bits' == if m.segments[i].start < INFINITY then bits + Mask(i) else bits - Mask(i)
    ensures InStep(m', n, Head(m.segments[i]), bits', out')
  {
    NextSweeps(m, m', i, at);
    assert forall k: nat :: k < n && k != i ==> (Inside(m'.segments[k]) <==> Inside(m.segments[k]));
  }

  lemma LinkInStep(m: MState, m': MState, n: nat, at: int, bits: Bits, out: seq<Out>, out': seq<Out>)
    requires InStep(m, n, at, bits, out) && NextOf(m, m', n)
    requires Links(out') == Links(out) + [Link(Head(m.segments[n]), m.segments[n].start < INFINITY)]
    ensures InStep(m', n, Head(m.segments[n]), bits, out')
  {
    NextSweeps(m, m', n, at);
    assert InsideSet(m'.segments, n) == InsideSet(m.segments, n);
    assert SelectionOk(m.sels[n]);
    ReportsNext(m.sels[n], m.fetched[n], m.segments[n], m'.fetched[n], m'.segments[n]);
    var r := Reported(m.sels[n], m.fetched[n], m.segments[n]);
    assert Changes(m.sels[n])[..r + 1] == Changes(m.sels[n])[..r] + [Changes(m.sels[n])[r]];
  }

  /** When the next change is past the limit, the changes reported are those up to the limit. */
  lemma AllReported(segs: seq<Segment>, f: nat, cur: Segment, at: int, limit: int)
    requires SelectionOk(segs) && CursorOk(segs, f, cur) && Swept(segs, f, cur, at) && at <= limit
    requires cur != NoSegment ==> limit < Head(cur)
    ensures 0 <= Reported(segs, f, cur) <= 2 * |segs|
    ensures ChangesUpTo(segs, limit, Changes(segs)[..Reported(segs, f, cur)])
  {
    var c := Reported(segs, f, cur);
    var ch := Changes(segs);
    assert 0 <= c <= 2 * |segs|;
    forall e | 0 <= e < 2 * |segs| ensures e < c <==> ch[e].offs <= limit {
      var k := e / 2;
      assert ch[e] == ChangeAt(segs, e);
      assert cur != NoSegment ==> (k < f - 1 ==> segs[k].end <= at);
      assert cur != NoSegment ==> (k > f - 1 ==> segs[f - 1].end <= segs[k].start);
    }
    assert ch[..c] == Changes(segs)[..c];
  }

  lemma StepsTo(m: MState, m': MState, i: int, n: nat, at: int, to: int)
    requires MergerOk(m) && NextOf(m, m', i) && SweptTo(m, at) && n <= |m.sels| && to == Head(m.segments[i])
    ensures at <= to && Steady(m.sels[..n], at, to, InsideSet(m.segments, n))
    ensures LeftAll(m', |m.sels|) < LeftAll(m, |m.sels|)
  {
    NextSweeps(m, m', i, at);
    CoverIsInside(m, n, at, to);
  }

  /** One turn of the loop of FormatSelections; done when no change is left within the text. */
  method Turn(changes: Merger, fm: Formatter, linkWriter: bool) returns (done: bool)
    requires fm.Valid() && InStep(changes.M(), |fm.sels|, fm.lastOffs, fm.bitset, fm.out)
    requires changes.sels[..|fm.sels|] == fm.sels && |changes.sels| == |fm.sels| + if linkWriter then 1 else 0
    modifies changes, fm
    ensures fm.Valid()
    ensures !done ==> InStep(changes.M(), |fm.sels|, fm.lastOffs, fm.bitset, fm.out)
    ensures !done ==> LeftAll(changes.M(), |changes.sels|) < old(LeftAll(changes.M(), |changes.sels|))
    ensures done ==> fm.F() == old(fm.F()) && fm.lastOffs == old(fm.lastOffs) && fm.bitset == old(fm.bitset)
    ensures done ==> old(QuietUpTo(changes.M(), |fm.text| + 1))
  {
    ghost var m, n := changes.M(), |fm.sels|;
    ghost var at, bits, out := fm.lastOffs, fm.bitset, fm.out;
    var index, offs, start := changes.Next();
    if index < 0 || offs > |fm.text| {
      return true;
    }
    StepsTo(m, changes.M(), index, n, at, offs);
    if linkWriter && index == |changes.sels| - 1 {
      fm.LinkChange(offs, start);
      LinkInStep(m, changes.M(), n, at, bits, out, fm.out);
    } else {
      fm.LabelChange(index, offs, start);
      LabelInStep(m, changes.M(), index, n, at, bits, out, fm.bitset, fm.out);
    }
    done := false;
  }

  /** `FormatSelections`. Without a link writer the links are ignored. */
  method FormatSelections(text: string, linkWriter: bool, links: seq<Segment>, selections: seq<seq<Segment>>)
    returns (out: seq<Out>)
    requires SelectionOk(links) && forall i :: 0 <= i < |selections| ==> SelectionOk(selections[i])
    ensures Written(out) == text
    ensures LabelsExact(selections, Labels(out))
    ensures |selections| <= 64 ==> |Labels(out)| == |text| && forall x :: 0 <= x < |text| ==>
              Labels(out)[x] == set i: nat | i < |selections| && CoveredBy(selections[i], x)
    ensures Combined(out)
    ensures LinksPlaced(out)
    ensures if linkWriter then ChangesUpTo(links, |text|, Links(out)) else Links(out) == []
  {
    var all := if linkWriter then selections + [links] else selections;
    ghost var n := |selections|;
    assert all[..n] == selections;
    var changes := new Merger(all);
    var fm := new Formatter(text, selections);
    ghost var m := changes.M();
    assert fm.bitset == InsideSet(m.segments, n);
    assert LinksFollow(m, n, fm.out);
    var done := false;
    while !done
      invariant changes.sels == all && fm.Valid() && fm.text == text && fm.sels == selections
      invariant !done ==> m == changes.M()
      invariant m.sels == all && InStep(m, n, fm.lastOffs, fm.bitset, fm.out)
      invariant done ==> QuietUpTo(m, |text| + 1)
      decreases !done, LeftAll(m, |all|)
    {
      done := Turn(changes, fm, linkWriter);
      if !done { m := changes.M(); }
    }
    Finish(m, fm, n);
    out := fm.out;
    if |selections| <= 64 {
      forall x ensures Covering(selections, x) == set i: nat | i < |selections| && CoveredBy(selections[i], x) {
        AllCounted(selections, x);
      }
    }
  }

  /** The bit set is wide enough for 64 selections. */
  lemma AllCounted(sels: seq<seq<Segment>>, x: int)
    requires |sels| <= 64
    ensures Covering(sels, x) == set i: nat | i < |sels| && CoveredBy(sels[i], x)
  {
  }

  lemma LinksDone(m: MState, n: nat, at: int, bits: Bits, out: seq<Out>, limit: int)
    requires InStep(m, n, at, bits, out) && QuietUpTo(m, limit + 1) && at <= limit
    ensures if n < |m.sels| then ChangesUpTo(m.sels[n], limit, Links(out)) else Links(out) == []
  {
    if n < |m.sels| {
      assert SelectionOk(m.sels[n]) && Swept(m.sels[n], m.fetched[n], m.segments[n], at);
      AllReported(m.sels[n], m.fetched[n], m.segments[n], at, limit);
    }
  }

  /** The text behind the last change is written out. */
  method Finish(ghost m: MState, fm: Formatter, ghost n: nat)
    requires fm.Valid() && InStep(m, n, fm.lastOffs, fm.bitset, fm.out) && QuietUpTo(m, |fm.text| + 1)
    requires m.sels[..n] == fm.sels
    modifies fm
    ensures Written(fm.out) == fm.text && LabelsExact(fm.sels, Labels(fm.out)) && Combined(fm.out)
    ensures LinksPlaced(fm.out)
    ensures if n < |m.sels| then ChangesUpTo(m.sels[n], |fm.text|, Links(fm.out)) else Links(fm.out) == []
  {
    CoverIsInside(m, n, fm.lastOffs, |fm.text| + 1);
    LinksDone(m, n, fm.lastOffs, fm.bitset, fm.out, |fm.text|);
    fm.SegmentTo(|fm.text|);
    fm.Flush();
    assert fm.text[..|fm.text|] == fm.text;
  }
}
