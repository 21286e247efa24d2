/** The txtar archive format: a printer and a parser. Text is a sequence of Unicode code points. */
module Txtar {

  datatype File = File(name: string, data: string)

  datatype Archive = Archive(comment: string, files: seq<File>)

  const MARKER := "-- "
  const MARKER_END := " --"
  const NEWLINE_MARKER := "\n-- "

  // ---------------------------------------------------------------- white space

  predicate IsSpace(c: char) {
    || '\t' <= c <= '\r' || c == ' ' || c == '\U{85}' || c == '\U{A0}' || c == '\U{1680}'
    || '\U{2000}' <= c <= '\U{200A}'
    || c == '\U{2028}' || c == '\U{2029}' || c == '\U{202F}' || c == '\U{205F}' || c == '\U{3000}'
  }

  /** No white space at either end. */
  predicate Trimmed(s: string) {
    s == [] || (!IsSpace(s[0]) && !IsSpace(s[|s| - 1]))
  }

  /** `strings.TrimSpace` */
  function TrimSpace(s: string): string
    decreases |s|
  {
    if s == [] then s
    else if IsSpace(s[0]) then TrimSpace(s[1..])
    else if IsSpace(s[|s| - 1]) then TrimSpace(s[..|s| - 1])
    else s
  }

  lemma {:induction false} TrimSpaceTrims(s: string)
    ensures Trimmed(TrimSpace(s)) && (Trimmed(s) ==> TrimSpace(s) == s)
    ensures forall c :: c in TrimSpace(s) ==> c in s
    decreases |s|
  {
    if s != [] {
      if IsSpace(s[0]) { TrimSpaceTrims(s[1..]); }
      else if IsSpace(s[|s| - 1]) { TrimSpaceTrims(s[..|s| - 1]); }
    }
  }

  /** White space is the 25 code points of Unicode that have the property. */
  lemma SpacesAre(c: char)
    ensures IsSpace(c) <==>
            var n := c as int;
            || n in {9, 10, 11, 12, 13, 32, 0x85, 0xA0, 0x1680, 0x2028, 0x2029, 0x202F, 0x205F, 0x3000}
            || 0x2000 <= n <= 0x200A
  {
  }

  predicate AllSpace(s: string) {
    forall k :: 0 <= k < |s| ==> IsSpace(s[k])
  }

  lemma MoreFront(s: string, a: string, m: string, b: string)
    requires s != "" && s[1..] == a + m + b
    ensures s == ([s[0]] + a) + m + b
  {
    assert s == [s[0]] + s[1..];
  }

  lemma MoreBack(s: string, a: string, m: string, b: string)
    requires s != "" && s[..|s| - 1] == a + m + b
    ensures s == a + m + (b + [s[|s| - 1]])
  {
    assert s == s[..|s| - 1] + [s[|s| - 1]];
  }

  lemma LessFront(a: string, m: string, b: string)
    requires a != ""
    ensures var s := a + m + b; s != "" && s[0] == a[0] && s[1..] == a[1..] + m + b
  {
  }

  lemma LessBack(a: string, m: string, b: string)
    requires b != ""
    ensures var s := a + m + b; s != "" && s[|s| - 1] == b[|b| - 1] && s[..|s| - 1] == a + m + b[..|b| - 1]
  {
  }

  /** Trimming takes white space off both ends, and nothing else. */
  lemma {:induction false} TrimSpaceCuts(s: string) returns (a: string, b: string)
    ensures s == a + TrimSpace(s) + b && AllSpace(a) && AllSpace(b)
    decreases |s|
  {
    if s == "" || !(IsSpace(s[0]) || IsSpace(s[|s| - 1])) {
      a, b := "", "";
      assert s == "" + s + "";
    } else if IsSpace(s[0]) {
      var a1;
      a1, b := TrimSpaceCuts(s[1..]);
      MoreFront(s, a1, TrimSpace(s), b);
      a := [s[0]] + a1;
    } else {
      var b1;
      a, b1 := TrimSpaceCuts(s[..|s| - 1]);
      MoreBack(s, a, TrimSpace(s), b1);
      b := b1 + [s[|s| - 1]];
    }
  }

  lemma {:induction false} TrimSpaceGone(s: string)
    requires AllSpace(s)
    ensures TrimSpace(s) == ""
    decreases |s|
  {
    if s != "" { TrimSpaceGone(s[1..]); }
  }

  /** So the trimmed text is what lies between white space that cannot be extended: there is one way to trim. */
  lemma {:induction false} TrimSpaceIs(a: string, m: string, b: string)
    requires AllSpace(a) && AllSpace(b) && Trimmed(m)
    ensures TrimSpace(a + m + b) == m
    decreases |a| + |b|
  {
    if a != "" {
      LessFront(a, m, b);
      TrimSpaceIs(a[1..], m, b);
    } else if m == "" {
      assert a + m + b == b;
      TrimSpaceGone(b);
    } else if b != "" {
      LessBack(a, m, b);
      assert (a + m + b)[0] == m[0];
      TrimSpaceIs(a, m, b[..|b| - 1]);
    } else {
      assert a + m + b == m;
      TrimSpaceTrims(m);
    }
  }

  // ---------------------------------------------------------------- lines

  predicate OccursAt(s: string, p: string, at: int) {
    0 <= at && at + |p| <= |s| && forall k :: 0 <= k < |p| ==> s[at + k] == p[k]
  }

  /** The offset of the next newline, or the end of the text. */
  function LineEnd(d: string, i: nat): (e: nat)
    requires i <= |d|
    ensures i <= e <= |d|
    decreases |d| - i
  {
    if i == |d| || d[i] == '\n' then i else LineEnd(d, i + 1)
  }

  lemma {:induction false} LineEndOk(d: string, i: nat)
    requires i <= |d|
    ensures LineEnd(d, i) < |d| ==> d[LineEnd(d, i)] == '\n'
    ensures forall k :: i <= k < LineEnd(d, i) ==> d[k] != '\n'
    decreases |d| - i
  {
    if i < |d| && d[i] != '\n' { LineEndOk(d, i + 1); }
  }

  lemma LineEndIs(d: string, i: nat, e: nat)
    requires i <= e <= |d| && (e < |d| ==> d[e] == '\n') && forall k :: i <= k < e ==> d[k] != '\n'
    ensures LineEnd(d, i) == e
  {
    LineEndOk(d, i);
    assert !(e < LineEnd(d, i)) && !(LineEnd(d, i) < e);
  }

  /** A list of lines. */
  datatype Lines = Nil | Cons(line: string, rest: Lines)

  /** The lines from offset i on; a newline missing at the very end is taken to be there anyway. */
  function LinesFrom(d: string, i: nat): Lines
    requires i <= |d|
    decreases |d| - i
  {
    if i == |d| then Nil
    else
      var e := LineEnd(d, i);
      Cons(d[i..e], if e < |d| then LinesFrom(d, e + 1) else Nil)
  }

  function LinesOf(d: string): Lines { LinesFrom(d, 0) }

  /** The text that has the given lines. */
  function Join(ls: Lines): string {
    match ls
    case Nil => ""
    case Cons(l, rest) => l + "\n" + Join(rest)
  }

  function Concat(x: Lines, y: Lines): Lines {
    match x
    case Nil => y
    case Cons(l, rest) => Cons(l, Concat(rest, y))
  }

  lemma {:induction false} ConcatAssoc(x: Lines, y: Lines, z: Lines)
    ensures Concat(Concat(x, y), z) == Concat(x, Concat(y, z))
  {
    if x.Cons? { ConcatAssoc(x.rest, y, z); }
  }

  lemma {:induction false} ConcatNil(x: Lines)
    ensures Concat(x, Nil) == x
  {
    if x.Cons? { ConcatNil(x.rest); }
  }

  /** The line is one of the lines. */
  predicate Holds(ls: Lines, l: string) {
    ls.Cons? && (ls.line == l || Holds(ls.rest, l))
  }

  lemma {:induction false} HoldsConcat(x: Lines, y: Lines, l: string)
    ensures Holds(Concat(x, y), l) <==> Holds(x, l) || Holds(y, l)
  {
    if x.Cons? { HoldsConcat(x.rest, y, l); }
  }

  /** Empty or newline-terminated. */
  predicate Terminated(d: string) {
    d == [] || d[|d| - 1] == '\n'
  }

  /** `fixNL` */
  function FixNL(d: string): (r: string)
    ensures Terminated(r) && (Terminated(d) <==> r == d)
  {
    if d == [] || d[|d| - 1] == '\n' then d else d + "\n"
  }

  /** The text z from offset n on is y. */
  predicate SuffixAt(z: string, n: nat, y: string) {
    |z| == n + |y| && forall k :: 0 <= k < |y| ==> z[n + k] == y[k]
  }

  lemma LineShift(z: string, n: nat, y: string, j: nat)
    requires SuffixAt(z, n, y) && j <= |y|
    ensures LineEnd(z, n + j) == n + LineEnd(y, j) && z[n + j..n + LineEnd(y, j)] == y[j..LineEnd(y, j)]
  {
    var e := LineEnd(y, j);
    LineEndOk(y, j);
    assert forall k :: n + j <= k < n + e ==> z[k] == y[k - n];
    assert e < |y| ==> z[n + e] == y[e];
    LineEndIs(z, n + j, n + e);
  }

  /** Lines of a suffix are the suffix of the lines. */
  lemma {:induction false} LinesShift(z: string, n: nat, y: string, j: nat)
    requires SuffixAt(z, n, y) && j <= |y|
    ensures LinesFrom(z, n + j) == LinesFrom(y, j)
    decreases |y| - j
  {
    if j < |y| {
      LineShift(z, n, y, j);
      var e := LineEnd(y, j);
      if e < |y| { LinesShift(z, n, y, e + 1); }
    }
  }

  lemma LineThenRest(l: string, c: string)
    requires '\n' !in l
    ensures LinesOf(l + "\n" + c) == Cons(l, LinesOf(c))
  {
    var d, n := l + "\n" + c, |l|;
    LineEndIs(d, 0, n);
    assert d[0..n] == l;
    LinesShift(d, n + 1, c, 0);
  }

  predicate NoNewlines(ls: Lines) {
    ls.Cons? ==> '\n' !in ls.line && NoNewlines(ls.rest)
  }

  lemma {:induction false} NoNewlinesConcat(x: Lines, y: Lines)
    requires NoNewlines(x) && NoNewlines(y)
    ensures NoNewlines(Concat(x, y))
  {
    if x.Cons? { NoNewlinesConcat(x.rest, y); }
  }

  lemma {:induction false} LinesOfJoin(ls: Lines)
    requires NoNewlines(ls)
    ensures LinesOf(Join(ls)) == ls
  {
    if ls.Cons? {
      LinesOfJoin(ls.rest);
      LineThenRest(ls.line, Join(ls.rest));
    }
  }

  /** The text from i on up to offset k, with a newline if k is not behind one. */
  function Piece(d: string, i: nat, k: nat): string
    requires i <= k <= |d|
  {
    if i == k || d[k - 1] == '\n' then d[i..k] else d[i..k] + "\n"
  }

  lemma PieceCut(d: string, i: nat, e: nat, k: nat)
    requires i <= e < k <= |d| && d[e] == '\n'
    ensures Piece(d, i, k) == d[i..e] + "\n" + Piece(d, e + 1, k)
  {
    assert d[i..k] == d[i..e] + "\n" + d[e + 1..k];
    assert d[i..k] + "\n" == d[i..e] + "\n" + (d[e + 1..k] + "\n");
  }

  /** Offset k is the end of the text or just behind a newline. */
  predicate LineStart(d: string, k: nat) {
    0 < k <= |d| && (k == |d| || d[k - 1] == '\n')
  }

  /** The lines from offset i up to the line start k. */
  function LinesUpTo(d: string, i: nat, k: nat): Lines
    requires i <= k <= |d|
    decreases |d| - i
  {
    if i == k then Nil
    else
      var e := LineEnd(d, i);
      Cons(d[i..e], if e + 1 < k then LinesUpTo(d, e + 1, k) else Nil)
  }

  /** The last line before offset k. */
  lemma LastPiece(d: string, i: nat, k: nat)
    requires i < k <= |d| && LineEnd(d, i) + 1 >= k && (k == |d| || d[k - 1] == '\n')
    ensures Piece(d, i, k) == d[i..LineEnd(d, i)] + "\n"
    ensures if LineEnd(d, i) < |d| then k == LineEnd(d, i) + 1 else k == |d|
  {
    var e := LineEnd(d, i);
    LineEndOk(d, i);
    if d[k - 1] == '\n' {
      assert e == k - 1;
      assert d[i..k] == d[i..e] + "\n";
    } else {
      assert e == k == |d|;
    }
  }

  lemma {:induction false} UpToLeads(d: string, i: nat, k: nat)
    requires i < k && LineStart(d, k)
    ensures LinesFrom(d, i) == Concat(LinesUpTo(d, i, k), LinesFrom(d, k))
    decreases |d| - i
  {
    var l := LineEnd(d, i) + 1;
    if l < k { UpToLeads(d, l, k); } else { LastPiece(d, i, k); }
  }

  /** The lines are those of the text from offset i up to k. */
  predicate Spells(d: string, i: nat, ls: Lines, k: nat)
    requires i <= |d|
    decreases ls
  {
    match ls
    case Nil => i == k
    case Cons(l, rest) =>
      var e := LineEnd(d, i);
      i < k && l == d[i..e] && if e + 1 < k && e < |d| then Spells(d, e + 1, rest, k) else rest == Nil
  }

  lemma {:induction false} UpToSpells(d: string, i: nat, k: nat)
    requires i <= k <= |d|
    ensures Spells(d, i, LinesUpTo(d, i, k), k)
    decreases |d| - i
  {
    if i < k && LineEnd(d, i) + 1 < k { UpToSpells(d, LineEnd(d, i) + 1, k); }
  }

  lemma JoinStep(l: string, rest: Lines, text: string)
    requires Join(rest) == text
    ensures Join(Cons(l, rest)) == l + "\n" + text
  {
  }

  lemma {:induction false} SpelledJoins(d: string, i: nat, ls: Lines, k: nat)
    requires i < k && LineStart(d, k) && Spells(d, i, ls, k)
    ensures Join(ls) == Piece(d, i, k)
    decreases ls
  {
    var e := LineEnd(d, i);
    if e + 1 < k {
      LineEndOk(d, i);
      SpelledJoins(d, e + 1, ls.rest, k);
      PieceCut(d, i, e, k);
      JoinStep(ls.line, ls.rest, Piece(d, e + 1, k));
    } else {
      LastPiece(d, i, k);
      JoinStep(ls.line, Nil, "");
    }
  }

  lemma {:induction false} LinesHaveNoNewlines(d: string, i: nat)
    requires i <= |d|
    ensures NoNewlines(LinesFrom(d, i))
    decreases |d| - i
  {
    LineEndOk(d, i);
    if i < |d| && LineEnd(d, i) < |d| { LinesHaveNoNewlines(d, LineEnd(d, i) + 1); }
  }

  /** Splitting into lines and joining them adds only a missing final newline. */
  lemma JoinOfLines(d: string)
    ensures Join(LinesOf(d)) == FixNL(d) && NoNewlines(LinesOf(d))
  {
    LinesHaveNoNewlines(d, 0);
    if d != [] {
      var n := |d|;
      UpToLeads(d, 0, n);
      ConcatNil(LinesUpTo(d, 0, n));
      UpToSpells(d, 0, n);
      SpelledJoins(d, 0, LinesOf(d), n);
      assert d[0..n] == d;
    }
  }

  lemma {:induction false} JoinConcat(x: Lines, y: Lines)
    ensures Join(Concat(x, y)) == Join(x) + Join(y)
  {
    if x.Cons? {
      JoinConcat(x.rest, y);
      Assoc(x.line + "\n", Join(x.rest), Join(y));
    }
  }

  lemma Assoc(x: string, y: string, z: string)
    ensures x + (y + z) == (x + y) + z
  {
  }

  // ---------------------------------------------------------------- the meaning of a text

  /** The line whose prefix and suffix overlap. */
  const OVERLAP := "-- --"

  /** The line has the form of a file marker. */
  predicate MarkerShape(line: string) {
    OccursAt(line, MARKER, 0) && OccursAt(line, MARKER_END, |line| - 3)
  }

  /** The file name a line marks; empty if it is no marker line. */
  function NameOf(line: string): string {
    if MarkerShape(line) && |line| >= 6 then TrimSpace(line[3..|line| - 3]) else ""
  }

  predicate NameOk(name: string) {
    name != "" && Trimmed(name) && '\n' !in name
  }

  lemma NamesAreOk(line: string)
    requires '\n' !in line && NameOf(line) != ""
    ensures NameOk(NameOf(line))
  {
    TrimSpaceTrims(line[3..|line| - 3]);
  }

  /** A line is neither a marker nor the overlapping one. */
  predicate PlainLine(line: string) {
    line != OVERLAP && NameOf(line) == ""
  }

  predicate AllPlain(ls: Lines) {
    ls.Cons? ==> PlainLine(ls.line) && AllPlain(ls.rest)
  }

  lemma {:induction false} PlainConcat(x: Lines, y: Lines)
    requires AllPlain(x) && AllPlain(y)
    ensures AllPlain(Concat(x, y))
  {
    if x.Cons? { PlainConcat(x.rest, y); }
  }

  lemma {:induction false} PlainHasNoOverlap(x: Lines)
    requires AllPlain(x)
    ensures !Holds(x, OVERLAP)
  {
    if x.Cons? { PlainHasNoOverlap(x.rest); }
  }

  /** What a list of lines means: comment lines up to the first marker, then a file for each marker line. */
  function Meaning(ls: Lines): Archive {
    match ls
    case Nil => Archive("", [])
    case Cons(l, rest) =>
      var a := Meaning(rest);
      if NameOf(l) != "" then Archive("", [File(NameOf(l), a.comment)] + a.files)
      else Archive(l + "\n" + a.comment, a.files)
  }

  function Prepend(x: string, a: Archive): Archive { a.(comment := x + a.comment) }

  lemma {:induction false} PlainPrefix(x: Lines, y: Lines)
    requires AllPlain(x)
    ensures Meaning(Concat(x, y)) == Prepend(Join(x), Meaning(y))
  {
    if x.Cons? {
      PlainPrefix(x.rest, y);
      Assoc(x.line + "\n", Join(x.rest), Meaning(y).comment);
    }
  }

  // ---------------------------------------------------------------- the parser

  /** What `isMarker` returns; slicing the overlapping line panics. */
  datatype Mark = Panic | Mark(name: string, next: nat)

  lemma OverlapIff(line: string)
    ensures line == OVERLAP <==> MarkerShape(line) && |line| < 6
  {
    if MarkerShape(line) && |line| < 6 {
      var e := |line| - 3;
      assert line[0 + 0] == MARKER[0] && line[0 + 1] == MARKER[1] && line[0 + 2] == MARKER[2];
      assert line[e + 0] == MARKER_END[0] && line[e + 1] == MARKER_END[1] && line[e + 2] == MARKER_END[2];
    }
  }

  /** A line starts like a marker iff the text does so there. */
  lemma LinePrefix(d: string, i: nat)
    requires i <= |d|
    ensures OccursAt(d, MARKER, i) <==> OccursAt(d[i..LineEnd(d, i)], MARKER, 0)
  {
    var e := LineEnd(d, i);
    LineEndOk(d, i);
    var l := d[i..e];
    if OccursAt(d, MARKER, i) {
      assert d[i + 0] == MARKER[0] && d[i + 1] == MARKER[1] && d[i + 2] == MARKER[2];
      assert e >= i + 3;
    }
  }

  /** `isMarker` at offset i; `next` is where the following line starts. */
  function IsMarker(d: string, i: nat): (m: Mark)
    requires i <= |d|
    ensures m.Panic? <==> d[i..LineEnd(d, i)] == OVERLAP
    ensures m.Mark? ==> m.name == NameOf(d[i..LineEnd(d, i)])
    ensures m.Mark? && m.name != "" ==> m.next == if LineEnd(d, i) < |d| then LineEnd(d, i) + 1 else |d|
  {
    var e := LineEnd(d, i);
    var line := d[i..e];
    LinePrefix(d, i);
    OverlapIff(line);
    if !OccursAt(d, MARKER, i) then Mark("", 0)
    else if !OccursAt(line, MARKER_END, |line| - 3) then Mark("", 0)
    else if |line| < 6 then Panic
    else Mark(TrimSpace(line[3..|line| - 3]), if e < |d| then e + 1 else |d|)
  }

  /** `bytes.Index` from offset i on: the first occurrence, or -1. */
  function IndexFrom(s: string, p: string, i: nat): (r: int)
    requires i <= |s|
    ensures r == -1 || (i <= r && OccursAt(s, p, r))
    ensures forall k :: i <= k < (if r < 0 then |s| else r) ==> !OccursAt(s, p, k)
    decreases |s| - i
  {
    if OccursAt(s, p, i) then i
    else if i == |s| then -1
    else IndexFrom(s, p, i + 1)
  }

  /** A line that does not start like a marker is none. */
  lemma PlainIfNoPrefix(d: string, i: nat)
    requires i <= |d| && !OccursAt(d, MARKER, i)
    ensures PlainLine(d[i..LineEnd(d, i)])
  {
    LinePrefix(d, i);
    OverlapIff(d[i..LineEnd(d, i)]);
  }

  /** A line behind a newline that starts like a marker is preceded by a newline marker. */
  lemma MarkerNext(d: string, l: nat)
    requires 0 < l <= |d| && d[l - 1] == '\n' && OccursAt(d, MARKER, l)
    ensures OccursAt(d, NEWLINE_MARKER, l - 1)
  {
    assert d[l + 0] == MARKER[0] && d[l + 1] == MARKER[1] && d[l + 2] == MARKER[2];
  }

  /** From offset i, lines `pre` without a marker lead to offset k. */
  predicate Leads(d: string, i: nat, pre: Lines, k: nat)
    requires i <= |d| && k <= |d|
  {
    LinesFrom(d, i) == Concat(pre, LinesFrom(d, k)) && AllPlain(pre)
  }

  /** Lines that no newline marker leads to need no look: they are plain. */
  lemma {:induction false} UpToPlain(d: string, i: nat, k: nat)
    requires i < k && LineStart(d, k) && PlainLine(d[i..LineEnd(d, i)])
    requires forall p :: i <= p < k - 1 ==> !OccursAt(d, NEWLINE_MARKER, p)
    ensures AllPlain(LinesUpTo(d, i, k))
    decreases |d| - i
  {
    var l := LineEnd(d, i) + 1;
    if l < k {
      LineEndOk(d, i);
      if OccursAt(d, MARKER, l) { MarkerNext(d, l); }
      PlainIfNoPrefix(d, l);
      UpToPlain(d, l, k);
    }
  }

  /** Up to offset i, the text holds the plain lines `pre`. */
  predicate Passed(d: string, pre: Lines, i: nat)
    requires i <= |d|
  {
    Leads(d, 0, pre, i) && Join(pre) == Piece(d, 0, i)
  }

  lemma PieceOn(d: string, i: nat, k: nat)
    requires i <= k <= |d| && (i == 0 || d[i - 1] == '\n')
    ensures Piece(d, 0, k) == Piece(d, 0, i) + Piece(d, i, k)
  {
    assert d[0..i] + d[i..k] == d[0..k];
    assert d[0..i] + (d[i..k] + "\n") == d[0..k] + "\n";
  }

  lemma PassOn(d: string, pre: Lines, i: nat, mid: Lines, k: nat)
    requires i <= k <= |d| && Passed(d, pre, i) && Leads(d, i, mid, k) && Join(mid) == Piece(d, i, k)
    requires (i == 0 || d[i - 1] == '\n')
    ensures Passed(d, Concat(pre, mid), k)
  {
    JoinConcat(pre, mid);
    PieceOn(d, i, k);
    PlainConcat(pre, mid);
    ConcatAssoc(pre, mid, LinesFrom(d, k));
  }

  /** From one possible marker to the next. */
  lemma NextStart(d: string, pre: Lines, i: nat, j: int) returns (pre': Lines)
    requires i <= |d| && Passed(d, pre, i) && (i == 0 || d[i - 1] == '\n') && PlainLine(d[i..LineEnd(d, i)])
    requires j == IndexFrom(d, NEWLINE_MARKER, i)
    ensures j >= 0 ==> i < j + 1 <= |d| && d[j] == '\n'
    ensures Passed(d, pre', if j < 0 then |d| else j + 1)
  {
    var k := if j < 0 then |d| else j + 1;
    var mid := Nil;
    assert j >= 0 ==> d[j + 0] == NEWLINE_MARKER[0];
    if i < k {
      mid := LinesUpTo(d, i, k);
      UpToLeads(d, i, k);
      UpToSpells(d, i, k);
      SpelledJoins(d, i, mid, k);
      UpToPlain(d, i, k);
    }
    PassOn(d, pre, i, mid, k);
    pre' := Concat(pre, mid);
  }

  lemma MarkerMeans(pre: Lines, l: string, rest: Lines)
    requires AllPlain(pre) && NameOf(l) != ""
    ensures Meaning(Concat(pre, Cons(l, rest))) == Archive(Join(pre), FilesFrom(NameOf(l), Meaning(rest)))
    ensures Holds(Concat(pre, Cons(l, rest)), OVERLAP) <==> Holds(rest, OVERLAP)
  {
    PlainPrefix(pre, Cons(l, rest));
    assert Join(pre) + "" == Join(pre);
    OverlapIff(l);
    PlainHasNoOverlap(pre);
    HoldsConcat(pre, Cons(l, rest), OVERLAP);
  }

  /** The lines of a text whose first marker is the line at offset i. */
  lemma MarkerLines(d: string, pre: Lines, i: nat, next: nat)
    requires i < |d| && Leads(d, 0, pre, i) && next == if LineEnd(d, i) < |d| then LineEnd(d, i) + 1 else |d|
    ensures LinesOf(d) == Concat(pre, Cons(d[i..LineEnd(d, i)], LinesOf(d[next..])))
  {
    LinesShift(d, next, d[next..], 0);
  }

  /** What a text means when its first marker is the line at offset i. */
  lemma MarkerFound(d: string, pre: Lines, i: nat, name: string, next: nat)
    requires i < |d| && Passed(d, pre, i) && name == NameOf(d[i..LineEnd(d, i)]) != ""
    requires next == if LineEnd(d, i) < |d| then LineEnd(d, i) + 1 else |d|
    ensures Meaning(LinesOf(d)) == Archive(Piece(d, 0, i), FilesFrom(name, Meaning(LinesOf(d[next..]))))
    ensures Holds(LinesOf(d), OVERLAP) <==> Holds(LinesOf(d[next..]), OVERLAP)
  {
    MarkerLines(d, pre, i, next);
    MarkerMeans(pre, d[i..LineEnd(d, i)], LinesOf(d[next..]));
  }

  /** The files from a marker on, given what follows it. */
  function FilesFrom(name: string, a: Archive): seq<File> {
    if name == "" then [] else [File(name, a.comment)] + a.files
  }

  lemma PassedHasNoOverlap(d: string, pre: Lines, i: nat)
    requires i <= |d| && Passed(d, pre, i)
    ensures Holds(LinesOf(d), OVERLAP) <==> Holds(LinesFrom(d, i), OVERLAP)
  {
    PlainHasNoOverlap(pre);
    HoldsConcat(pre, LinesFrom(d, i), OVERLAP);
  }

  lemma OverlapFound(d: string, pre: Lines, i: nat)
    requires i < |d| && Passed(d, pre, i) && d[i..LineEnd(d, i)] == OVERLAP
    ensures Holds(LinesOf(d), OVERLAP)
  {
    PassedHasNoOverlap(d, pre, i);
  }

  lemma NoMarkerFound(d: string, pre: Lines)
    requires Passed(d, pre, |d|)
    ensures Meaning(LinesOf(d)) == Archive(FixNL(d), []) && !Holds(LinesOf(d), OVERLAP)
  {
    assert d[0..|d|] == d;
    PlainPrefix(pre, Nil);
    assert Join(pre) + "" == Join(pre);
    PassedHasNoOverlap(d, pre, |d|);
  }

  /** `findFileMarker`: the text before the first marker, its name and what follows; panics on an overlapping line
      before it. */
  method FindFileMarker(data: string) returns (ok: bool, before: string, name: string, after: string)
    ensures ok ==> Meaning(LinesOf(data)) == Archive(before, FilesFrom(name, Meaning(LinesOf(after))))
    ensures ok ==> (Holds(LinesOf(data), OVERLAP) <==> Holds(LinesOf(after), OVERLAP))
    ensures ok ==> (name != "" ==> |after| < |data|)
    ensures ok && name == "" ==> after == ""
    ensures !ok ==> Holds(LinesOf(data), OVERLAP)
  {
    var i := 0;
    ghost var pre := Nil;
    while true
      invariant 0 <= i <= |data| && Passed(data, pre, i) && (i == 0 || data[i - 1] == '\n')
      decreases |data| - i
    {
      var m := IsMarker(data, i);
      if m.Panic? {
        OverlapFound(data, pre, i);
        return false, "", "", "";
      }
      if m.name != "" {
        MarkerFound(data, pre, i, m.name, m.next);
        return true, data[..i], m.name, data[m.next..];
      }
      var j := IndexFrom(data, NEWLINE_MARKER, i);
      pre := NextStart(data, pre, i, j);
      if j < 0 {
        NoMarkerFound(data, pre);
        return true, FixNL(data), "", "";
      }
      i := j + 1;
    }
  }

  /** `Parse`: panics iff some line is the overlapping one, and otherwise returns what the text means. */
  method Parse(data: string) returns (ok: bool, a: Archive)
    ensures ok <==> !Holds(LinesOf(data), OVERLAP)
    ensures ok ==> a == Meaning(LinesOf(data))
  {
    var comment, name, rest;
    a := Archive("", []);
    ok, comment, name, rest := FindFileMarker(data);
    if !ok {
      return;
    }
    var files: seq<File> := [];
    while name != ""
      invariant Holds(LinesOf(data), OVERLAP) <==> Holds(LinesOf(rest), OVERLAP)
      invariant Meaning(LinesOf(data)) == Archive(comment, files + FilesFrom(name, Meaning(LinesOf(rest))))
      invariant name == "" ==> rest == ""
      decreases |rest| + if name == "" then 0 else 1
    {
      var content, name', rest';
      ok, content, name', rest' := FindFileMarker(rest);
      if !ok {
        return;
      }
      var f := File(name, content);
      NextFile(files, name, content, Meaning(LinesOf(rest)), name', Meaning(LinesOf(rest')));
      files := files + [f];
      name, rest := name', rest';
    }
    ok, a := true, Archive(comment, files);
  }

  lemma NextFile(files: seq<File>, name: string, content: string, a: Archive, name': string, a': Archive)
    requires name != "" && a == Archive(content, FilesFrom(name', a'))
    ensures files + FilesFrom(name, a) == files + [File(name, content)] + FilesFrom(name', a')
  {
  }

  // ---------------------------------------------------------------- the printer

  function FormatFile(f: File): string { MARKER + f.name + MARKER_END + "\n" + FixNL(f.data) }

  function FormatFiles(files: seq<File>): string {
    if files == [] then [] else FormatFile(files[0]) + FormatFiles(files[1..])
  }

  function Formatted(a: Archive): string { FixNL(a.comment) + FormatFiles(a.files) }

  lemma FormatStep(buf: string, files: seq<File>, i: nat)
    requires i < |files|
    ensures var head := MARKER + files[i].name + MARKER_END + "\n";
            buf + FormatFiles(files[i..]) == buf + head + FixNL(files[i].data) + FormatFiles(files[i + 1..])
  {
    var head := MARKER + files[i].name + MARKER_END + "\n";
    assert files[i..][1..] == files[i + 1..];
    Regroup4(buf, head, FixNL(files[i].data), FormatFiles(files[i + 1..]));
  }

  lemma Regroup4(w: string, x: string, y: string, z: string)
    ensures w + ((x + y) + z) == w + x + y + z
  {
  }

  /** `Format` */
  method Format(a: Archive) returns (buf: string)
    ensures buf == Formatted(a)
  {
    buf := FixNL(a.comment);
    var i := 0;
    while i < |a.files|
      invariant 0 <= i <= |a.files| && buf + FormatFiles(a.files[i..]) == Formatted(a)
    {
      FormatStep(buf, a.files, i);
      buf := buf + (MARKER + a.files[i].name + MARKER_END + "\n");
      buf := buf + FixNL(a.files[i].data);
      i := i + 1;
    }
  }

  // ---------------------------------------------------------------- round trips

  predicate FileOk(f: File) {
    NameOk(f.name) && AllPlain(LinesOf(f.data))
  }

  predicate FilesOk(files: seq<File>) {
    forall k :: 0 <= k < |files| ==> FileOk(files[k])
  }

  /** Names are trimmed, non-empty and of one line, and no content line is a marker. */
  predicate WellFormed(a: Archive) {
    AllPlain(LinesOf(a.comment)) && FilesOk(a.files)
  }

  function FixFiles(files: seq<File>): seq<File> {
    seq(|files|, k requires 0 <= k < |files| => File(files[k].name, FixNL(files[k].data)))
  }

  /** The archive with every missing final newline added. */
  function Fixed(a: Archive): Archive {
    Archive(FixNL(a.comment), FixFiles(a.files))
  }

  function MarkLine(name: string): string { MARKER + name + MARKER_END }

  lemma MarkLineNames(name: string)
    requires NameOk(name)
    ensures NameOf(MarkLine(name)) == name && '\n' !in MarkLine(name) && MarkLine(name) != OVERLAP
  {
    var l := MarkLine(name);
    assert OccursAt(l, MARKER, 0) && OccursAt(l, MARKER_END, |l| - 3);
    assert l[3..|l| - 3] == name;
    TrimSpaceTrims(name);
  }

  /** The lines of the formatted files. */
  function FileLines(files: seq<File>): Lines {
    if files == [] then Nil else Cons(MarkLine(files[0].name), Concat(LinesOf(files[0].data), FileLines(files[1..])))
  }

  lemma {:induction false} FileLinesJoin(files: seq<File>)
    ensures Join(FileLines(files)) == FormatFiles(files)
  {
    if files != [] {
      var f, rest := files[0], files[1..];
      FileLinesJoin(rest);
      JoinConcat(LinesOf(f.data), FileLines(rest));
      JoinOfLines(f.data);
      Assoc(MarkLine(f.name) + "\n", FixNL(f.data), FormatFiles(rest));
    }
  }

  lemma FixCons(f: File, rest: seq<File>)
    ensures FixFiles([f] + rest) == [File(f.name, FixNL(f.data))] + FixFiles(rest)
  {
  }

  lemma {:induction false} FileLinesMean(files: seq<File>)
    requires FilesOk(files)
    ensures Meaning(FileLines(files)) == Archive("", FixFiles(files))
  {
    if files != [] {
      var f, rest := files[0], files[1..];
      assert FileOk(f) && FilesOk(rest);
      FileLinesMean(rest);
      ConsMeans(f, FileLines(rest), FixFiles(rest));
      assert files == [f] + rest;
      FixCons(f, rest);
    }
  }

  lemma {:induction false} FileLinesPlain(files: seq<File>)
    requires FilesOk(files)
    ensures NoNewlines(FileLines(files)) && !Holds(FileLines(files), OVERLAP)
  {
    if files != [] {
      var f, rest := files[0], files[1..];
      assert FileOk(f) && FilesOk(rest);
      FileLinesPlain(rest);
      MarkLineNames(f.name);
      JoinOfLines(f.data);
      NoNewlinesConcat(LinesOf(f.data), FileLines(rest));
      PlainHasNoOverlap(LinesOf(f.data));
      HoldsConcat(LinesOf(f.data), FileLines(rest), OVERLAP);
    }
  }

  lemma ConsMeans(f: File, ls: Lines, files: seq<File>)
    requires FileOk(f) && Meaning(ls) == Archive("", files)
    ensures Meaning(Cons(MarkLine(f.name), Concat(LinesOf(f.data), ls)))
            == Archive("", [File(f.name, FixNL(f.data))] + files)
  {
    PlainPrefix(LinesOf(f.data), ls);
    JoinOfLines(f.data);
    MarkLineNames(f.name);
    assert FixNL(f.data) + "" == FixNL(f.data);
  }

  /** The lines of a formatted archive are the comment's, then each file's marker and content. */
  lemma FormattedLines(a: Archive)
    requires WellFormed(a)
    ensures LinesOf(Formatted(a)) == Concat(LinesOf(a.comment), FileLines(a.files))
  {
    JoinOfLines(a.comment);
    FileLinesJoin(a.files);
    FileLinesPlain(a.files);
    JoinConcat(LinesOf(a.comment), FileLines(a.files));
    NoNewlinesConcat(LinesOf(a.comment), FileLines(a.files));
    LinesOfJoin(Concat(LinesOf(a.comment), FileLines(a.files)));
  }

  /** What a text without overlapping lines means is a well-formed archive with all final newlines in place. */
  lemma {:induction false} MeaningWellFormed(ls: Lines)
    requires NoNewlines(ls) && !Holds(ls, OVERLAP)
    ensures WellFormed(Meaning(ls)) && Fixed(Meaning(ls)) == Meaning(ls)
  {
    if ls.Cons? {
      var l, a := ls.line, Meaning(ls.rest);
      MeaningWellFormed(ls.rest);
      assert Terminated(a.comment);
      if NameOf(l) != "" {
        NamesAreOk(l);
        var f := File(NameOf(l), a.comment);
        assert FileOk(f);
        FixCons(f, a.files);
      } else {
        LineThenRest(l, a.comment);
        assert PlainLine(l);
        assert Terminated(l + "\n" + a.comment);
      }
    }
  }

  /** Parsing a formatted archive gives it back, final newlines added, exactly when the archive is well-formed. */
  lemma FormatThenParse(a: Archive)
    ensures WellFormed(a) <==> !Holds(LinesOf(Formatted(a)), OVERLAP) && Meaning(LinesOf(Formatted(a))) == Fixed(a)
  {
    var ls := LinesOf(Formatted(a));
    if WellFormed(a) {
      FormattedLines(a);
      FileLinesMean(a.files);
      FileLinesPlain(a.files);
      PlainPrefix(LinesOf(a.comment), FileLines(a.files));
      JoinOfLines(a.comment);
      PlainHasNoOverlap(LinesOf(a.comment));
      HoldsConcat(LinesOf(a.comment), FileLines(a.files), OVERLAP);
      assert FixNL(a.comment) + "" == FixNL(a.comment);
    }
    if !Holds(ls, OVERLAP) && Meaning(ls) == Fixed(a) {
      JoinOfLines(Formatted(a));
      MeaningWellFormed(ls);
      FixedWellFormed(a);
    }
  }

  /** Adding a final newline does not change the lines. */
  lemma FixKeepsLines(d: string)
    ensures LinesOf(FixNL(d)) == LinesOf(d)
  {
    JoinOfLines(d);
    LinesOfJoin(LinesOf(d));
  }

  lemma FixedWellFormed(a: Archive)
    requires WellFormed(Fixed(a))
    ensures WellFormed(a)
  {
    FixKeepsLines(a.comment);
    forall k | 0 <= k < |a.files| ensures FileOk(a.files[k]) {
      assert FileOk(Fixed(a).files[k]);
      FixKeepsLines(a.files[k].data);
    }
  }

  /** An archive and its text, both ways; the marker in the text that is parsed has white space around the name. */
  method Example() returns (text: string, ok: bool, a: Archive)
    ensures text == "about\n-- a.go --\nx\n"
    ensures ok && a == Archive("about\n", [File("a.go", "x\n")])
  {
    ExampleText();
    ExampleMeaning();
    text := Format(Archive("about\n", [File("a.go", "x\n")]));
    ok, a := Parse("about\n--  a.go --\nx\n");
  }

  lemma ExampleText()
    ensures Formatted(Archive("about\n", [File("a.go", "x\n")])) == "about\n-- a.go --\nx\n"
  {
    var f := File("a.go", "x\n");
    assert [f][1..] == [];
    assert FormatFiles([f][1..]) == "";
    assert FormatFile(f) == "-- a.go --\nx\n";
    assert FormatFiles([f]) == "-- a.go --\nx\n";
  }

  function ExampleLines(): Lines {
    Cons("about", Cons("--  a.go --", Cons("x", Nil)))
  }

  lemma ExampleJoin()
    ensures LinesOf("about\n--  a.go --\nx\n") == ExampleLines()
  {
    var l1 := Cons("x", Nil);
    var l2 := Cons("--  a.go --", l1);
    assert Join(l1) == "x\n" && Join(l2) == "--  a.go --\nx\n";
    assert Join(ExampleLines()) == "about\n--  a.go --\nx\n";
    LinesOfJoin(ExampleLines());
  }

  lemma ExampleName()
    ensures NameOf("--  a.go --") == "a.go" && "--  a.go --" != OVERLAP
    ensures NameOf("x") == "" && NameOf("about") == "" && "x" != OVERLAP && "about" != OVERLAP
  {
    var line := "--  a.go --";
    assert line[3..|line| - 3] == " " + "a.go" + "";
    TrimSpaceIs(" ", "a.go", "");
    assert !OccursAt("about", MARKER, 0) by { assert "about"[0] != MARKER[0]; }
  }

  lemma ExampleMeaning()
    ensures var ls := LinesOf("about\n--  a.go --\nx\n");
            !Holds(ls, OVERLAP) && Meaning(ls) == Archive("about\n", [File("a.go", "x\n")])
  {
    ExampleJoin();
    ExampleName();
    var l1 := Cons("x", Nil);
    var l2 := Cons("--  a.go --", l1);
    assert Meaning(l1) == Archive("x\n", []);
    assert Meaning(l2) == Archive("", [File("a.go", "x\n")]);
    assert !Holds(l1, OVERLAP) && !Holds(l2, OVERLAP);
  }

  /** For every text without an overlapping line, formatting what it means and parsing again changes nothing. */
  lemma ParseFormatParse(d: string)
    requires !Holds(LinesOf(d), OVERLAP)
    ensures var a := Meaning(LinesOf(d));
            !Holds(LinesOf(Formatted(a)), OVERLAP) && Meaning(LinesOf(Formatted(a))) == a
  {
    JoinOfLines(d);
    MeaningWellFormed(LinesOf(d));
    FormatThenParse(Meaning(LinesOf(d)));
  }
}
