/** Precedence declarations: how the reader stores associativity, level and type in one word, and how they are read. */
module Levels {
  import opened Grammars

  /** An int, of 32 bits at the least. */
  type Word = bv32

  const NOASC: Word := 0
  const LASC: Word := 1
  const RASC: Word := 2
  const BASC: Word := 3

  const ACTFLAG: Word := 4
  const REDFLAG: Word := 8

  // ---------------------------------------------------------------- the fields

  function Assoc(i: Word): Word { i & 3 }
  function PLevel(i: Word): Word { (i >> 4) & 63 }
  function TypeOf(i: Word): Word { (i >> 10) & 63 }

  function SetAsc(i: Word, j: Word): Word { i | j }
  function SetPLev(i: Word, j: Word): Word { i | (j << 4) }
  function SetType(i: Word, j: Word): Word { i | (j << 10) }

  /** An associativity and a level as declared; level 0 means that none was. */
  datatype Level = Level(assoc: Word, level: Word)

  const NoLevel := Level(NOASC, 0)

  predicate IsLevel(l: Level) {
    l.assoc <= 3 && l.level < 64
  }

  /** The word of a token or rule declared with level l and type ty: fields set on zero, and the flags of rules. */
  function WordOf(l: Level, ty: Word, flags: Word): Word {
    SetType(SetPLev(SetAsc(0, l.assoc), l.level), ty) | flags
  }

  /** No bit but those of ACTFLAG and REDFLAG. */
  predicate IsFlags(flags: Word) {
    flags & 12 == flags
  }

  /** The word is what the reader writes for this level, whatever the type and the flags. */
  ghost predicate Stored(w: Word, l: Level) {
    IsLevel(l) && exists ty, flags :: ty < 64 && IsFlags(flags) && w == WordOf(l, ty, flags)
  }

  /** What was declared is read back, and neither type nor flags disturb it. */
  lemma ReadBack(l: Level, ty: Word, flags: Word)
    requires IsLevel(l) && ty < 64 && IsFlags(flags)
    ensures Assoc(WordOf(l, ty, flags)) == l.assoc && PLevel(WordOf(l, ty, flags)) == l.level
    ensures TypeOf(WordOf(l, ty, flags)) == ty
  {
  }

  lemma StoredReadBack(w: Word, l: Level)
    requires Stored(w, l)
    ensures Assoc(w) == l.assoc && PLevel(w) == l.level
  {
    var ty, flags :| ty < 64 && IsFlags(flags) && w == WordOf(l, ty, flags);
    ReadBack(l, ty, flags);
  }

  /** A level is read back iff it is below 64: the 64th declaration is read as none at all. */
  lemma LevelFits(a: Word, l: Word)
    requires a <= 3 && l < 0x40_0000
    ensures PLevel(WordOf(Level(a, l), 0, 0)) == l <==> l < 64
    ensures l == 64 ==> PLevel(WordOf(Level(a, l), 0, 0)) == 0 && TypeOf(WordOf(Level(a, l), 0, 0)) == 1
  {
  }

  // ---------------------------------------------------------------- declaring tokens

  datatype Result = Ok(word: Word) | Redeclared

  /** A `%left`, `%right`, `%nonassoc` or `%token` line comes to a token: lev is 0 for `%token`, i counts the lines
      that declare levels, ty is 0 where the line names no type. */
  method DeclareToken(w: Word, lev: Word, i: Word, ty: Word, ghost l0: Level, ghost ty0: Word) returns (r: Result)
    requires IsLevel(l0) && ty0 < 64 && w == WordOf(l0, ty0, 0) && (l0.assoc == 0 ==> l0.level == 0)
    requires lev <= 3 && i < 64 && ty < 64
    ensures r.Redeclared? <==> (lev != 0 && l0.assoc != 0) || (ty != 0 && ty0 != 0)
    ensures r.Ok? ==>
              r.word == WordOf(if lev != 0 then Level(lev, i) else l0, if ty != 0 then ty else ty0, 0)
  {
    ReadBack(l0, ty0, 0);
    var word := w;
    if lev != 0 {
      if Assoc(word) != 0 {
        return Redeclared;
      }
      word := SetAsc(word, lev);
      word := SetPLev(word, i);
      LevelAdded(ty0, lev, i);
    }
    if ty != 0 {
      if TypeOf(word) != 0 {
        return Redeclared;
      }
      TypeAdded(if lev != 0 then Level(lev, i) else l0, ty);
      word := SetType(word, ty);
    }
    r := Ok(word);
  }

  lemma LevelAdded(ty: Word, lev: Word, i: Word)
    requires ty < 64 && lev <= 3 && i < 64
    ensures SetPLev(SetAsc(WordOf(NoLevel, ty, 0), lev), i) == WordOf(Level(lev, i), ty, 0)
    ensures TypeOf(WordOf(Level(lev, i), ty, 0)) == ty
  {
  }

  lemma TypeAdded(l: Level, ty: Word)
    requires IsLevel(l) && ty < 64
    ensures SetType(WordOf(l, 0, 0), ty) == WordOf(l, ty, 0)
  {
  }

  // ---------------------------------------------------------------- the level of a rule

  /** What the reader meets in the body of a rule: a symbol, `%prec` with a token, an action at the end or amid. */
  datatype Part = Sym(symbol: int) | Prec(token: int) | Act | MidAct

  predicate IsPart(part: Part, ntokens: nat) {
    match part
    case Sym(x) => 1 <= x <= ntokens || x >= NTBASE
    case Prec(t) => 1 <= t <= ntokens
    case Act => true
    case MidAct => true
  }

  /** The token a part names, 0 for none. */
  function Named(part: Part): int {
    match part
    case Sym(x) => if x < NTBASE then x else 0
    case Prec(t) => t
    case Act => 0
    case MidAct => 0
  }

  /** Token t is the last one named, in a symbol or a `%prec`; 0 when none is. */
  ghost predicate LastNamed(parts: seq<Part>, t: int) {
    if t == 0 then forall k :: 0 <= k < |parts| ==> Named(parts[k]) == 0
    else exists k :: 0 <= k < |parts| && Named(parts[k]) == t && forall j :: k < j < |parts| ==> Named(parts[j]) == 0
  }

  lemma OrOff(x: Word, f: Word)
    ensures (x | f) & !ACTFLAG == (x & !ACTFLAG) | (f & !ACTFLAG)
  {
  }

  lemma NoFlag(a: Word, l: Word, ty: Word)
    requires a <= 3
    ensures SetType(SetPLev(SetAsc(0, a), l), ty) & !ACTFLAG == SetType(SetPLev(SetAsc(0, a), l), ty)
  {
  }

  lemma OrOn(x: Word, f: Word, f': Word)
    ensures (x | f) | f' == x | (f | f')
  {
  }

  lemma FlagsStay(flags: Word, f: Word)
    requires IsFlags(flags) && (f == ACTFLAG || f == REDFLAG)
    ensures IsFlags(flags | f) && IsFlags(flags & !ACTFLAG)
  {
  }

  lemma StoredBy(w: Word, l: Level, ty: Word, flags: Word)
    requires IsLevel(l) && ty < 64 && IsFlags(flags) && w == WordOf(l, ty, flags)
    ensures Stored(w, l)
  {
  }

  function Noted(w: Word): Word { w | ACTFLAG }
  function Reduced(w: Word): Word { w | REDFLAG }
  function TakenBack(w: Word): Word { w & !ACTFLAG }

  lemma NotedWord(l: Level, ty: Word, flags: Word, f: Word)
    ensures WordOf(l, ty, flags) | f == WordOf(l, ty, flags | f)
  {
    OrOn(SetType(SetPLev(SetAsc(0, l.assoc), l.level), ty), flags, f);
  }

  lemma TakenBackWord(l: Level, ty: Word, flags: Word)
    requires IsLevel(l)
    ensures TakenBack(WordOf(l, ty, flags)) == WordOf(l, ty, flags & !ACTFLAG)
  {
    OrOff(SetType(SetPLev(SetAsc(0, l.assoc), l.level), ty), flags);
    NoFlag(l.assoc, l.level, ty);
  }

  /** Noting that a rule has an action, or is reduced, leaves its level, and so does taking the note back. */
  lemma FlagsKeep(w: Word, l: Level)
    requires Stored(w, l)
    ensures Stored(Noted(w), l) && Stored(Reduced(w), l) && Stored(TakenBack(w), l)
  {
    var ty, flags :| ty < 64 && IsFlags(flags) && w == WordOf(l, ty, flags);
    NotedKeeps(l, ty, flags);
    ReducedKeeps(l, ty, flags);
    TakenBackKeeps(l, ty, flags);
  }

  lemma NotedKeeps(l: Level, ty: Word, flags: Word)
    requires IsLevel(l) && ty < 64 && IsFlags(flags)
    ensures Stored(Noted(WordOf(l, ty, flags)), l)
  {
    FlagsStay(flags, ACTFLAG);
    NotedWord(l, ty, flags, ACTFLAG);
    StoredBy(Noted(WordOf(l, ty, flags)), l, ty, flags | ACTFLAG);
  }

  lemma ReducedKeeps(l: Level, ty: Word, flags: Word)
    requires IsLevel(l) && ty < 64 && IsFlags(flags)
    ensures Stored(Reduced(WordOf(l, ty, flags)), l)
  {
    FlagsStay(flags, REDFLAG);
    NotedWord(l, ty, flags, REDFLAG);
    StoredBy(Reduced(WordOf(l, ty, flags)), l, ty, flags | REDFLAG);
  }

  lemma TakenBackKeeps(l: Level, ty: Word, flags: Word)
    requires IsLevel(l) && ty < 64 && IsFlags(flags)
    ensures Stored(TakenBack(WordOf(l, ty, flags)), l)
  {
    FlagsStay(flags, ACTFLAG);
    TakenBackWord(l, ty, flags);
    StoredBy(TakenBack(WordOf(l, ty, flags)), l, ty, flags & !ACTFLAG);
  }

  /** A rule has the level of the last token named in it, and none if it names none. */
  method RuleWord(toklev: seq<Word>, parts: seq<Part>, ghost levels: seq<Level>) returns (w: Word)
    requires |levels| == |toklev| >= 1 && levels[0] == NoLevel
    requires forall t :: 1 <= t < |toklev| ==> Stored(toklev[t], levels[t])
    requires forall k :: 0 <= k < |parts| ==> IsPart(parts[k], |toklev| - 1)
    ensures exists t :: 0 <= t < |toklev| && LastNamed(parts, t) && Stored(w, levels[t])
  {
    w := 0;
    assert 0 as Word == WordOf(NoLevel, 0, 0);
    ghost var t := 0;
    var k := 0;
    while k < |parts|
      invariant 0 <= k <= |parts| && 0 <= t < |toklev| && LastNamed(parts[..k], t) && Stored(w, levels[t])
    {
      NamedNext(parts, k, t);
      match parts[k] {
        case Sym(x) =>
          if x < NTBASE { w, t := toklev[x], x; }
        case Prec(x) =>
          w, t := toklev[x], x;
        case Act =>
          FlagsKeep(w, levels[t]);
          w := Noted(w);
        case MidAct =>
          FlagsKeep(w, levels[t]);
          FlagsKeep(Noted(w), levels[t]);
          w := TakenBack(Noted(w));
      }
      k := k + 1;
    }
    assert parts[..k] == parts;
  }

  lemma NamedNext(parts: seq<Part>, k: nat, t: int)
    requires k < |parts| && LastNamed(parts[..k], t)
    ensures LastNamed(parts[..k + 1], if Named(parts[k]) != 0 then Named(parts[k]) else t)
  {
    var front, all := parts[..k], parts[..k + 1];
    assert all[k] == parts[k] && forall j :: 0 <= j < k ==> all[j] == front[j];
    if Named(parts[k]) == 0 && t != 0 {
      var i :| 0 <= i < |front| && Named(front[i]) == t && forall j :: i < j < |front| ==> Named(front[j]) == 0;
      assert Named(all[i]) == t;
    }
  }
}
