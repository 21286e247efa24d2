/** The parser before packing: action rows and goto columns read directly. */
module RowMachine {
  import opened Iteration
  import opened Grammars
  import opened Items
  import opened Closure
  import opened Automaton
  import opened Generation
  import opened Actions
  import opened Compress
  import opened TablePack
  import opened Engine

  /** The action row and default reduction of each state, the goto column of each nonterminal, and for each
      production its left-hand side and length. */
  datatype Plain = Plain(rows: seq<seq<int>>, defaults: seq<int>, cols: seq<seq<int>>, lhs: seq<int>, len: seq<int>)

  /** What a row says of token t. */
  function RowDecision(row: seq<int>, lastred: int, t: int): Decision
    requires 0 <= t < |row|
  {
    if IsShift(row[t]) then Shift(row[t]) else Intended(row, lastred, t)
  }

  function PlainReduce(m: Plain, c: Config, n: int): Outcome {
    if !(0 <= n < |m.len|) || !(0 <= m.len[n] < |c.stack|) || n >= |m.lhs| then Crashed
    else
      var rest, nt := c.stack[..|c.stack| - m.len[n]], m.lhs[n];
      var s := rest[|rest| - 1];
      if !(0 <= nt < |m.cols|) || !(0 <= s < |m.cols[nt]|) || m.cols[nt][s] == 0 then Crashed
      else Running(c.(stack := rest + [m.cols[nt][s]]))
  }

  function PlainConclude(m: Plain, c: Config, d: Decision): Outcome {
    match d
    case Accept => Accepted(c)
    case Error => Rejected(c)
    case Lost => Crashed
    case Reduce(n) => PlainReduce(m, c, n)
    case Shift(q) => Running(c.(stack := c.stack + [q], token := -1))
  }

  /** One turn: a row that says the same of every token is not asked for one. */
  function PlainStep(m: Plain, input: seq<int>, c: Config): Outcome {
    if c.stack == [] || !(0 <= Top(c) < |m.rows|) || |m.defaults| != |m.rows| then Crashed
    else
      var row, lastred := m.rows[Top(c)], m.defaults[Top(c)];
      if HasShift(row) || HasException(row, lastred) then
        var c1 := Lex(input, c);
        if !(0 <= c1.token < |row|) then Crashed else PlainConclude(m, c1, RowDecision(row, lastred, c1.token))
      else PlainConclude(m, c, Verdict(lastred))
  }

  function PlainNext(m: Plain, input: seq<int>, o: Outcome): Outcome {
    if o.Running? then PlainStep(m, input, o.c) else o
  }

  function PlainTurns(m: Plain, input: seq<int>): Outcome -> Outcome {
    o => PlainNext(m, input, o)
  }

  function PlainRun(m: Plain, input: seq<int>, n: nat): Outcome {
    Iterate(PlainTurns(m, input), Running(Start), n)
  }

  /** Where a row is not asked for a token, it says the same of every token. */
  lemma UnaskedRow(row: seq<int>, lastred: int, t: int)
    requires 0 <= t < |row| && lastred >= 0 && !HasShift(row) && !HasException(row, lastred)
    ensures RowDecision(row, lastred, t) == Verdict(lastred)
  {
    assert !IsShift(row[t]) && !NeedsException(row[t], lastred);
  }

  // ---------------------------------------------------------------- agreement

  /** The decision the packed tables encode. */
  function Decide(p: Parser, s: int, t: int): Decision
    requires ParserOk(p) && 0 <= s < |p.tab.chk|
  {
    var q := ShiftLookup(p.tab, s, t);
    if q != 0 then Shift(q) else Fallback(p.def[s], p.exca, s, t)
  }

  /** The packed tables of state s say exactly what its row says. */
  ghost predicate StateAgrees(g: Grammar, p: Parser, m: Plain, s: int)
    requires ParserOk(p) && 0 <= s < |p.tab.chk| == |m.rows| == |m.defaults|
  {
    && |m.rows[s]| == g.ntokens + 1
    && (p.tab.pact[s] > YYFLAG <==> HasShift(m.rows[s]))
    && (p.def[s] == -2 <==> HasException(m.rows[s], m.defaults[s]))
    && (p.def[s] != -2 ==> p.def[s] == m.defaults[s])
    && (forall t :: 1 <= t <= g.ntokens ==> Decide(p, s, t) == RowDecision(m.rows[s], m.defaults[s], t))
  }

  ghost predicate GotoAgrees(g: Grammar, ks: seq<seq<KItem>>, p: Parser, m: Plain, s: int, n: int)
    requires WellFormed(g) && KernelsOk(g, ks) && ParserOk(p) && 0 <= s < |ks|
  {
    Wants(g, ks, s, NTBASE + n) ==>
      && 1 <= n < |p.tab.pgo| && n < |m.cols| && s < |m.cols[n]|
      && m.cols[n][s] != 0 && GotoLookup(p.tab, n, s) == m.cols[n][s]
  }

  /** The packed tables say exactly what the rows and columns say. */
  ghost predicate Agrees(g: Grammar, ks: seq<seq<KItem>>, p: Parser, m: Plain)
    requires WellFormed(g) && KernelsOk(g, ks) && ParserOk(p) && |ks| == |p.tab.chk|
  {
    && |m.rows| == |m.defaults| == |ks| && m.lhs == p.r1 && m.len == p.r2
    && (forall s :: 0 <= s < |ks| ==> StateAgrees(g, p, m, s))
    && (forall s, n :: 0 <= s < |ks| && 1 <= n <= g.nnonter ==> GotoAgrees(g, ks, p, m, s, n))
  }

  // ---------------------------------------------------------------- packing preserves every run

  lemma SameReduce(g: Grammar, ks: seq<seq<KItem>>, p: Parser, m: Plain, input: seq<int>, c: Config, trees: seq<Tree>,
                   n: int)
    requires WellFormed(g) && Faithful(g, ks, p) && Agrees(g, ks, p, m)
    requires Spells(g, ks, input, c, trees) && ConfigOk(p, c) && CanReduce(g, ks, Top(c), n)
    ensures ReduceBy(p, c, n) == PlainReduce(m, c, n)
  {
    Handle(g, ks, c.stack, trees, n);
    var base := |trees| - (Len(g, n) - 1);
    RuleTables(g, ks, p, n, c.stack[base]);
    assert WfProd(g, n, g.prods[n]);
    assert GotoAgrees(g, ks, p, m, c.stack[base], p.r1[n]);
    assert c.stack[..|c.stack| - p.r2[n]] == c.stack[..base + 1];
  }

  lemma SameConclude(g: Grammar, ks: seq<seq<KItem>>, p: Parser, m: Plain, input: seq<int>, c: Config, trees: seq<Tree>,
                     d: Decision)
    requires WellFormed(g) && Faithful(g, ks, p) && Agrees(g, ks, p, m)
    requires Spells(g, ks, input, c, trees) && ConfigOk(p, c) && (d.Reduce? ==> CanReduce(g, ks, Top(c), d.prod))
    ensures Conclude(p, c, d) == PlainConclude(m, c, d)
  {
    if d.Reduce? { SameReduce(g, ks, p, m, input, c, trees, d.prod); }
  }

  /** A turn in a state that is asked for a token. */
  lemma SameAsked(g: Grammar, ks: seq<seq<KItem>>, p: Parser, m: Plain, input: seq<int>, c: Config, trees: seq<Tree>)
    requires WellFormed(g) && Faithful(g, ks, p) && Agrees(g, ks, p, m) && InputOk(g, input)
    requires Spells(g, ks, input, c, trees) && ConfigOk(p, c)
    requires HasShift(m.rows[Top(c)]) || HasException(m.rows[Top(c)], m.defaults[Top(c)])
    ensures Step(p, input, c) == PlainStep(m, input, c)
  {
    var s, c1 := Top(c), Lex(input, c);
    LexKeeps(g, ks, input, c, trees);
    assert StateAgrees(g, p, m, s);
    assert Lex(input, c1) == c1;
    var d := Decide(p, s, c1.token);
    assert d == RowDecision(m.rows[s], m.defaults[s], c1.token);
    assert p.tab.pact[s] <= YYFLAG ==> ShiftLookup(p.tab, s, c1.token) == 0;
    if !d.Shift? { FallbackOf(g, ks, p, s, c1); }
    SameConclude(g, ks, p, m, input, c1, trees, d);
  }

  lemma SameStep(g: Grammar, ks: seq<seq<KItem>>, p: Parser, m: Plain, input: seq<int>, c: Config)
    requires WellFormed(g) && Faithful(g, ks, p) && Agrees(g, ks, p, m) && InputOk(g, input)
    requires Sound(g, ks, input, Running(c))
    ensures ConfigOk(p, c) && Step(p, input, c) == PlainStep(m, input, c)
  {
    var trees :| Spells(g, ks, input, c, trees);
    SpellsOk(g, ks, p, input, c, trees);
    var s := Top(c);
    assert StateAgrees(g, p, m, s);
    if HasShift(m.rows[s]) || HasException(m.rows[s], m.defaults[s]) {
      SameAsked(g, ks, p, m, input, c, trees);
    } else {
      FallbackOf(g, ks, p, s, c);
      SameConclude(g, ks, p, m, input, c, trees, Verdict(m.defaults[s]));
    }
  }

  lemma SameNext(g: Grammar, ks: seq<seq<KItem>>, p: Parser, m: Plain, input: seq<int>, o: Outcome)
    requires WellFormed(g) && Faithful(g, ks, p) && Agrees(g, ks, p, m) && InputOk(g, input) && Sound(g, ks, input, o)
    ensures Next(p, input, o) == PlainNext(m, input, o)
  {
    if o.Running? { SameStep(g, ks, p, m, input, o.c); }
  }

  /** Packing and compression preserve every run: turn by turn the parser does what the plain rows say. */
  lemma SameRun(g: Grammar, ks: seq<seq<KItem>>, p: Parser, m: Plain, input: seq<int>, n: nat)
    requires WellFormed(g) && Faithful(g, ks, p) && Agrees(g, ks, p, m) && InputOk(g, input)
    ensures Run(p, input, n) == PlainRun(m, input, n)
  {
    var step, step', inv := Turns(p, input), PlainTurns(m, input), o => Sound(g, ks, input, o);
    StartSound(g, ks, input);
    forall o | inv(o) ensures inv(step(o)) && step(o) == step'(o) {
      NextSound(g, ks, p, input, o);
      SameNext(g, ks, p, m, input, o);
    }
    Alike(step, step', inv, Running(Start), n);
  }
}
