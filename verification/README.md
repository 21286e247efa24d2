# Verified models of goyacc, digraph, gorace, godoc's text formatter and txtar

The repository is a static race detector for Go (`gorace`) together with a fork of the Go tools tree
(`gopta`). This project models five of its algorithmic parts in Dafny and proves what they are for.
`dafny verify dfyconfig.toml` checks everything.

**goyacc** (`gopta/cmd/goyacc/yacc.go`) is modelled from the productions to the running parser:

| stage | files |
|---|---|
| grammars, parse trees, derivation | `Grammar.dfy` |
| `cpres`, `cempty` (productive and nullable nonterminals), `cpfir` (FIRST sets) | `GrammarSets.dfy`, `FirstSets.dfy` |
| LR(1) items, what lookahead means, and `closure` | `Items.dfy`, `Lookahead.dfy`, `ClosureOrder.dfy`, `Closure.dfy` |
| `state`, `putitem`, `stagen`: the automaton | `Automaton.dfy`, `StateGen.dfy`, `Generation.dfy`, `StaGen.dfy` |
| how many states and cells a run can need | `StateCount.dfy`, `Capacity.dfy` |
| lookaheads and marks: in a closure, over one state's turn, over a whole run, and where they are lost | `Carry.dfy`, `Spread.dfy`, `Lalr.dfy`, `LostLookahead.dfy` |
| `apack`: first-fit packing of the goto rows | `GotoPack.dfy` |
| precedence declarations, and the words that hold them | `Levels.dfy` |
| `output`, `precftn`, `wract`: actions, precedence, default reductions | `Actions.dfy`, `Conflicts.dfy`, `Compress.dfy` |
| `go2gen`, `go2out`: gotos by nonterminal | `GotoColumns.dfy` |
| `stin`, `gin`, `nxti`, `callopt`: shifts and gotos packed into one array | `TablePack.dfy`, `Packer.dfy`, `Placement.dfy` |
| `$$Parse`: the machine that reads the tables, what its stack spells, and the same machine on unpacked rows | `Engine.dfy`, `ViablePrefix.dfy`, `RowMachine.dfy` |
| all stages put together | `Generator.dfy` |
| parsers without conflicts: they accept every sentence, and one such parser from end to end | `Completeness.dfy`, `Recognition.dfy`, `ListParser.dfy` |

There are four main theorems about the parsers `Generator.Generate` makes, run on any tokens for any number of turns.
`Generator.GeneratedParserSound`: they never index out of range, a search of the exception table included, and accept
only what the start symbol derives. `Generator.GeneratedParserViable`: whatever the input, the tokens shifted so far
begin a string that the start symbol derives. `Recognition.GeneratedParserDecides`: where the finished automaton has no
conflict and no state that can lose a lookahead (below), a parser accepts an input iff the start symbol derives it.
`ListParser.RecognizeLists` carries this through for one grammar, from its productions to the strings its parser
accepts, and shows that such runs exist. `Generator.GeneratedParserExact`: turn by turn they do what the unpacked
action rows and goto columns say. The automaton determines those rows (`Actions.ExactRowUnique`): they are the gotos on
tokens weighed against the finished items of the closed state, in the order of `closure`, each with the lookahead it
carries there (`Carrying.Carry`: what every family of lookaheads closed above the kernel has). That `output` asks for
lookahead only in states marked MUSTLOOKAHEAD makes no difference to them, because a state is marked iff its closure
brings in a production with nothing to move over (`Lalr.RunEnds`, `Actions.LookaheadSpared`). What an item hands on is
exactly what may follow by the derivations of the grammar (`Lookahead.LookAfterExact`), since `Generator.Prepare` gives
exact nullable marks and FIRST sets.

The lookaheads in the kernels are those of a run of `stagen`, a sequence of turns of marked states (`Lalr.IsRun`), each
of which gives every goto of the state exactly what the items of the state carry (`Spreading.Worked`). At the end of
every run no kernel has a lookahead that some family closed over the whole automaton lacks, and every state that is not
lossy has what it carries in its gotos (`Lalr.RunEnds`); without a lossy state the lookaheads are therefore the LALR(1)
ones, closed over the automaton and the least (`Lalr.LeastFamilies`). A state is lossy (`Carrying.Lossy`) iff its kernel
is its own goto and the order of its closure has a late entry after one that this goto is made from. A grammar
without rules that are empty or begin with `$end` has no such state (`Lalr.NoLateNoLoss`).

All this rests on one result per stage, each stated against an independent definition: derivations for the grammar sets,
the least closed set for `closure`, the set of moved items for the automaton, the action row for its compression, the
unpacked rows for the packed array. The generator's globals are passed in and out of its methods as values, except the
array `amem`, which is updated in place. Lookahead sets are sets of tokens. An item is a production and an offset; the
symbol after its dot is computed rather than stored. `output` and `go2out` also return the rows and columns they
overwrite, so that they can be spoken of. The worklist of `closure` is a sequence that grows; that a kernel finds room in
the source's array `wsets` is `Carrying.KernelFits`. Where an array bound or `NSTATES` is exceeded, or the grammar is
refused, the methods return a failure, and say what did not fit. `Recognition.CellsEnough` gives a number of cells with
which no row lacks a place.

Conflicts are settled by the levels that were declared (`Actions.DeclaredRule`): a level and an associativity are read
back from the word the reader stores, undisturbed by the type and by the flags kept in the same word
(`Levels.StoredReadBack`, `Levels.DeclareToken`, `Levels.RuleWord`).

Five facts about the code came out of the proofs:

* `stagen` can lose a lookahead. `state` marks a state whose kernel grows (line 1997), but when a state grows in its own
  turn, a late entry of its closure, one with nothing to move over, overwrites the mark (line 1760), and what it has gained is never passed on. A state
  ends its turn grown and unmarked iff it grew and is lossy (`Spreading.MarkedAfter` in `Generation.Process`). The grammar
  `A: a A c | B b; B: ;` has a lossy state, and every run of `stagen` on it ends without the token c after `A: a A`
  (`LostLookahead.LookaheadLost`, `LostLookahead.LoseLookahead`).
* `NOMORE` is -1000, which is also what `nxti` returns for nonterminal 1000. With 1000 nonterminals or more `callopt`
  therefore stops, without an error, when that row is the next: the rows ahead of it by weight stand, and no others
  (`Placement.CallOpt`, `Placement.AllPlacedIff`). A goto is read right iff its row stands (`TablePack.GotosExact`),
  so those of nonterminal 1000 never are; `Placement.GotoOnThousandFails` gives an input.
* The base -1000 says that a state has no shifts, and bases below it say so too. A row whose first token is 1001 or
  more can be put there, and its shifts are then lost (`Placement.ShiftOnHighTokenFails`). The shifts of a row that
  stands are found iff its base is above -1000 (`TablePack.FoundIffAboveFlag`), as it is for every row whose first
  token is below 1000 (`TablePack.LowTokenAboveFlag`). Lost shifts cost the parser input, not soundness.
* A level takes six bits of the word. It is read back iff it is below 64; the 64th line that declares levels is read as
  declaring none, and sets a bit of the type (`Levels.LevelFits`).
* In `stin` the bound test lets the offset `ACTSIZE` through (`Packer.TryBase` reports it as an overrun).

**digraph** (`gopta/cmd/digraph/digraph.go`): `Digraph.dfy`, `Reachable.dfy` and `Scc.dfy` model `addEdges`,
`transpose`, `reachableFrom`, `somepath`, `allpaths` and `sccs` over all finite graphs. `allpaths` remembers a node in
progress as not reaching the target, so on cyclic graphs it can miss edges: it prints an edge only if the node it leads to
can step off some simple path from the start, on the way to the target, and it prints them all if every simple path can be
stepped off (`Reachable.AllPaths`). Between the two the order of Go's map iteration decides. In 1->2, 2->1, 1->3 the edge
from 1 to 2 is never printed (`Reachable.ShutIn`, `Reachable.MissEdge`). A loop over a Go map takes its
elements in an arbitrary order, so the results hold for every iteration order. Recursive closures are recursive
methods that pass the variables they capture.

**gorace** (`gorace/shbgraph.go`, `gorace/raceCollection.go`): `HappensBefore.dfy` models `buildHB` on traces of plain
instructions, accesses, go statements and WaitGroup calls; `Races.dfy` models the cached breadth-first search and
`checkRacyPairs`. A graph node is named by the trace position it is made for. The questions put to the pointer
analysis and to the control flow (same address, may run in parallel, mutually excluded, both atomic, ...) are arbitrary
functions, so the results hold whatever they answer. Two ways in which an ordering by a WaitGroup is missed are stated as
lemmas: a `Wait` executed more than once (`HappensBefore.RepeatedWaitMissed`), and a `Done` of a goroutine numbered
below the waiting one (`HappensBefore.EarlierDoneMissed`); `HappensBefore.WaitEdgeIff` says exactly when there is an
edge.

**godoc** (`gopta/godoc/format.go`): `Selections.dfy` models `merger` and `FormatSelections`, `Lines.dfy` the two
selections godoc builds itself. A selection is the list of the segments its calls return.

**txtar** (`gopta/txtar/archive.go`): `Txtar.dfy`. Text is a sequence of Unicode code points. The line `-- --` makes
`isMarker` slice out of range; `Txtar.Parse` fails exactly on texts with such a line.

`Paths.dfy` holds walks and reachability, shared by the graph parts; `Iteration.dfy` the iteration of a step.

## Model

| member | source | states |
|---|---|---|
| GrammarSets.MarkProductive | gopta/cmd/goyacc/yacc.go:1559-1602 | the marks are exactly the nonterminals that derive some token string |
| GrammarSets.MarkEmpty | gopta/cmd/goyacc/yacc.go:1609-1639 | the marks are exactly the nonterminals that derive the empty string |
| GrammarSets.CEmpty | gopta/cmd/goyacc/yacc.go:1559-1639 | refuses exactly the user nonterminals that derive nothing, else marks exactly the nullable ones |
| GrammarSets.AllProductive | gopta/cmd/goyacc/yacc.go:1592-1602 | a grammar that passes has no unproductive nonterminal, `$accept` included |
| GrammarSets.CollectRules | gopta/cmd/goyacc/yacc.go:1518-1553 | one nonterminal's list holds exactly its productions, in order |
| GrammarSets.CPres | gopta/cmd/goyacc/yacc.go:1518-1553 | every nonterminal's list is exactly its productions, and those without any are reported |
| FirstSets.SpreadRule | gopta/cmd/goyacc/yacc.go:1674-1696 | one turn of the transitivity loop adds only tokens that can begin the nonterminal, reports a change iff there is one, and satisfies the rule's equation if not |
| FirstSets.FirstComplete | gopta/cmd/goyacc/yacc.go:1644-1696 | every solution of the FIRST equations holds the first token of every derived string |
| FirstSets.CpFir | gopta/cmd/goyacc/yacc.go:1644-1696 | terminates with exactly the tokens that begin a derived string, a solution and so the least one |
| Items.CloIsClosed | gopta/cmd/goyacc/yacc.go:1804-1916 | the reference closure has every production of a nonterminal after a dot |
| Items.CloLeast | gopta/cmd/goyacc/yacc.go:1804-1916 | the reference closure is contained in every closed set above the kernel |
| Lookahead.LookAfterExact | gopta/cmd/goyacc/yacc.go:1842-1869 | a token is handed on iff it begins what the rest of the production derives, or the rest can vanish and the token is in the lookahead behind it |
| ClosureOrder.ExpandSaturates | gopta/cmd/goyacc/yacc.go:1819-1914 | taking the listed items in turn and adding the productions each calls for ends with a list that has them all |
| Closure.AddLookahead | gopta/cmd/goyacc/yacc.go:1850-1869 | what an item hands to its nonterminal is FIRST of the rest, and its own lookahead if the rest is nullable |
| Closure.Gather | gopta/cmd/goyacc/yacc.go:1834-1870 | all waiting items before the same nonterminal are served in one turn and their flags cleared, nothing else changes |
| Closure.MergeAll | gopta/cmd/goyacc/yacc.go:1872-1914 | every production of the nonterminal is present with at least the lookahead, no entry for another production changes, the remaining work falls |
| Closure.Visit | gopta/cmd/goyacc/yacc.go:1821-1915 | an entry's turn keeps the worklist below every closed family and reduces what is left to do |
| Closure.Close | gopta/cmd/goyacc/yacc.go:1804-1916 | ends with all flags clear, the items of the reference closure each once and in the order they are called for, and the least lookaheads closed under handing on |
| Carrying.CarryKernel | gopta/cmd/goyacc/yacc.go:1807-1815 | a kernel item carries in the closure exactly what the kernel has for it |
| Carrying.CarryHands | gopta/cmd/goyacc/yacc.go:1842-1895 | what items carry is closed: a production carries all that an item before its left-hand side hands on |
| Carrying.ClosedIsList | gopta/cmd/goyacc/yacc.go:1804-1916 | with lookahead, `closure` has one possible result: the listing, each item with what it carries |
| Carrying.KernelFits | gopta/cmd/goyacc/yacc.go:1807-1815 | a kernel is no longer than the closure it was taken from, so it finds its entries allocated |
| Automaton.SortedUnique | gopta/cmd/goyacc/yacc.go:1944-1958 | equal item sets sort to equal cores, so cores can be compared entry by entry |
| Automaton.GotoUnique | gopta/cmd/goyacc/yacc.go:1936-2023 | a state has at most one goto on a symbol |
| Automaton.AddStateOk | gopta/cmd/goyacc/yacc.go:2004-2023 | a new state keeps cores distinct and the chains acyclic, partitioning the states by accessing symbol |
| StateGen.SortItems | gopta/cmd/goyacc/yacc.go:1944-1958 | sorts the gathered items by production and then by dot, and keeps them all |
| StateGen.FindState | gopta/cmd/goyacc/yacc.go:1960-2002 | walking the chain finds the state with the core iff there is one |
| StateGen.MergeLooks | gopta/cmd/goyacc/yacc.go:1990-2000 | unions lookaheads item by item and reports a change iff there is one |
| StateGen.GoneIsGotoSet | gopta/cmd/goyacc/yacc.go:2025-2046 | the items put by `putitem` are the closure items with the dot moved over the symbol |
| StateGen.State | gopta/cmd/goyacc/yacc.go:1936-2023 | returns the one state with that core, adding it only if it is new; with lookahead on, the lookaheads of a state found become the unions and it is marked iff they grew, all other states standing; fails only when the state table is full or lookahead is off |
| Generation.DoGoto | gopta/cmd/goyacc/yacc.go:1765-1779 | the goto on the symbol after an item's dot is registered, and every item before that symbol is flagged |
| Generation.Process | gopta/cmd/goyacc/yacc.go:1744-1780 | afterwards the state has its goto on every symbol it wants, and the row of nonterminal gotos is exact; states are added as its gotos only, and each goto has got exactly what the items carry; other states are marked iff new or grown, the state itself iff it grew and is not lossy, and otherwise it needs lookahead iff it has late productions; a state already complete adds none |
| Spreading.GoneLook | gopta/cmd/goyacc/yacc.go:1765-1773 | what is put for a goto is what the items carried before their dots were moved |
| Spreading.MarkErased | gopta/cmd/goyacc/yacc.go:1757-1762 | a late entry leaves MUSTLOOKAHEAD, whatever mark the state had |
| StaGen.FirstPass | gopta/cmd/goyacc/yacc.go:1721-1799 | the first pass is a run that leaves every state with its gotos, stored in the packed array; fails only when the table of states is full or no base has room for a goto row, which takes no more cells than the rows so far are long |
| StaGen.LaterPass | gopta/cmd/goyacc/yacc.go:1737-1799 | a later pass continues the run: each marked state it comes to has its turn; it adds no state and loses no goto |
| StaGen.GenerateStates | gopta/cmd/goyacc/yacc.go:1712-1799 | terminates, as a run with nothing left marked; cores are pairwise distinct, every wanted goto exists, all goto rows are found in `amem`; marks are exact, lookaheads are in every family closed over the automaton, and have all that states which are not lossy carry |
| Lalr.TurnCarries | gopta/cmd/goyacc/yacc.go:1765-1779 | a state whose kernel stood through its turn has all it carries in its gotos |
| Lalr.JustifiedStep | gopta/cmd/goyacc/yacc.go:1744-1780 | a turn adds no lookahead that some family closed over the automaton lacks |
| Lalr.RunEnds | gopta/cmd/goyacc/yacc.go:1731-1799 | when nothing is marked: a state is MUSTLOOKAHEAD iff it has late productions, states that are not lossy carry on, every closed family has the lookaheads, and every state is a goto of one before it |
| Lalr.LeastFamilies | gopta/cmd/goyacc/yacc.go:1731-1799 | without a lossy state what the closures carry is closed over the whole automaton, and every closed family has it: the LALR(1) lookaheads |
| Lalr.NoLateNoLoss | gopta/cmd/goyacc/yacc.go:1757-1762 | no state is lossy in a grammar without rules that are empty or begin with `$end` |
| LostLookahead.LookaheadLost | gopta/cmd/goyacc/yacc.go:1757-1762 | a witness: every finished run on `A: a A c | B b; B: ;` lacks a lookahead that all closed families have |
| LostLookahead.LoseLookahead | gopta/cmd/goyacc/yacc.go:1712-1799 | such a run exists: `stagen` on that grammar, with a free array of ACTSIZE cells, does not fail and loses the lookahead |
| GotoPack.NeverLost | gopta/cmd/goyacc/yacc.go:2087-2149 | over any sequence of calls, every row packed so far is still found at its offset |
| GotoPack.APack | gopta/cmd/goyacc/yacc.go:2087-2149 | the row is found at the returned offset and no used cell changes; fails only if no base has room |
| Levels.StoredReadBack | gopta/cmd/goyacc/yacc.go:136-148 | the associativity and level that were declared are read back, whatever type and flags share their word |
| Levels.LevelFits | gopta/cmd/goyacc/yacc.go:139-146 | a level is read back iff it is below 64 |
| Levels.DeclareToken | gopta/cmd/goyacc/yacc.go:505-523 | a token keeps its level and type and gets those declared; fails iff it had one already |
| Levels.RuleWord | gopta/cmd/goyacc/yacc.go:584-643 | a rule has the level of the last token named in it, by a symbol or `%prec`, and none if it names none |
| Actions.LowestRuleWins | gopta/cmd/goyacc/yacc.go:2214-2226 | among reductions alone the lowest-numbered rule is kept |
| Actions.PrecedenceRule | gopta/cmd/goyacc/yacc.go:2210-2275 | a shift against any list of reductions: it stands, or is an error if one forbids it, unless one wins; from the first that wins on, the lowest rule is reduced and precedence is not asked |
| Actions.DeclaredRule | gopta/cmd/goyacc/yacc.go:2241-2275 | how each reduction fares is what was declared for its rule and the token: the later level wins, at equal levels `%left` reduces, `%right` shifts and `%nonassoc` forbids, and without a level the shift stands |
| Actions.ResolveKinds | gopta/cmd/goyacc/yacc.go:2210-2231 | an entry stays a shift, becomes one of the reductions, or becomes an error |
| Actions.Shifts | gopta/cmd/goyacc/yacc.go:2176-2194 | the row holds exactly the gotos on tokens |
| Actions.Reductions | gopta/cmd/goyacc/yacc.go:2199-2232 | each entry is the shift weighed, in list order, against the finished items that have its token in their lookahead |
| Actions.FinishedItem | gopta/cmd/goyacc/yacc.go:2201-2208 | an item at its end reduces its own production, never production 0 |
| Actions.StateActions | gopta/cmd/goyacc/yacc.go:2154-2234 | the row is exactly the gotos on tokens, with the accept of state 1, weighed against the finished items of the closed state with the lookaheads they carry, whether lookahead was recomputed or not |
| Actions.LookaheadSpared | gopta/cmd/goyacc/yacc.go:2163-2172 | where no late production needs it, closing without lookahead gives the same finished items with the same lookaheads |
| Actions.ExactRowUnique | gopta/cmd/goyacc/yacc.go:2154-2234 | the automaton determines the row |
| Conflicts.RowReduces | gopta/cmd/goyacc/yacc.go:2199-2232 | where nothing else is to be done, a finished item is reduced on every token it carries |
| Conflicts.RowAcceptsAnyway | gopta/cmd/goyacc/yacc.go:2195-2197 | state 1 accepts on `$end` when that has no level, whatever the conflicts |
| Compress.ChooseDefault | gopta/cmd/goyacc/yacc.go:2284-2307 | the default is a reduction that occurs most often in the row as a multiset, the first such in the row |
| Compress.SplitRow | gopta/cmd/goyacc/yacc.go:2317-2365 | shifts go to the shift row and entries the default does not cover to the exceptions, all of them, each in token order |
| Compress.WrAct | gopta/cmd/goyacc/yacc.go:2281-2366 | the shift row, default and exceptions encode the action row; no default reduction when `error` is shifted |
| Compress.EncodesAppend | gopta/cmd/goyacc/yacc.go:2353-2364 | exceptions of later states do not disturb earlier ones |
| Compress.EncodesDecides | gopta/cmd/goyacc/yacc.go:3485-3511 | the parser's search of the exceptions never runs off the table and reads back every nonzero entry, and the default or error elsewhere |
| Compress.MarkedIffException | gopta/cmd/goyacc/yacc.go:2361-2364 | the default is the mark -2 iff the row has exceptions |
| GotoColumns.MarkLeads | gopta/cmd/goyacc/yacc.go:2511-2529 | marks exactly the nonterminals with a left edge path to the given one |
| GotoColumns.WantsIffLeads | gopta/cmd/goyacc/yacc.go:2531-2556 | a state has a goto on the nonterminal iff its kernel leads to it |
| GotoColumns.Go2Gen | gopta/cmd/goyacc/yacc.go:2508-2557 | the column holds exactly the gotos on the nonterminal |
| GotoColumns.GotoRowOf | gopta/cmd/goyacc/yacc.go:2443-2503 | the row is a most frequent goto as default and exactly the other gotos |
| TablePack.ShiftsExact | gopta/cmd/goyacc/yacc.go:3461-3483 | the packed lookup shifts to q iff the state's row stands above the flag and says so, for every state and token |
| TablePack.FoundIffAboveFlag | gopta/cmd/goyacc/yacc.go:3461-3465 | the shifts of a row that stands are found iff its base is above -1000, and otherwise none of them is |
| TablePack.LowTokenAboveFlag | gopta/cmd/goyacc/yacc.go:2759-2771 | a row whose first token is below 1000 stands above -1000 |
| TablePack.GotosExact | gopta/cmd/goyacc/yacc.go:3578-3590 | where a state has a goto on a nonterminal, the packed lookup finds it iff the nonterminal's row stands |
| Packer.TwinIsEqual | gopta/cmd/goyacc/yacc.go:2773-2795 | a row of equal length found in place at another state's base is that state's row |
| Packer.TryBase | gopta/cmd/goyacc/yacc.go:2759-2771 | a base is taken iff every cell is free or already right; the only overrun is the cell just past the array |
| Packer.WriteRow | gopta/cmd/goyacc/yacc.go:2797-2806 | writes exactly the row's cells and overwrites none in use |
| Packer.StIn | gopta/cmd/goyacc/yacc.go:2748-2815 | keeps every row placed so far and adds this one at the lowest base free for it or shared with its twin; fails only if no base is left |
| Packer.GIn | gopta/cmd/goyacc/yacc.go:2702-2746 | keeps every row placed so far and adds this goto row with its default; fails only if no place has its cells free |
| Placement.NxtI | gopta/cmd/goyacc/yacc.go:2681-2700 | the number of greatest weight, states first and the higher number on ties; -1000 when all weights are zero |
| Placement.TopIsNext | gopta/cmd/goyacc/yacc.go:2681-2700 | the row of that number is ahead of every row left |
| Placement.Weights | gopta/cmd/goyacc/yacc.go:2590-2639 | every row has its weight, and no first token lies beyond the search offset |
| Placement.WeightIs | gopta/cmd/goyacc/yacc.go:2604-2638 | the weight of a row is the length of its vector and twice its greatest index |
| Placement.CallOpt | gopta/cmd/goyacc/yacc.go:2584-2676 | terminates; below 1000 nonterminals every row stands, from 1000 on exactly the rows ahead of row 1000; a failure names the next row, which has no place |
| Placement.AllPlacedIff | gopta/cmd/goyacc/yacc.go:2653-2661 | every row stands iff there are fewer than 1000 nonterminals |
| Placement.GotoOnThousandFails | gopta/cmd/goyacc/yacc.go:2653-2661 | a witness: with 1000 nonterminals `callopt` ends without an error and a goto is lost |
| Placement.ShiftOnHighTokenFails | gopta/cmd/goyacc/yacc.go:2755-2771 | a witness: `callopt` puts a row with first token 1001 at base -1001, where its shift is not found |
| Engine.BeforeDot | gopta/cmd/goyacc/yacc.go:3461-3483 | for every item of the top state, the symbols before its dot are the roots on top of the stack |
| Engine.Handle | gopta/cmd/goyacc/yacc.go:3564-3568 | a reducible production's right-hand side is what the stack top spells, and the state below wants its left-hand side |
| Engine.AcceptStack | gopta/cmd/goyacc/yacc.go:3507-3511 | in the accepting state the stack is one tree of the start symbol |
| Engine.ReduceKeeps | gopta/cmd/goyacc/yacc.go:3559-3594 | a reduction never crashes and keeps the stack a spelling of the tokens shifted |
| Engine.RunSound | gopta/cmd/goyacc/yacc.go:3446-3594 | over whole runs: the invariant holds, no index or search leaves its table, and acceptance means a derivation |
| ViablePrefix.StackViable | gopta/cmd/goyacc/yacc.go:3446-3594 | what the stack of an LR machine spells begins a string that the start symbol derives |
| ViablePrefix.ShiftedViable | gopta/cmd/goyacc/yacc.go:3446-3594 | over whole runs, rejected ones too: the tokens shifted begin such a string |
| Completeness.ParseTree | gopta/cmd/goyacc/yacc.go:3446-3594 | in a state that waits for the root of a tree, with what comes after it in the lookahead, the machine shifts and reduces its way to the goto on the root and consumes the tree's tokens |
| Completeness.PlainComplete | gopta/cmd/goyacc/yacc.go:3446-3594 | machines whose rows do all that a lossless automaton calls for accept every string that the start symbol derives |
| Engine.ParserImpl.Exception | gopta/cmd/goyacc/yacc.go:3493-3507 | the two scans of the exception table compute the reference lookup, nothing where they would run off the table |
| Engine.ParserImpl.Reduce | gopta/cmd/goyacc/yacc.go:3559-3594 | pops, reads the goto table and pushes as the reference machine does |
| Engine.ParserImpl.Turn | gopta/cmd/goyacc/yacc.go:3446-3594 | one turn is one step of the reference machine |
| Engine.ParserImpl.Parse | gopta/cmd/goyacc/yacc.go:3419-3594 | the loop computes the run of the reference machine |
| RowMachine.UnaskedRow | gopta/cmd/goyacc/yacc.go:3461-3465 | a state that is not asked for a token has a row that says the same of every token |
| RowMachine.SameRun | gopta/cmd/goyacc/yacc.go:3446-3594 | packing and compression preserve every run: the packed machine and the machine on unpacked rows agree turn by turn |
| Generator.Checks | gopta/cmd/goyacc/yacc.go:2846-2857 | the check value of every state is its accessing symbol, and -1000 for state 0 |
| Generator.Prepare | gopta/cmd/goyacc/yacc.go:347-356 | the verdict on undefined and unproductive nonterminals is exact; if there are none, so are the nullable marks and FIRST sets |
| Generator.Output | gopta/cmd/goyacc/yacc.go:2154-2234 | every state's exact action row, its default, and the shift row and exceptions that encode it |
| Generator.Go2Out | gopta/cmd/goyacc/yacc.go:2443-2503 | every nonterminal's row encodes its column of gotos |
| Generator.RowsFit | gopta/cmd/goyacc/yacc.go:2584-2651 | the rows the generator makes are what the packer needs |
| Generator.EmitGoto | gopta/cmd/goyacc/yacc.go:3578-3590 | a wanted goto is read from the emitted tables iff the row of its nonterminal stands |
| Generator.EmitFaithful | gopta/cmd/goyacc/yacc.go:2821-2858 | below 1000 nonterminals, all that the emitted tables say is right by the automaton |
| Generator.EmitAgrees | gopta/cmd/goyacc/yacc.go:2821-2858 | with every base above the flag besides, they say exactly what the rows and columns say |
| Generator.Generate | gopta/cmd/goyacc/yacc.go:347-370 | exact verdict on undefined and unproductive nonterminals; what did not fit, or tables made of exact rows over exact FIRST sets, marks and the lookaheads of a finished run, right below 1000 nonterminals and exact below 1000 tokens besides |
| Generator.GeneratedParserSound | gopta/cmd/goyacc/yacc.go:3446-3594 | a generated parser never crashes and accepts only strings the start symbol derives |
| Generator.GeneratedParserViable | gopta/cmd/goyacc/yacc.go:3446-3594 | the tokens a generated parser has shifted always begin a string that the start symbol derives |
| Generator.GeneratedParserExact | gopta/cmd/goyacc/yacc.go:3446-3594 | a generated parser runs as the unpacked rows and columns do |
| Recognition.GeneratedParserComplete | gopta/cmd/goyacc/yacc.go:3446-3594 | where the automaton has no conflict and no lossy state, the generated parser accepts every string that the start symbol derives |
| Recognition.GeneratedParserDecides | gopta/cmd/goyacc/yacc.go:3446-3594 | there the parser accepts an input iff the start symbol derives it |
| Recognition.EndAccepted | gopta/cmd/goyacc/yacc.go:3507-3511 | with conflicts too: in state 1, with `$end` next and without a level, the parser accepts in one turn |
| Capacity.RoomEnough | gopta/cmd/goyacc/yacc.go:2584-2815 | in an array of so many cells every row finds a place, whatever has been placed before |
| Recognition.CellsEnough | gopta/cmd/goyacc/yacc.go:2584-2676 | the number of cells, from those of states, tokens and nonterminals, with which `callopt` never fails |
| ListParser.RecognizeLists | gopta/cmd/goyacc/yacc.go:347-370 | goyacc run on `S: S a | a;` ends with a parser that accepts one or more a's and nothing else |
| Digraph.AddEdges | gopta/cmd/digraph/digraph.go:182-197 | exactly the new edges are added, and both ends become nodes |
| Digraph.FlipReach | gopta/cmd/digraph/digraph.go:216-225 | reachability in the transposed graph is reachability backwards |
| Digraph.Transpose | gopta/cmd/digraph/digraph.go:216-225 | every edge is turned round, and all nodes are kept |
| Reachable.ReachableFrom | gopta/cmd/digraph/digraph.go:199-214 | exactly the reflexive-transitive closure of the roots |
| Reachable.SomePath | gopta/cmd/digraph/digraph.go:315-343 | succeeds iff the target is reachable, and then gives a connected simple path of edges |
| Reachable.AllPaths | gopta/cmd/digraph/digraph.go:274-313 | every edge given lies on a walk to the target and leads to a node that can step off some simple path; exactly the edges on such walks when every simple path to a node that reaches the target can be stepped off |
| Reachable.AcyclicNeverShut | gopta/cmd/digraph/digraph.go:274-313 | where what `from` reaches has no cycle, every simple path can be stepped off |
| Reachable.ShutIn | gopta/cmd/digraph/digraph.go:277-293 | a witness: in 1->2, 2->1, 1->3 the edge from 1 to 2 is on a walk from 1 to 3, but 2 cannot step off a simple path |
| Reachable.MissEdge | gopta/cmd/digraph/digraph.go:274-313 | `allpaths` from 1 to 3 in that graph never gives the edge |
| Scc.VisitPost | gopta/cmd/digraph/digraph.go:231-245 | the post-order lists a node after what it reaches, but for what is still open or in its own component |
| Scc.LaterTwin | gopta/cmd/digraph/digraph.go:231-245 | if one node reaches a node finished later, a node of its component is finished at least as late |
| Scc.GatheredIsComponent | gopta/cmd/digraph/digraph.go:247-271 | what the reverse visit gathers from the last unseen node is its component |
| Scc.Sccs | gopta/cmd/digraph/digraph.go:227-272 | the parts partition the nodes, two nodes sharing one iff each reaches the other |
| HappensBefore.Place | gorace/shbgraph.go:88-108 | a position gets its program-order or spawn edge and its wait edges, and the maps stay exact; fails iff it heads a goroutine nobody spawned |
| HappensBefore.LinkWaits | gorace/shbgraph.go:208-234 | a Done is linked to exactly the nodes waiting in other goroutines that may share its WaitGroup |
| HappensBefore.BuildHB | gorace/shbgraph.go:77-260 | the graph has exactly the program-order, spawn and wait edges, and each access key maps to its last position |
| HappensBefore.ProgramOrder | gorace/shbgraph.go:88-108 | reachability includes program order |
| HappensBefore.GoBeforeChild | gorace/shbgraph.go:94-108 | what precedes a go statement is before everything in the goroutine it starts |
| HappensBefore.OnlyGoBeforeChild | gorace/shbgraph.go:94-108 | a go statement executed at one place only is before all of the goroutine it starts |
| HappensBefore.SpawnedIff | gorace/shbgraph.go:94-108 | the graph is built iff every worker with a trace is headed by a go statement that stands in main, or behind the head of a worker, of a lower number |
| HappensBefore.OnlyStartBefore | gorace/shbgraph.go:94-108 | where one place alone starts a goroutine, in main or in a worker, all up to there is before all of it |
| HappensBefore.NestedGo | gorace/shbgraph.go:94-108 | a goroutine started inside a worker: it is after main's go statement and after the worker's, not after what the worker does next |
| HappensBefore.WaitEdgeIff | gorace/shbgraph.go:205-235 | a Done has an edge to a Wait of another goroutine that may share its WaitGroup iff that goroutine has the lower number and never executes the Wait later |
| HappensBefore.DoneBeforeWaited | gorace/shbgraph.go:205-255 | what precedes a Done is before everything after the matching Wait of an earlier goroutine |
| HappensBefore.ReachIsForkOrder | gorace/shbgraph.go:77-260 | without WaitGroup matches the graph orders two positions iff goroutine creation does |
| HappensBefore.RepeatedWaitMissed | gorace/shbgraph.go:205-208 | between two executions of one Wait the order is missed, after the second it is there |
| HappensBefore.EarlierDoneMissed | gorace/shbgraph.go:208-212 | a Done of a lower-numbered goroutine gives no order |
| Races.Queue.EnQueue | gorace/shbgraph.go:17-19 | appends and leaves the head |
| Races.Queue.DeQueue | gorace/shbgraph.go:20-24 | returns the oldest node not taken |
| Races.Expand | gorace/shbgraph.go:55-61 | every neighbor is visited and queued once, all reachable from the start |
| Races.SearchDone | gorace/shbgraph.go:48-65 | an exhausted search has visited everything reachable and not the target |
| Races.Search | gorace/shbgraph.go:45-65 | terminates and answers whether a path, possibly empty, exists |
| Races.Analysis.ReachableBFS | gorace/shbgraph.go:34-65 | both keys are mapped and a path exists |
| Races.Analysis.Reachable | gorace/shbgraph.go:67-75 | the same answer through the cache, which stays coherent and keeps its entries |
| Races.Analysis.Build | gorace/shbgraph.go:77-260 | the graph of the analysis is the happens-before graph of its traces |
| Races.LockSetsIntersect | gorace/raceCollection.go:377-410 | true iff some lock that protects one access may be one that protects the other: held, or held for reading by an access that reads |
| Races.ReadLocksForReads | gorace/raceCollection.go:377-394 | between accesses that do not read, read locks make no difference |
| Races.Contains | gorace/sliceTools.go:29-41 | true iff the unordered address pair is reported already |
| Races.Analysis.Filter | gorace/raceCollection.go:248-257 | true iff the pair conflicts, is unreported, unprotected and unordered both ways |
| Races.ReportsFirst | gorace/raceCollection.go:206-274 | a report is the first race of the scan with its address pair |
| Races.Analysis.CheckRacyPairs | gorace/raceCollection.go:206-274 | the report is exactly the first race of every unordered address pair, in scan order |
| Races.ReportUnique | gorace/raceCollection.go:206-274 | the races determine the report: no other list holds exactly the first race of each address pair in order |
| Races.RacesAreUnordered | gorace/raceCollection.go:254-255 | no path joins the last executions of two racing accesses, so neither precedes the start of the other's goroutine |
| Selections.CoverageIsInside | gopta/godoc/format.go:170-209 | between two changes a selection covers a byte iff the merger is inside one of its segments |
| Selections.Merger.constructor | gopta/godoc/format.go:155-168 | the merger holds the first segment of each selection |
| Selections.Merger.Next | gopta/godoc/format.go:170-209 | returns the earliest change, lowest selection first, and advances only that selection; none iff all are exhausted |
| Selections.Formatter.Flush | gopta/godoc/format.go:86-92 | the text up to the pending end is written, correctly labelled |
| Selections.Formatter.SegmentTo | gopta/godoc/format.go:94-108 | extends the pending text, or flushes it first when the bits differ |
| Selections.Formatter.LinkChange | gopta/godoc/format.go:119-126 | the tag is written when exactly the text before its offset has been written |
| Selections.Formatter.LabelChange | gopta/godoc/format.go:127-139 | the bit of the selection is set or cleared at its offset |
| Selections.FormatSelections | gopta/godoc/format.go:62-143 | the chunks are the text, every byte carries exactly the selections covering it, of which up to 64 are told apart, neighbouring chunks differ, and the tags are the link changes within the text, each at its offset |
| Selections.TagsOpenAndClose | gopta/godoc/format.go:119-126 | the link tags open and close the segments of the links in turn, each at its end |
| Lines.LinesMeetContract | gopta/godoc/format.go:214-231 | lines are a selection that covers the whole text |
| Lines.LinesAreLines | gopta/godoc/format.go:214-231 | each line runs up to its first newline or the end of the text |
| Lines.LineSelection.Call | gopta/godoc/format.go:217-230 | calls return the lines in order, then empty segments |
| Lines.PairsAreMatches | gopta/godoc/format.go:257-273 | what makeSelection returns is exactly the non-empty matches |
| Lines.PairsMeetContract | gopta/godoc/format.go:257-273 | ordered matches make a selection |
| Lines.MatchSelection.Call | gopta/godoc/format.go:262-272 | calls return the non-empty matches in order, then empty segments |
| Txtar.TrimSpaceTrims | gopta/txtar/archive.go:127 | the trimmed name has no white space at its ends, and a trimmed name stays as it is |
| Txtar.TrimSpaceCuts | gopta/txtar/archive.go:127 | trimming takes white space off both ends and nothing else |
| Txtar.TrimSpaceIs | gopta/txtar/archive.go:127 | the trimmed text is the only trimmed one between white space |
| Txtar.FixNL | gopta/txtar/archive.go:130-140 | the result is terminated, and is the argument iff that was |
| Txtar.IsMarker | gopta/txtar/archive.go:113-128 | panics iff the line is `-- --`, else gives the name of the first line and what follows it |
| Txtar.FindFileMarker | gopta/txtar/archive.go:92-111 | gives the text before the first marker line, its name and the rest, as the line-by-line reading does |
| Txtar.Parse | gopta/txtar/archive.go:76-88 | panics iff some line is `-- --`, else returns the line-by-line meaning of the text |
| Txtar.Format | gopta/txtar/archive.go:53-65 | writes the comment and each file under its marker, final newlines added |
| Txtar.FileLinesMean | gopta/txtar/archive.go:53-65 | the formatted files of well-formed files mean those files |
| Txtar.MeaningWellFormed | gopta/txtar/archive.go:76-88 | a parsed archive is well-formed and newline-terminated |
| Txtar.FormatThenParse | gopta/txtar/archive.go:53-88 | parsing a formatted archive gives it back, final newlines added, iff it is well-formed |
| Txtar.ParseFormatParse | gopta/txtar/archive.go:53-88 | for every text without a line `-- --`, formatting what was parsed and parsing again gives the same archive |
| Txtar.Example | gopta/txtar/archive.go:53-128 | one archive and its text, both ways |

## Left out

- Lalr.LeastFamilies: the lookaheads are claimed to be complete where no state is lossy; in a lossy state the code itself can lose them, as `LostLookahead.LookaheadLost` shows. Which lossy states do lose one depends on the lookaheads that come after.
- Generator.Generate: the grammar has production 0 as `$accept` and no user rule for it, as the reader of grammars builds it, and fewer than 4096 tokens. The reader admits more (up to `TEMPSIZE` = 8000 tokens and nonterminals together); from 4096 on token numbers are also nonterminal numbers, and such grammars are not modelled, nor is `TEMPSIZE`.
- Engine.RunSound: input that reaches the error branch counts as rejected; error recovery, error messages and semantic values are not modelled, nor are the tables that map characters to tokens.
- Recognition.GeneratedParserDecides: claimed without conflicts and lossy states, and for input without `$end` itself. With conflicts a parser may reject sentences, as the user has chosen; what each conflict comes to is `Actions.DeclaredRule`. That a run on a string outside the language ends is not claimed.
- Engine.ParserImpl.Turn: the error branch ends in rejection instead of recovery, as said above.
- Engine.ParserImpl.Parse: runs a given number of turns, since a parser for a grammar with cycles need not stop.
- Generator.GeneratedParserSound: claimed below 1000 nonterminals, where every goto row stands; beyond that gotos are lost.
- Reachable.AllPaths: where a simple path cannot be stepped off, which of the edges concerned are printed depends on the order of Go's map iteration, and is left open.
- HappensBefore.BuildHB: the select, if and channel branches are not modelled; they follow block comments and naming rules.
- Races.Analysis.Build: the same branches are left out of the graph it stores.
- Races.Analysis.CheckRacyPairs: `canRunInParallel`, `mutuallyExcluded`, `bothAtomic`, `isLocal`, `insAddress` and the pointer analysis are arbitrary functions; printing is left out.
- Selections.FormatSelections: the bit set holds 64 selections, as the shift of a 64-bit integer does; writing to the output is a list of the writer calls.
- `tokenSelection`, regular expression search and range parsing: they depend on the Go scanner and the regexp package.
- Txtar.Parse: text is a sequence of code points, so bytes that are not valid UTF-8 are not modelled.
- goyacc's grammar reader, apart from levels and types (lines that declare more than 63 levels are left to `Levels.LevelFits`), action copying, `%union`, code emission, `%error` machine, statistics and listings; digraph's input splitting and printing; bit layout of lookahead sets. They are input, output or representation.
- The repository's servers, pointer analysis, SSA construction, lock tracking, guru, goimports and the other tools.
