/** gorace's cached reachability queries and its race report. */
module Races {
  import opened Paths
  import opened HappensBefore

  // ---------------------------------------------------------------- reachableBFS

  /** The queue of the search; taken nodes stay in front of head. */
  class Queue {
    var data: seq<Node>
    var head: nat

    ghost predicate Valid()
      reads this
    {
      head <= |data|
    }

    constructor ()
      ensures Valid() && data == [] && head == 0
    {
      data, head := [], 0;
    }

    method EnQueue(v: Node)
      requires Valid()
      modifies this`data
      ensures Valid() && data == old(data) + [v]
    {
      data := data + [v];
    }

    method DeQueue() returns (v: Node)
      requires Valid() && head < |data|
      modifies this`head
      ensures Valid() && head == old(head) + 1 && v == data[old(head)]
    {
      v := data[head];
      head := head + 1;
    }

    function Size(): (n: int)
      reads this
      ensures Valid() ==> n >= 0
    {
      |data| - head
    }

    predicate IsEmpty()
      reads this
    {
      head >= |data|
    }
  }

  function Neighbors(edges: Edges, n: Node): (s: set<Node>)
    ensures forall v :: v in s <==> (n, v) in edges
  {
    set e | e in edges && e.0 == n :: e.1
  }

  /** The targets of all edges. */
  ghost function Targets(edges: Edges): set<Node> {
    set e | e in edges :: e.1
  }

  predicate Distinct(data: seq<Node>) {
    forall i, j :: 0 <= i < j < |data| ==> data[i] != data[j]
  }

  /** The search: everything queued is visited and reached, everything taken is not the target and fully expanded. */
  ghost predicate Searching(edges: Edges, from: Node, to: Node, data: seq<Node>, head: nat, visited: set<Node>) {
    && head <= |data| && Distinct(data) && from in visited
    && (forall v :: v in visited <==> v in data)
    && visited <= Targets(edges) + {from}
    && (forall v :: v in visited ==> Reach(edges, from, v))
    && (forall k :: 0 <= k < head ==> data[k] != to && Neighbors(edges, data[k]) <= visited)
  }

  lemma {:induction false} DistinctBounded(data: seq<Node>, all: set<Node>)
    requires Distinct(data) && forall k :: 0 <= k < |data| ==> data[k] in all
    ensures |data| <= |all|
    decreases |data|
  {
    if data != [] {
      var n := |data| - 1;
      DistinctBounded(data[..n], all - {data[n]});
    }
  }

  /** A search that has run dry has visited exactly what `from` reaches, and the target is not there. */
  lemma SearchDone(edges: Edges, from: Node, to: Node, data: seq<Node>, visited: set<Node>)
    requires Searching(edges, from, to, data, |data|, visited)
    ensures !Reach(edges, from, to)
  {
    assert ClosedUnder(edges, visited);
    if Reach(edges, from, to) { ClosedHoldsReach(edges, visited, from, to); }
  }

  /** The inner loop of the search: the unvisited neighbors are marked and queued. */
  method Expand(edges: Edges, node: Node, q: Queue, visited: set<Node>, ghost from: Node, ghost to: Node)
    returns (visited': set<Node>)
    requires q.Valid() && q.head > 0 && node == q.data[q.head - 1] && node != to
    requires Searching(edges, from, to, q.data, q.head - 1, visited)
    modifies q`data
    ensures q.Valid() && Searching(edges, from, to, q.data, q.head, visited') && |q.data| >= old(|q.data|)
  {
    visited' := visited;
    var rest := Neighbors(edges, node);
    ghost var h := q.head - 1;
    while rest != {}
      invariant q.Valid() && |q.data| >= old(|q.data|) && q.data[h] == node && rest <= Neighbors(edges, node)
      invariant Searching(edges, from, to, q.data, h, visited')
      invariant Neighbors(edges, node) - rest <= visited'
      decreases rest
    {
      var v :| v in rest;
      rest := rest - {v};
      if v in visited' {
        continue;
      }
      QueueOne(edges, from, to, q.data, h, visited', node, v);
      visited' := visited' + {v};
      q.EnQueue(v);
    }
    ExpandedOne(edges, from, to, q.data, h, visited');
  }

  lemma QueueOne(edges: Edges, from: Node, to: Node, data: seq<Node>, head: nat, visited: set<Node>, node: Node,
                 v: Node)
    requires Searching(edges, from, to, data, head, visited) && node in visited && (node, v) in edges && v !in visited
    ensures Searching(edges, from, to, data + [v], head, visited + {v})
  {
    ReachExtend(edges, from, node, v);
    var data', visited' := data + [v], visited + {v};
    assert v in Targets(edges);
    assert forall x :: x in data' <==> x in data || x == v;
  }

  lemma ExpandedOne(edges: Edges, from: Node, to: Node, data: seq<Node>, head: nat, visited: set<Node>)
    requires Searching(edges, from, to, data, head, visited) && head < |data| && data[head] != to
    requires Neighbors(edges, data[head]) <= visited
    ensures Searching(edges, from, to, data, head + 1, visited)
  {
  }

  lemma SearchBounded(edges: Edges, from: Node, to: Node, data: seq<Node>, head: nat, visited: set<Node>)
    requires Searching(edges, from, to, data, head, visited)
    ensures |data| <= |Targets(edges) + {from}|
  {
    forall k | 0 <= k < |data| ensures data[k] in Targets(edges) + {from} { assert data[k] in data; }
    DistinctBounded(data, Targets(edges) + {from});
  }

  /** The search of `reachableBFS` between two nodes. */
  method Search(edges: Edges, fromNode: Node, toNode: Node) returns (found: bool)
    ensures found <==> Reach(edges, fromNode, toNode)
  {
    var visited := {fromNode};
    var q := new Queue();
    q.EnQueue(fromNode);
    ReachSelf(edges, fromNode);
    ghost var bound := |Targets(edges) + {fromNode}|;
    while !q.IsEmpty()
      invariant q.Valid() && Searching(edges, fromNode, toNode, q.data, q.head, visited) && |q.data| <= bound
      decreases bound - q.head
    {
      var size := q.Size();
      ghost var size0, head0 := size, q.head;
      while size > 0
        invariant q.Valid() && Searching(edges, fromNode, toNode, q.data, q.head, visited) && |q.data| <= bound
        invariant 0 <= size <= |q.data| - q.head
        invariant q.head == head0 + (size0 - size)
        decreases size
      {
        var node := q.DeQueue();
        if node == toNode {
          assert node in q.data;
          return true;
        }
        visited := Expand(edges, node, q, visited, fromNode, toNode);
        SearchBounded(edges, fromNode, toNode, q.data, q.head, visited);
        size := size - 1;
      }
    }
    SearchDone(edges, fromNode, toNode, q.data, visited);
    return false;
  }

  // ---------------------------------------------------------------- the analysis

  /** What the race report asks of the rest of the program: the control flow, the pointer analysis, the locksets. */
  datatype Program = Program(
    traces: Traces,
    insMono: nat,
    parallel: (nat, nat) -> bool,
    omitted: Ins -> bool,
    local: Ins -> bool,
    address: Ins -> Option,
    same: Alias,
    bothAtomic: (Ins, Ins) -> bool,
    selectCase: map<Ins, int>,
    locks: map<Ins, seq<Value>>,
    readLocks: map<Ins, seq<Value>>,
    sourcePos: Value -> int,
    excluded: (Node, Node) -> bool)

  datatype Option = None | Some(value: Value)

  /** `selectMutEx`: both instructions lie in cases of one select statement. */
  predicate SelectMutEx(p: Program, a: Ins, b: Ins) {
    a in p.selectCase && b in p.selectCase && p.selectCase[a] == p.selectCase[b]
  }

  /** The locks held at an instruction: the read locks protect reads only. */
  function LocksOf(p: Program, ins: Ins): seq<Value> {
    (if ins in p.locks then p.locks[ins] else []) +
    (if IsRead(ins) && ins in p.readLocks then p.readLocks[ins] else [])
  }

  predicate SameLock(p: Program, a: Value, b: Value, ga: nat, gb: nat) {
    p.same(a, b, ga, gb) || p.sourcePos(a) == p.sourcePos(b)
  }

  /** The lock protects the access: it is held, or it is held for reading and the access reads. */
  ghost predicate Protects(p: Program, ins: Ins, lock: Value) {
    || (ins in p.locks && lock in p.locks[ins])
    || (ins.kind.Access? && ins.kind.read && ins in p.readLocks && lock in p.readLocks[ins])
  }

  lemma LocksProtect(p: Program, ins: Ins, lock: Value)
    ensures lock in LocksOf(p, ins) <==> Protects(p, ins, lock)
  {
  }

  /** Some lock that protects one access may be one that protects the other. */
  ghost predicate CommonLock(p: Program, a: Ins, b: Ins, ga: nat, gb: nat) {
    exists x, y :: Protects(p, a, x) && Protects(p, b, y) && SameLock(p, x, y, ga, gb)
  }

  /** Read locks do not count between accesses that do not read. */
  lemma ReadLocksForReads(p: Program, a: Ins, b: Ins, ga: nat, gb: nat)
    requires !(a.kind.Access? && a.kind.read) && !(b.kind.Access? && b.kind.read)
    ensures CommonLock(p, a, b, ga, gb) <==> CommonLock(p.(readLocks := map[]), a, b, ga, gb)
  {
    var p' := p.(readLocks := map[]);
    if CommonLock(p, a, b, ga, gb) {
      var x, y :| Protects(p, a, x) && Protects(p, b, y) && SameLock(p, x, y, ga, gb);
      assert Protects(p', a, x) && Protects(p', b, y) && SameLock(p', x, y, ga, gb);
    }
    if CommonLock(p', a, b, ga, gb) {
      var x, y :| Protects(p', a, x) && Protects(p', b, y) && SameLock(p', x, y, ga, gb);
      assert Protects(p, a, x) && Protects(p, b, y) && SameLock(p, x, y, ga, gb);
    }
  }

  /** `lockSetsIntersect` */
  method LockSetsIntersect(p: Program, a: Ins, b: Ins, ga: nat, gb: nat) returns (r: bool)
    ensures r <==> CommonLock(p, a, b, ga, gb)
  {
    var locksA, locksB := LocksOf(p, a), LocksOf(p, b);
    forall x ensures x in locksA <==> Protects(p, a, x) { LocksProtect(p, a, x); }
    forall y ensures y in locksB <==> Protects(p, b, y) { LocksProtect(p, b, y); }
    for i := 0 to |locksA|
      invariant forall k, y :: 0 <= k < i && y in locksB ==> !SameLock(p, locksA[k], y, ga, gb)
    {
      for j := 0 to |locksB|
        invariant forall k :: 0 <= k < j ==> !SameLock(p, locksA[i], locksB[k], ga, gb)
      {
        if p.same(locksA[i], locksB[j], ga, gb) {
          assert SameLock(p, locksA[i], locksB[j], ga, gb);
          return true;
        } else if p.sourcePos(locksA[i]) == p.sourcePos(locksB[j]) {
          assert SameLock(p, locksA[i], locksB[j], ga, gb);
          return true;
        }
      }
    }
    return false;
  }

  /** A pair of trace positions. */
  datatype Pair = Pair(a: Node, b: Node)

  /** The order in which `checkRacyPairs` meets pairs: goroutines first, then positions. */
  predicate Earlier(p: Pair, q: Pair) {
    || p.a.g < q.a.g
    || (p.a.g == q.a.g && (p.b.g < q.b.g || (p.b.g == q.b.g && (p.a.i < q.a.i || (p.a.i == q.a.i && p.b.i < q.b.i)))))
  }

  /** A pair that is scanned: positions of two goroutines, neither skipped. */
  predicate Scanned(p: Program, q: Pair) {
    && In(p.traces, q.a) && In(p.traces, q.b) && q.a.g < q.b.g && p.parallel(q.a.g, q.b.g)
    && !(q.a.g == 0 && q.a.i < p.insMono) && !p.omitted(InsAt(p.traces, q.a)) && !p.omitted(InsAt(p.traces, q.b))
  }

  /** Two accesses that may touch the same memory, one of them writing. */
  ghost predicate Conflict(p: Program, q: Pair)
    requires In(p.traces, q.a) && In(p.traces, q.b)
  {
    var a, b := InsAt(p.traces, q.a), InsAt(p.traces, q.b);
    && a.kind.Access? && b.kind.Access?
    && ((a.kind.write && b.kind.write) || (a.kind.write && b.kind.read) || (a.kind.read && b.kind.write))
    && !(p.local(a) && p.local(b))
    && p.address(a).Some? && p.address(b).Some?
    && p.same(p.address(a).value, p.address(b).value, q.a.g, q.b.g)
  }

  /** No rule other than the happens-before order keeps the two accesses apart. */
  ghost predicate Unprotected(p: Program, q: Pair)
    requires In(p.traces, q.a) && In(p.traces, q.b)
  {
    var a, b := InsAt(p.traces, q.a), InsAt(p.traces, q.b);
    && !p.bothAtomic(a, b) && !(a in p.selectCase && b in p.selectCase && p.selectCase[a] == p.selectCase[b])
    && !CommonLock(p, a, b, q.a.g, q.b.g) && !p.excluded(q.a, q.b)
  }

  /** The happens-before order of two accesses, as a query answers it. */
  ghost predicate Ordered(edges: Edges, rw: map<Key, Node>, from: Key, to: Key) {
    from in rw && to in rw && Reach(edges, rw[from], rw[to])
  }

  function KeyAt(t: Traces, n: Node): Key
    requires In(t, n)
  {
    Key(InsAt(t, n), n.g)
  }

  /** A race: everything a reported pair has to satisfy, apart from not repeating an address pair. */
  ghost predicate Racy(p: Program, edges: Edges, rw: map<Key, Node>, q: Pair) {
    && Scanned(p, q) && Conflict(p, q) && Unprotected(p, q)
    && !Ordered(edges, rw, KeyAt(p.traces, q.a), KeyAt(p.traces, q.b))
    && !Ordered(edges, rw, KeyAt(p.traces, q.b), KeyAt(p.traces, q.a))
  }

  /** `raceInfo`: the pair and its addresses. */
  datatype Race = Race(pair: Pair, addr0: Value, addr1: Value)

  predicate SameAddresses(r: Race, x: Value, y: Value) {
    (r.addr0 == x && r.addr1 == y) || (r.addr0 == y && r.addr1 == x)
  }

  /** `strictSliceContains` */
  method Contains(races: seq<Race>, x: Value, y: Value) returns (r: bool)
    ensures r <==> exists k :: 0 <= k < |races| && SameAddresses(races[k], x, y)
  {
    for k := 0 to |races|
      invariant forall j :: 0 <= j < k ==> !SameAddresses(races[j], x, y)
    {
      if races[k].addr0 == x && races[k].addr1 == y {
        assert SameAddresses(races[k], x, y);
        return true;
      }
      if races[k].addr0 == y && races[k].addr1 == x {
        assert SameAddresses(races[k], x, y);
        return true;
      }
    }
    return false;
  }

  ghost predicate IsRaceAt(p: Program, edges: Edges, rw: map<Key, Node>, r: Race) {
    && Racy(p, edges, rw, r.pair)
    && p.address(InsAt(p.traces, r.pair.a)) == Some(r.addr0) && p.address(InsAt(p.traces, r.pair.b)) == Some(r.addr1)
  }

  /** All races of the program under the happens-before graph. */
  ghost function AllRaces(p: Program, edges: Edges, rw: map<Key, Node>): iset<Race> {
    iset r | IsRaceAt(p, edges, rw, r)
  }

  /** A report at or before r already has its unordered address pair. */
  ghost predicate ReportedBy(races: seq<Race>, r: Race) {
    exists k :: 0 <= k < |races| && SameAddresses(races[k], r.addr0, r.addr1) && !Earlier(r.pair, races[k].pair)
  }

  ghost predicate AllMet(all: iset<Race>, upto: Pair, races: seq<Race>) {
    forall k :: 0 <= k < |races| ==> races[k] in all && Earlier(races[k].pair, upto)
  }

  /** No unordered address pair twice, and in the order of the scan. */
  predicate NoneRepeated(races: seq<Race>) {
    forall j, k :: 0 <= j < k < |races| ==>
      !SameAddresses(races[j], races[k].addr0, races[k].addr1) && Earlier(races[j].pair, races[k].pair)
  }

  ghost predicate NoneMissed(all: iset<Race>, upto: Pair, races: seq<Race>) {
    forall r :: r in all && Earlier(r.pair, upto) ==> ReportedBy(races, r)
  }

  /** Of the races met before `upto`, the report holds exactly the first of each unordered address pair, in order. */
  ghost predicate Exact(all: iset<Race>, upto: Pair, races: seq<Race>) {
    AllMet(all, upto, races) && NoneRepeated(races) && NoneMissed(all, upto, races)
  }

  /** No race lies between the two cuts of the scan. */
  ghost predicate Gap(all: iset<Race>, from: Pair, to: Pair) {
    && (forall q :: Earlier(q, from) ==> Earlier(q, to))
    && (forall r :: r in all && Earlier(r.pair, to) ==> Earlier(r.pair, from))
  }

  lemma SkipGap(all: iset<Race>, from: Pair, to: Pair, races: seq<Race>)
    requires Exact(all, from, races) && Gap(all, from, to)
    ensures Exact(all, to, races)
  {
  }

  function Next(q: Pair): Pair { Pair(q.a, Node(q.b.g, q.b.i + 1)) }

  ghost predicate Repeats(races: seq<Race>, r: Race) {
    exists k :: 0 <= k < |races| && SameAddresses(races[k], r.addr0, r.addr1)
  }

  /** The pairs met before the next one are those met before q, and q. */
  lemma NextPair(q: Pair)
    ensures forall x :: Earlier(x, Next(q)) <==> Earlier(x, q) || x == q
  {
    forall x ensures Earlier(x, Next(q)) <==> Earlier(x, q) || x == q {
      assert x == Pair(Node(x.a.g, x.a.i), Node(x.b.g, x.b.i)) && q == Pair(Node(q.a.g, q.a.i), Node(q.b.g, q.b.i));
    }
  }

  lemma StillReported(races: seq<Race>, more: seq<Race>, x: Race)
    requires ReportedBy(races, x)
    ensures ReportedBy(races + more, x)
  {
    var k :| 0 <= k < |races| && SameAddresses(races[k], x.addr0, x.addr1) && !Earlier(x.pair, races[k].pair);
    assert (races + more)[k] == races[k];
  }

  lemma RepeatIsReported(all: iset<Race>, races: seq<Race>, r: Race)
    requires AllMet(all, r.pair, races) && Repeats(races, r)
    ensures ReportedBy(races, r)
  {
    var k :| 0 <= k < |races| && SameAddresses(races[k], r.addr0, r.addr1);
    assert Earlier(races[k].pair, r.pair);
  }

  /** A new report at the end repeats none and is the latest. */
  lemma ReportAppended(all: iset<Race>, r: Race, races: seq<Race>)
    requires AllMet(all, r.pair, races) && NoneRepeated(races) && r in all && !Repeats(races, r)
    ensures NoneRepeated(races + [r])
  {
    var races' := races + [r];
    forall j, k | 0 <= j < k < |races'|
      ensures !SameAddresses(races'[j], races'[k].addr0, races'[k].addr1) && Earlier(races'[j].pair, races'[k].pair)
    {
      assert races'[j] == races[j];
    }
  }

  /** A pair is reported iff it is a race whose addresses are not reported yet. */
  lemma ReportOne(all: iset<Race>, r: Race, races: seq<Race>, races': seq<Race>)
    requires Exact(all, r.pair, races) && forall r' :: r' in all && r'.pair == r.pair ==> r' == r
    requires races' == if r in all && !Repeats(races, r) then races + [r] else races
    ensures Exact(all, Next(r.pair), races')
  {
    NextPair(r.pair);
    var more := if r in all && !Repeats(races, r) then [r] else [];
    assert races' == races + more;
    if more != [] { ReportAppended(all, r, races); }
    forall x | x in all && Earlier(x.pair, Next(r.pair)) ensures ReportedBy(races', x) {
      if x != r {
        StillReported(races, more, x);
      } else if Repeats(races, r) {
        RepeatIsReported(all, races, r);
      } else {
        assert races'[|races|] == r;
      }
    }
  }

  /** A report is the first race with its unordered address pair. */
  lemma ReportsFirst(all: iset<Race>, upto: Pair, races: seq<Race>, k: nat, r: Race)
    requires Exact(all, upto, races) && k < |races| && r in all && SameAddresses(races[k], r.addr0, r.addr1)
    ensures !Earlier(r.pair, races[k].pair)
  {
    if Earlier(r.pair, races[k].pair) {
      assert Earlier(r.pair, upto);
      var j :| 0 <= j < |races| && SameAddresses(races[j], r.addr0, r.addr1) && !Earlier(r.pair, races[j].pair);
      assert SameAddresses(races[j], races[k].addr0, races[k].addr1);
      assert SameAddresses(races[k], races[j].addr0, races[j].addr1);
    }
  }

  lemma RaceIff(p: Program, edges: Edges, rw: map<Key, Node>, r: Race)
    requires Scanned(p, r.pair)
    requires p.address(InsAt(p.traces, r.pair.a)) == Some(r.addr0)
    requires p.address(InsAt(p.traces, r.pair.b)) == Some(r.addr1)
    ensures r in AllRaces(p, edges, rw) <==> Racy(p, edges, rw, r.pair)
    ensures forall r' :: r' in AllRaces(p, edges, rw) && r'.pair == r.pair ==> r' == r
  {
  }

  lemma NoConflict(p: Program, edges: Edges, rw: map<Key, Node>, q: Pair)
    requires Scanned(p, q) && !Conflict(p, q)
    ensures forall r :: r in AllRaces(p, edges, rw) ==> r.pair != q
  {
  }

  /** `analysis`: the program, its happens-before graph and the cache of reachability answers. */
  class Analysis {
    const p: Program
    var edges: Edges
    var rw: map<Key, Node>
    var reachCache: map<(Key, Key), bool>

    /** Every cached answer is the graph's answer. */
    ghost predicate Valid()
      reads this
    {
      forall q :: q in reachCache ==> reachCache[q] == Ordered(edges, rw, q.0, q.1)
    }

    constructor (program: Program)
      ensures p == program && Valid() && reachCache == map[]
    {
      p, edges, rw, reachCache := program, {}, map[], map[];
    }

    /** `buildHB`, run before any query. */
    method Build() returns (ok: bool)
      requires reachCache == map[]
      modifies this`edges, this`rw
      ensures Valid()
      ensures ok <==> AllSpawned(p.traces, |p.traces|)
      ensures ok ==> IsHbGraph(p.traces, p.same, edges) && AccessesOk(p.traces, Node(|p.traces|, 0), rw)
    {
      var es, accesses;
      ok, es, accesses := BuildHB(p.traces, p.same);
      edges, rw := es, accesses;
    }

    /** `reachableBFS`: both accesses are known and the graph orders them. */
    method ReachableBFS(from: Key, to: Key) returns (r: bool)
      ensures r <==> Ordered(edges, rw, from, to)
    {
      if from !in rw || to !in rw {
        return false;
      }
      r := Search(edges, rw[from], rw[to]);
    }

    /** `reachable`: the same answer, from the cache when it is there. */
    method Reachable(from: Key, to: Key) returns (r: bool)
      requires Valid()
      modifies this`reachCache
      ensures Valid() && (r <==> Ordered(edges, rw, from, to))
      ensures (from, to) in reachCache && forall q :: q in old(reachCache) ==> q in reachCache
      ensures (from, to) in reachCache && forall q :: q in old(reachCache) ==> reachCache[q] == old(reachCache[q])
    {
      var key := (from, to);
      if key in reachCache {
        return reachCache[key];
      }
      r := ReachableBFS(from, to);
      reachCache := reachCache[key := r];
    }

    ghost function Races(): iset<Race>
      reads this
    {
      AllRaces(p, edges, rw)
    }

    /** The condition under which two accesses with the given addresses are reported. */
    method Filter(races: seq<Race>, q: Pair, x: Value, y: Value) returns (report: bool)
      requires Valid() && In(p.traces, q.a) && In(p.traces, q.b)
      modifies this`reachCache
      ensures Valid()
      ensures report <==>
                && p.same(x, y, q.a.g, q.b.g) && !Repeats(races, Race(q, x, y)) && Unprotected(p, q)
                && !Ordered(edges, rw, KeyAt(p.traces, q.a), KeyAt(p.traces, q.b))
                && !Ordered(edges, rw, KeyAt(p.traces, q.b), KeyAt(p.traces, q.a))
    {
      var a, b := InsAt(p.traces, q.a), InsAt(p.traces, q.b);
      if !p.same(x, y, q.a.g, q.b.g) { return false; }
      var repeated := Contains(races, x, y);
      if repeated || p.bothAtomic(a, b) || SelectMutEx(p, a, b) { return false; }
      var locked := LockSetsIntersect(p, a, b, q.a.g, q.b.g);
      if locked { return false; }
      var before := Reachable(Key(a, q.a.g), Key(b, q.b.g));
      if before { return false; }
      var after := Reachable(Key(b, q.b.g), Key(a, q.a.g));
      if after { return false; }
      report := !p.excluded(q.a, q.b);
    }

    /** The test of one scanned pair. */
    method CheckPair(races: seq<Race>, q: Pair) returns (races': seq<Race>)
      requires Valid() && Scanned(p, q) && Exact(Races(), q, races)
      modifies this`reachCache
      ensures Valid() && Exact(Races(), Next(q), races')
    {
      var a, b := InsAt(p.traces, q.a), InsAt(p.traces, q.b);
      races' := races;
      ghost var r := Race(q, 0, 0);
      ghost var all := Races();
      if ((IsWrite(a) && IsWrite(b)) || (IsWrite(a) && IsRead(b)) || (IsRead(a) && IsWrite(b)))
         && !(p.local(a) && p.local(b)) && p.address(a).Some? && p.address(b).Some?
      {
        var x, y := p.address(a).value, p.address(b).value;
        r := Race(q, x, y);
        var report := Filter(races, q, x, y);
        if report { races' := races + [Race(q, x, y)]; }
        RaceIff(p, edges, rw, r);
      } else {
        NoConflict(p, edges, rw, q);
      }
      ReportOne(all, r, races, races');
    }

    /** The scan of one access against a goroutine. */
    method CheckAccess(races: seq<Race>, a: Node, g: nat) returns (races': seq<Race>)
      requires Valid() && In(p.traces, a) && a.g < g < |p.traces| && p.parallel(a.g, g)
      requires Exact(Races(), Pair(a, Node(g, 0)), races)
      modifies this`reachCache
      ensures Valid() && Exact(Races(), Pair(Node(a.g, a.i + 1), Node(g, 0)), races')
    {
      races' := races;
      var t := p.traces;
      var next := Pair(Node(a.g, a.i + 1), Node(g, 0));
      if (a.g == 0 && a.i < p.insMono) || p.omitted(InsAt(t, a)) {
        assert Gap(Races(), Pair(a, Node(g, 0)), next);
        SkipGap(Races(), Pair(a, Node(g, 0)), next, races');
        return;
      }
      var j := 0;
      while j < |t[g]|
        invariant 0 <= j <= |t[g]| && Valid() && Exact(Races(), Pair(a, Node(g, j)), races')
      {
        var q := Pair(a, Node(g, j));
        if p.omitted(InsAt(t, q.b)) {
          assert Gap(Races(), q, Next(q));
          SkipGap(Races(), q, Next(q), races');
        } else {
          races' := CheckPair(races', q);
        }
        j := j + 1;
      }
      assert Gap(Races(), Pair(a, Node(g, j)), next);
      SkipGap(Races(), Pair(a, Node(g, j)), next, races');
    }

    /** The scan of two goroutines. */
    method CheckGoroutines(races: seq<Race>, i: nat, j: nat) returns (races': seq<Race>)
      requires Valid() && i < j < |p.traces| && Exact(Races(), Pair(Node(i, 0), Node(j, 0)), races)
      modifies this`reachCache
      ensures Valid() && Exact(Races(), Pair(Node(i, 0), Node(j + 1, 0)), races')
    {
      races' := races;
      var next := Pair(Node(i, 0), Node(j + 1, 0));
      if !p.parallel(i, j) {
        assert Gap(Races(), Pair(Node(i, 0), Node(j, 0)), next);
        SkipGap(Races(), Pair(Node(i, 0), Node(j, 0)), next, races');
        return;
      }
      var ii := 0;
      while ii < |p.traces[i]|
        invariant 0 <= ii <= |p.traces[i]| && Valid() && Exact(Races(), Pair(Node(i, ii), Node(j, 0)), races')
      {
        races' := CheckAccess(races', Node(i, ii), j);
        ii := ii + 1;
      }
      assert Gap(Races(), Pair(Node(i, ii), Node(j, 0)), next);
      SkipGap(Races(), Pair(Node(i, ii), Node(j, 0)), next, races');
    }

    /** `checkRacyPairs`: the first race of every unordered address pair, and nothing else. */
    method CheckRacyPairs() returns (races: seq<Race>)
      requires Valid()
      modifies this`reachCache
      ensures Valid() && Exact(Races(), Pair(Node(|p.traces|, 0), Node(0, 0)), races)
    {
      races := [];
      var i := 0;
      while i < |p.traces|
        invariant 0 <= i <= |p.traces| && Valid() && Exact(Races(), Pair(Node(i, 0), Node(0, 0)), races)
      {
        var j := i + 1;
        assert Gap(Races(), Pair(Node(i, 0), Node(0, 0)), Pair(Node(i, 0), Node(j, 0)));
        SkipGap(Races(), Pair(Node(i, 0), Node(0, 0)), Pair(Node(i, 0), Node(j, 0)), races);
        while j < |p.traces|
          invariant i < j <= |p.traces| && Valid() && Exact(Races(), Pair(Node(i, 0), Node(j, 0)), races)
        {
          races := CheckGoroutines(races, i, j);
          j := j + 1;
        }
        assert Gap(Races(), Pair(Node(i, 0), Node(j, 0)), Pair(Node(i + 1, 0), Node(0, 0)));
        SkipGap(Races(), Pair(Node(i, 0), Node(j, 0)), Pair(Node(i + 1, 0), Node(0, 0)), races);
        i := i + 1;
      }
    }
  }

  /** Reports in the order of the scan. */
  predicate ScanOrder(races: seq<Race>) {
    forall j, k :: 0 <= j < k < |races| ==> Earlier(races[j].pair, races[k].pair)
  }

  lemma FrontHas(races: seq<Race>, x: Race)
    requires races != [] && ScanOrder(races)
    ensures x in races[..|races| - 1] <==> x in races && x != races[|races| - 1]
  {
    var n := |races| - 1;
    if x in races && x != races[n] {
      var k :| 0 <= k < |races| && races[k] == x;
      assert races[..n][k] == x;
    }
    if x in races[..n] {
      var k :| 0 <= k < n && races[..n][k] == x;
      assert Earlier(races[k].pair, races[n].pair);
    }
  }

  lemma {:induction false} SameReports(a: seq<Race>, b: seq<Race>)
    requires ScanOrder(a) && ScanOrder(b) && forall x :: x in a <==> x in b
    ensures a == b
    decreases |a|
  {
    assert b != [] ==> b[0] in b;
    if a != [] {
      var m := |a| - 1;
      assert a[m] in b;
      var n := |b| - 1;
      assert b[n] in a;
      LastIsSame(a, b);
      forall x ensures x in a[..m] <==> x in b[..n] {
        FrontHas(a, x);
        FrontHas(b, x);
      }
      SameReports(a[..m], b[..n]);
      assert a == a[..m] + [a[m]] && b == b[..n] + [b[n]];
    }
  }

  lemma LastIsSame(a: seq<Race>, b: seq<Race>)
    requires ScanOrder(a) && ScanOrder(b) && a != [] && b != [] && a[|a| - 1] in b && b[|b| - 1] in a
    ensures a[|a| - 1] == b[|b| - 1]
  {
    var k :| 0 <= k < |b| && b[k] == a[|a| - 1];
    var j :| 0 <= j < |a| && a[j] == b[|b| - 1];
    assert k < |b| - 1 ==> Earlier(b[k].pair, b[|b| - 1].pair);
    assert j < |a| - 1 ==> Earlier(a[j].pair, a[|a| - 1].pair);
  }

  lemma FindReport(all: iset<Race>, upto: Pair, races: seq<Race>, x: Race) returns (j: nat)
    requires AllMet(all, upto, races) && NoneMissed(all, upto, races) && x in all && Earlier(x.pair, upto)
    ensures j < |races| && races[j] in all && SameAddresses(x, races[j].addr0, races[j].addr1)
    ensures !Earlier(x.pair, races[j].pair)
  {
    assert ReportedBy(races, x);
    j :| 0 <= j < |races| && SameAddresses(races[j], x.addr0, x.addr1) && !Earlier(x.pair, races[j].pair);
  }

  /** For a race that one exact report holds, the other holds a race at the same place. */
  lemma Counterpart(all: iset<Race>, upto: Pair, a: seq<Race>, b: seq<Race>, k: nat) returns (j: nat)
    requires Exact(all, upto, a) && Exact(all, upto, b) && k < |a|
    ensures j < |b| && b[j] in all && a[k] in all && b[j].pair == a[k].pair
  {
    var x := a[k];
    j := FindReport(all, upto, b, x);
    ReportsFirst(all, upto, a, k, b[j]);
    SamePlace(x.pair, b[j].pair);
  }

  lemma InOther(p: Program, edges: Edges, rw: map<Key, Node>, upto: Pair, a: seq<Race>, b: seq<Race>, x: Race)
    requires Exact(AllRaces(p, edges, rw), upto, a) && Exact(AllRaces(p, edges, rw), upto, b) && x in a
    ensures x in b
  {
    var k :| 0 <= k < |a| && a[k] == x;
    var j := Counterpart(AllRaces(p, edges, rw), upto, a, b, k);
    assert IsRaceAt(p, edges, rw, x) && IsRaceAt(p, edges, rw, b[j]);
  }

  lemma SamePlace(p: Pair, q: Pair)
    requires !Earlier(p, q) && !Earlier(q, p)
    ensures p == q
  {
    assert p == Pair(Node(p.a.g, p.a.i), Node(p.b.g, p.b.i)) && q == Pair(Node(q.a.g, q.a.i), Node(q.b.g, q.b.i));
  }

  /** The races of a program determine the report: no other list is exact. */
  lemma ReportUnique(p: Program, edges: Edges, rw: map<Key, Node>, upto: Pair, a: seq<Race>, b: seq<Race>)
    requires Exact(AllRaces(p, edges, rw), upto, a) && Exact(AllRaces(p, edges, rw), upto, b)
    ensures a == b
  {
    forall x ensures x in a <==> x in b {
      if x in a { InOther(p, edges, rw, upto, a, b, x); }
      if x in b { InOther(p, edges, rw, upto, b, a, x); }
    }
    assert ScanOrder(a) && ScanOrder(b);
    SameReports(a, b);
  }

  /** Between the last executions of two accesses, a race means no path either way; in particular neither
      is ordered before the other by goroutine creation. */
  lemma RacesAreUnordered(p: Program, edges: Edges, rw: map<Key, Node>, r: Race)
    requires IsHbGraph(p.traces, p.same, edges) && AccessesOk(p.traces, Node(|p.traces|, 0), rw)
    requires IsRaceAt(p, edges, rw, r)
    requires LastOfKey(p.traces, Node(|p.traces|, 0), r.pair.a) && LastOfKey(p.traces, Node(|p.traces|, 0), r.pair.b)
    ensures !Reach(edges, r.pair.a, r.pair.b) && !Reach(edges, r.pair.b, r.pair.a)
    ensures !ForkOrder(p.traces, r.pair.a, r.pair.b) && !ForkOrder(p.traces, r.pair.b, r.pair.a)
  {
    AccessFound(p.traces, rw, r.pair.a);
    AccessFound(p.traces, rw, r.pair.b);
    if ForkOrder(p.traces, r.pair.a, r.pair.b) { ForkOrderReaches(p.traces, p.same, edges, r.pair.a, r.pair.b); }
    if ForkOrder(p.traces, r.pair.b, r.pair.a) { ForkOrderReaches(p.traces, p.same, edges, r.pair.b, r.pair.a); }
  }

  lemma AccessFound(t: Traces, rw: map<Key, Node>, n: Node)
    requires AccessesOk(t, Node(|t|, 0), rw) && LastOfKey(t, Node(|t|, 0), n)
    requires (IsRead(InsAt(t, n)) || IsWrite(InsAt(t, n)))
    ensures KeyAt(t, n) in rw && rw[KeyAt(t, n)] == n
  {
    var m := rw[KeyAt(t, n)];
    assert LastOfKey(t, Node(|t|, 0), m) && !Before(n, m) && !Before(m, n);
  }
}
