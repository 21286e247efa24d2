/** gorace's happens-before graph over the traces of the goroutines. */
module HappensBefore {
  // Traces hold plain instructions, memory accesses, go statements and WaitGroup calls. A graph node is named by the
  // trace position it is made for.

  import opened Paths

  type Value = int

  /** A deferred Done is treated like a Done. */
  datatype Kind = Plain | Access(read: bool, write: bool) | Go | Wait(wg: Value) | Done(wg: Value)

  datatype Ins = Ins(id: int, kind: Kind)

  predicate IsRead(ins: Ins) { ins.kind.Access? && ins.kind.read }

  predicate IsWrite(ins: Ins) { ins.kind.Access? && ins.kind.write }

  /** One trace per goroutine; the main goroutine is number 0, and a worker's trace starts with its go statement. */
  type Traces = seq<seq<Ins>>

  datatype Node = Node(g: nat, i: nat)

  /** `goIns`: an instruction with its goroutine. */
  datatype Key = Key(ins: Ins, g: nat)

  type Edges = set<(Node, Node)>

  /** The alias question, answered by the pointer analysis. */
  type Alias = (Value, Value, nat, nat) -> bool

  predicate In(t: Traces, n: Node) { n.g < |t| && n.i < |t[n.g]| }

  function InsAt(t: Traces, n: Node): Ins
    requires In(t, n)
  {
    t[n.g][n.i]
  }

  /** The order in which the positions are visited. */
  predicate Before(a: Node, b: Node) { a.g < b.g || (a.g == b.g && a.i < b.i) }

  // ---------------------------------------------------------------- the edges the graph has to have

  /** A go statement in the goroutine that executes it, not the copy that heads the new goroutine's trace. */
  predicate Spawns(t: Traces, n: Node) {
    In(t, n) && InsAt(t, n).kind.Go? && (n.g == 0 || n.i > 0)
  }

  /** n is the last position before b that executes this go statement. */
  ghost predicate LastSpawn(t: Traces, ins: Ins, b: Node, n: Node) {
    && Spawns(t, n) && InsAt(t, n) == ins && Before(n, b)
    && forall m {:trigger Spawns(t, m)} :: Spawns(t, m) && InsAt(t, m) == ins && Before(m, b) ==> !Before(n, m)
  }

  /** n is the last position of its instruction in its goroutine, among those before b. */
  ghost predicate LastOfKey(t: Traces, b: Node, n: Node) {
    && In(t, n) && Before(n, b)
    && forall m {:trigger In(t, m)} :: In(t, m) && m.g == n.g && Before(m, b) && InsAt(t, m) == InsAt(t, n) ==>
          !Before(n, m)
  }

  predicate ProgramEdge(t: Traces, u: Node, v: Node) {
    In(t, v) && u.g == v.g && v.i == u.i + 1
  }

  ghost predicate SpawnEdge(t: Traces, u: Node, v: Node) {
    In(t, v) && v.g > 0 && v.i == 0 && LastSpawn(t, InsAt(t, v), v, u)
  }

  /** A Done and a Wait of an earlier-numbered goroutine on what may be the same WaitGroup. */
  ghost predicate WaitEdge(t: Traces, same: Alias, u: Node, v: Node) {
    && In(t, u) && In(t, v) && v.g < u.g && LastOfKey(t, Node(u.g, 0), v)
    && InsAt(t, u).kind.Done? && InsAt(t, v).kind.Wait? && same(InsAt(t, u).kind.wg, InsAt(t, v).kind.wg, u.g, v.g)
  }

  /** The graph once the positions before b are visited. */
  ghost predicate EdgesUpTo(t: Traces, same: Alias, b: Node, edges: Edges) {
    forall u, v {:trigger (u, v) in edges} :: (u, v) in edges <==>
      || ((ProgramEdge(t, u, v) || SpawnEdge(t, u, v)) && Before(v, b))
      || (WaitEdge(t, same, u, v) && Before(u, b))
  }

  /** Exactly the program-order, spawn and wait edges. */
  ghost predicate IsHbGraph(t: Traces, same: Alias, edges: Edges) {
    forall u, v {:trigger (u, v) in edges} ::
      (u, v) in edges <==> ProgramEdge(t, u, v) || SpawnEdge(t, u, v) || WaitEdge(t, same, u, v)
  }

  /** The worker's first instruction is a go statement some goroutine visited before has executed. */
  ghost predicate Spawned(t: Traces, g: nat) {
    g < |t| && t[g] != [] && t[g][0].kind.Go? && exists n {:trigger Spawns(t, n)} ::
      Spawns(t, n) && InsAt(t, n) == t[g][0] && Before(n, Node(g, 0))
  }

  /** The goroutine's trace is empty, or somebody started it. */
  ghost predicate Started(t: Traces, g: nat)
    requires g < |t|
  {
    g > 0 && t[g] != [] ==> Spawned(t, g)
  }

  /** Every worker below n with a trace at all has been spawned. */
  ghost predicate AllSpawned(t: Traces, n: nat)
    requires n <= |t|
  {
    forall g: nat {:trigger Started(t, g)} :: g < n ==> Started(t, g)
  }

  // ---------------------------------------------------------------- building it

  /** The variables of `buildHB`. */
  datatype Build = Build(edges: Edges, rw: map<Key, Node>, goCaller: map<Ins, Node>, waiting: map<Key, Node>,
                         prev: Node)

  ghost predicate CallersOk(t: Traces, b: Node, goCaller: map<Ins, Node>) {
    && (forall ins {:trigger goCaller[ins]} :: ins in goCaller ==> LastSpawn(t, ins, b, goCaller[ins]))
    && (forall n {:trigger Spawns(t, n)} :: Spawns(t, n) && Before(n, b) ==> InsAt(t, n) in goCaller)
  }

  /** n is the last position of key k before b. */
  ghost predicate KeyLast(t: Traces, b: Node, k: Key, n: Node) {
    In(t, n) && k == Key(InsAt(t, n), n.g) && LastOfKey(t, b, n)
  }

  ghost predicate WaitingOk(t: Traces, b: Node, waiting: map<Key, Node>) {
    && (forall k {:trigger waiting[k]} :: k in waiting ==> KeyLast(t, b, k, waiting[k]) && k.ins.kind.Wait?)
    && (forall n {:trigger In(t, n)} :: In(t, n) && Before(n, b) && InsAt(t, n).kind.Wait? ==>
          Key(InsAt(t, n), n.g) in waiting)
  }

  /** Each access key maps to the last position of that access. */
  ghost predicate AccessesOk(t: Traces, b: Node, rw: map<Key, Node>) {
    && (forall k {:trigger rw[k]} :: k in rw ==> KeyLast(t, b, k, rw[k]))
    && (forall k :: k in rw ==> Touches(k.ins))
    && (forall n {:trigger In(t, n)} :: In(t, n) && Before(n, b) && Touches(InsAt(t, n)) ==>
          Key(InsAt(t, n), n.g) in rw)
  }

  /** The instruction reads or writes memory. */
  predicate Touches(ins: Ins) {
    ins.kind.Access? && (ins.kind.read || ins.kind.write)
  }

  ghost predicate BuildOk(t: Traces, same: Alias, b: Node, s: Build) {
    && EdgesUpTo(t, same, b, s.edges) && CallersOk(t, b, s.goCaller)
    && WaitingOk(t, b, s.waiting) && AccessesOk(t, b, s.rw)
  }

  /** b and b2 have the same positions before them. */
  ghost predicate SameCut(t: Traces, b: Node, b2: Node) {
    forall m: Node {:trigger In(t, m)} :: In(t, m) ==> (Before(m, b) <==> Before(m, b2))
  }

  lemma CutCallers(t: Traces, b: Node, b2: Node, goCaller: map<Ins, Node>)
    requires SameCut(t, b, b2) && CallersOk(t, b, goCaller)
    ensures CallersOk(t, b2, goCaller)
  {
    forall m | Spawns(t, m) ensures Before(m, b) <==> Before(m, b2) { assert In(t, m); }
  }

  lemma CutLast(t: Traces, b: Node, b2: Node, n: Node)
    requires SameCut(t, b, b2)
    ensures LastOfKey(t, b, n) <==> LastOfKey(t, b2, n)
  {
  }

  /** At the end of a trace the next position is the start of the next one. */
  lemma CutBuild(t: Traces, same: Alias, b: Node, b2: Node, s: Build)
    requires SameCut(t, b, b2) && BuildOk(t, same, b, s)
    ensures BuildOk(t, same, b2, s)
  {
    CutCallers(t, b, b2, s.goCaller);
    forall n ensures LastOfKey(t, b, n) <==> LastOfKey(t, b2, n) { CutLast(t, b, b2, n); }
    assert WaitingOk(t, b2, s.waiting);
    assert AccessesOk(t, b2, s.rw);
    assert EdgesUpTo(t, same, b2, s.edges);
  }

  /** The positions before the next one are those before n, and n. */
  lemma NextCut(n: Node)
    ensures forall m: Node :: Before(m, Node(n.g, n.i + 1)) <==> Before(m, n) || m == n
  {
    forall m: Node ensures Before(m, Node(n.g, n.i + 1)) <==> Before(m, n) || m == n {
      assert m == Node(m.g, m.i) && n == Node(n.g, n.i);
    }
  }

  /** A go statement executed at n is from then on the last one. */
  lemma SpawnPlaced(t: Traces, n: Node, goCaller: map<Ins, Node>)
    requires In(t, n) && CallersOk(t, n, goCaller)
    ensures CallersOk(t, Node(n.g, n.i + 1), if Spawns(t, n) then goCaller[InsAt(t, n) := n] else goCaller)
  {
    var b := Node(n.g, n.i + 1);
    NextCut(n);
    var gc := if Spawns(t, n) then goCaller[InsAt(t, n) := n] else goCaller;
    forall ins | ins in gc ensures LastSpawn(t, ins, b, gc[ins]) {
      assert !(Spawns(t, n) && ins == InsAt(t, n)) ==> LastSpawn(t, ins, n, goCaller[ins]);
    }
  }

  /** The spawn edge into a worker comes from the node the map holds. */
  lemma SpawnFound(t: Traces, n: Node, goCaller: map<Ins, Node>)
    requires In(t, n) && CallersOk(t, n, goCaller) && n.g > 0 && n.i == 0
    ensures Spawned(t, n.g) <==> InsAt(t, n).kind.Go? && InsAt(t, n) in goCaller
    ensures forall u :: SpawnEdge(t, u, n) <==> InsAt(t, n) in goCaller && u == goCaller[InsAt(t, n)]
  {
    var ins := InsAt(t, n);
    if ins in goCaller {
      assert LastSpawn(t, ins, n, goCaller[ins]);
      assert Spawns(t, goCaller[ins]) && InsAt(t, goCaller[ins]) == t[n.g][0];
      forall u | LastSpawn(t, ins, n, u) ensures u == goCaller[ins] {
        assert Before(u, goCaller[ins]) || Before(goCaller[ins], u) || u == goCaller[ins];
      }
    }
  }

  /** A position placed at n is from then on the last of its key. */
  lemma LastPlaced(t: Traces, n: Node, m: Node)
    requires In(t, n) && In(t, m)
    ensures LastOfKey(t, Node(n.g, n.i + 1), n)
    ensures Key(InsAt(t, m), m.g) != Key(InsAt(t, n), n.g) ==> (LastOfKey(t, n, m) ==>
              LastOfKey(t, Node(n.g, n.i + 1), m))
  {
  }

  lemma WaitPlaced(t: Traces, n: Node, waiting: map<Key, Node>)
    requires In(t, n) && WaitingOk(t, n, waiting)
    ensures var w := if InsAt(t, n).kind.Wait? then waiting[Key(InsAt(t, n), n.g) := n] else waiting;
            WaitingOk(t, Node(n.g, n.i + 1), w)
  {
    var key := Key(InsAt(t, n), n.g);
    var w := if InsAt(t, n).kind.Wait? then waiting[key := n] else waiting;
    NextCut(n);
    forall k | k in w ensures KeyLast(t, Node(n.g, n.i + 1), k, w[k]) && k.ins.kind.Wait? {
      LastPlaced(t, n, w[k]);
    }
  }

  lemma AccessPlaced(t: Traces, n: Node, rw: map<Key, Node>)
    requires In(t, n) && AccessesOk(t, n, rw)
    ensures var w := if IsRead(InsAt(t, n)) || IsWrite(InsAt(t, n)) then rw[Key(InsAt(t, n), n.g) := n] else rw;
            AccessesOk(t, Node(n.g, n.i + 1), w)
  {
    var key := Key(InsAt(t, n), n.g);
    var w := if IsRead(InsAt(t, n)) || IsWrite(InsAt(t, n)) then rw[key := n] else rw;
    NextCut(n);
    forall k | k in w
      ensures In(t, w[k]) && k == Key(InsAt(t, w[k]), w[k].g) && LastOfKey(t, Node(n.g, n.i + 1), w[k])
    {
      LastPlaced(t, n, w[k]);
    }
  }

  /** The nodes waiting in other goroutines are the targets of the wait edges of a Done. */
  lemma WaitsFound(t: Traces, same: Alias, n: Node, waiting: map<Key, Node>, v: Node)
    requires In(t, n) && WaitingOk(t, n, waiting) && InsAt(t, n).kind.Done?
    ensures WaitEdge(t, same, n, v) <==> WaitTarget(same, waiting, InsAt(t, n).kind.wg, n, v)
  {
    var start := Node(n.g, 0);
    if WaitTarget(same, waiting, InsAt(t, n).kind.wg, n, v) {
      var k :| k in waiting && waiting[k] == v && v.g != n.g && same(InsAt(t, n).kind.wg, k.ins.kind.wg, n.g, k.g);
      assert LastOfKey(t, n, v) && LastOfKey(t, start, v);
    }
    if WaitEdge(t, same, n, v) {
      var k := Key(InsAt(t, v), v.g);
      assert k in waiting && LastOfKey(t, n, waiting[k]);
      assert !Before(v, waiting[k]) && !Before(waiting[k], v);
      assert v == waiting[k];
    }
  }

  /** Some key waits at v in another goroutine, perhaps on this WaitGroup. */
  ghost predicate WaitTarget(same: Alias, waiting: map<Key, Node>, wg: Value, n: Node, v: Node) {
    exists k :: k in waiting && waiting[k] == v && v.g != n.g && k.ins.kind.Wait? && same(wg, k.ins.kind.wg, n.g, k.g)
  }

  /** The edge the code makes into position n. */
  ghost predicate MadeInto(t: Traces, n: Node, prev: Node, goCaller: map<Ins, Node>, u: Node) {
    if n.i > 0 then u == prev
    else In(t, n) && n.g > 0 && InsAt(t, n) in goCaller && u == goCaller[InsAt(t, n)]
  }

  /** The node of a position and the edge that leads to it; fails on a worker nobody spawned. */
  method Link(t: Traces, s: Build, n: Node) returns (ok: bool, s': Build)
    requires In(t, n) && CallersOk(t, n, s.goCaller)
    ensures ok <==> n.i > 0 || Started(t, n.g)
    ensures ok ==> s'.prev == n && s'.rw == s.rw && s'.waiting == s.waiting
    ensures ok ==> s'.goCaller == if Spawns(t, n) then s.goCaller[InsAt(t, n) := n] else s.goCaller
    ensures ok && n == Node(0, 0) ==> s'.edges == s.edges
    ensures ok && n.i > 0 ==> s'.edges == s.edges + {(s.prev, n)}
    ensures ok && n.i == 0 && n.g > 0 ==> InsAt(t, n) in s.goCaller
    ensures ok && n.i == 0 && n.g > 0 ==> s'.edges == s.edges + {(s.goCaller[InsAt(t, n)], n)}
  {
    var ins := InsAt(t, n);
    s' := s;
    ok := true;
    if n.g == 0 && n.i == 0 {
      if ins.kind.Go? { s' := s'.(goCaller := s'.goCaller[ins := n]); }
    } else {
      if n.g != 0 && n.i == 0 {
        SpawnFound(t, n, s.goCaller);
        if !ins.kind.Go? || ins !in s.goCaller {
          return false, s;
        }
        s' := s'.(prev := s.goCaller[ins]);
      } else if ins.kind.Go? {
        s' := s'.(goCaller := s'.goCaller[ins := n]);
      }
      s' := s'.(edges := s'.edges + {(s'.prev, n)});
    }
    s' := s'.(prev := n);
  }

  /** Edges from a Done to every node waiting in another goroutine that may use the same WaitGroup. */
  method LinkWaits(same: Alias, edges: Edges, waiting: map<Key, Node>, wg: Value, n: Node) returns (edges': Edges)
    requires forall k :: k in waiting ==> k.ins.kind.Wait?
    ensures forall u, v {:trigger (u, v) in edges'} ::
              (u, v) in edges' <==> ((u, v) in edges || (u == n && WaitTarget(same, waiting, wg, n, v)))
  {
    edges' := edges;
    var rest := waiting.Keys;
    ghost var done: map<Key, Node> := map[];
    while rest != {}
      invariant rest <= waiting.Keys && done == (map k | k in waiting && k !in rest :: waiting[k])
      invariant forall u, v {:trigger (u, v) in edges'} ::
                  (u, v) in edges' <==> ((u, v) in edges || (u == n && WaitTarget(same, done, wg, n, v)))
      decreases rest
    {
      var k :| k in rest;
      rest := rest - {k};
      ghost var done0 := done;
      done := done[k := waiting[k]];
      TargetAdded(same, done0, k, waiting[k], wg, n);
      if same(wg, k.ins.kind.wg, n.g, k.g) && n.g != waiting[k].g {
        edges' := edges' + {(n, waiting[k])};
      }
    }
    assert done == waiting;
  }

  lemma TargetAdded(same: Alias, done: map<Key, Node>, k: Key, w: Node, wg: Value, n: Node)
    requires k !in done && k.ins.kind.Wait?
    ensures forall v :: WaitTarget(same, done[k := w], wg, n, v) <==>
              (WaitTarget(same, done, wg, n, v) || (v == w && w.g != n.g && same(wg, k.ins.kind.wg, n.g, k.g)))
  {
    var d := done[k := w];
    assert forall j :: j in done ==> j in d && d[j] == done[j];
    assert d[k] == w;
  }

  /** The edges after a position: the one into it, and for a Done its wait edges. */
  lemma EdgesPlaced(t: Traces, same: Alias, n: Node, s: Build, edges': Edges)
    requires In(t, n) && BuildOk(t, same, n, s) && (n.i > 0 ==> s.prev == Node(n.g, n.i - 1))
    requires forall u, v {:trigger (u, v) in edges'} :: (u, v) in edges' <==>
               || (u, v) in s.edges || (v == n && MadeInto(t, n, s.prev, s.goCaller, u))
               || (u == n && InsAt(t, n).kind.Done? && WaitTarget(same, s.waiting, InsAt(t, n).kind.wg, n, v))
    ensures EdgesUpTo(t, same, Node(n.g, n.i + 1), edges')
  {
    var b := Node(n.g, n.i + 1);
    NextCut(n);
    if n.g > 0 && n.i == 0 { SpawnFound(t, n, s.goCaller); }
    assert forall u :: MadeInto(t, n, s.prev, s.goCaller, u) <==> ProgramEdge(t, u, n) || SpawnEdge(t, u, n);
    forall v | InsAt(t, n).kind.Done?
      ensures WaitEdge(t, same, n, v) <==> WaitTarget(same, s.waiting, InsAt(t, n).kind.wg, n, v)
    {
      WaitsFound(t, same, n, s.waiting, v);
    }
  }

  /** What the loop of `buildHB` does at one position. */
  method Place(t: Traces, same: Alias, s: Build, n: Node) returns (ok: bool, s': Build)
    requires In(t, n) && BuildOk(t, same, n, s) && (n.i > 0 ==> s.prev == Node(n.g, n.i - 1))
    ensures ok <==> n.i > 0 || Started(t, n.g)
    ensures ok ==> BuildOk(t, same, Node(n.g, n.i + 1), s') && s'.prev == n
  {
    ok, s' := Link(t, s, n);
    if !ok {
      return;
    }
    var ins := InsAt(t, n);
    var key := Key(ins, n.g);
    if IsRead(ins) || IsWrite(ins) {
      s' := s'.(rw := s'.rw[key := s'.prev]);
    } else if ins.kind.Wait? {
      s' := s'.(waiting := s'.waiting[key := s'.prev]);
    } else if ins.kind.Done? {
      var edges := LinkWaits(same, s'.edges, s'.waiting, ins.kind.wg, s'.prev);
      s' := s'.(edges := edges);
    }
    SpawnPlaced(t, n, s.goCaller);
    WaitPlaced(t, n, s.waiting);
    AccessPlaced(t, n, s.rw);
    EdgesPlaced(t, same, n, s, s'.edges);
  }

  lemma StartOk(t: Traces, same: Alias)
    ensures BuildOk(t, same, Node(0, 0), Build({}, map[], map[], map[], Node(0, 0)))
  {
    assert forall m: Node :: !Before(m, Node(0, 0));
  }

  lemma AllPlaced(t: Traces, same: Alias, edges: Edges)
    requires EdgesUpTo(t, same, Node(|t|, 0), edges)
    ensures IsHbGraph(t, same, edges)
  {
    assert forall m: Node :: In(t, m) ==> Before(m, Node(|t|, 0));
  }

  lemma TraceEnds(t: Traces, same: Alias, g: nat, s: Build)
    requires g < |t| && BuildOk(t, same, Node(g, |t[g]|), s)
    ensures BuildOk(t, same, Node(g + 1, 0), s)
  {
    CutBuild(t, same, Node(g, |t[g]|), Node(g + 1, 0), s);
  }

  /** Where the loop over goroutine g stands before position i. */
  ghost predicate TraceInv(t: Traces, same: Alias, g: nat, i: nat, s: Build)
    requires g < |t|
  {
    && i <= |t[g]| && BuildOk(t, same, Node(g, i), s)
    && (i > 0 ==> s.prev == Node(g, i - 1) && Started(t, g))
  }

  method PlaceAt(t: Traces, same: Alias, s: Build, g: nat, i: nat) returns (ok: bool, s': Build)
    requires g < |t| && TraceInv(t, same, g, i, s) && i < |t[g]|
    ensures ok ==> TraceInv(t, same, g, i + 1, s')
    ensures !ok ==> !Started(t, g)
  {
    assert Node(g, i).g == g && Node(g, i).i + 1 == i + 1;
    ok, s' := Place(t, same, s, Node(g, i));
  }

  /** A goroutine whose positions are all placed has been started. */
  lemma TraceDone(t: Traces, same: Alias, g: nat, s: Build)
    requires g < |t| && TraceInv(t, same, g, |t[g]|, s)
    ensures BuildOk(t, same, Node(g + 1, 0), s) && Started(t, g)
  {
    TraceEnds(t, same, g, s);
  }

  /** The inner loop of `buildHB`: one goroutine. */
  method PlaceTrace(t: Traces, same: Alias, s0: Build, g: nat) returns (ok: bool, s: Build)
    requires g < |t| && BuildOk(t, same, Node(g, 0), s0)
    ensures ok <==> Started(t, g)
    ensures ok ==> BuildOk(t, same, Node(g + 1, 0), s)
  {
    s := s0;
    var i := 0;
    while i < |t[g]|
      invariant 0 <= i <= |t[g]| && TraceInv(t, same, g, i, s)
    {
      ok, s := PlaceAt(t, same, s, g, i);
      if !ok {
        return;
      }
      i := i + 1;
    }
    ok := true;
    TraceDone(t, same, g, s);
  }

  /** `buildHB`: fails iff some worker's trace is headed by no go statement executed earlier; otherwise the graph
      is the happens-before graph, and every access key maps to its last position. */
  method BuildHB(t: Traces, same: Alias) returns (ok: bool, edges: Edges, rw: map<Key, Node>)
    ensures ok <==> AllSpawned(t, |t|)
    ensures ok ==> IsHbGraph(t, same, edges) && AccessesOk(t, Node(|t|, 0), rw)
  {
    var s := Build({}, map[], map[], map[], Node(0, 0));
    StartOk(t, same);
    var g := 0;
    while g < |t|
      invariant 0 <= g <= |t| && BuildOk(t, same, Node(g, 0), s)
      invariant AllSpawned(t, g)
    {
      ok, s := PlaceTrace(t, same, s, g);
      if !ok {
        return false, {}, map[];
      }
      g := g + 1;
    }
    AllPlaced(t, same, s.edges);
    return true, s.edges, s.rw;
  }

  // ---------------------------------------------------------------- what the graph orders

  /** Program order: a goroutine's later positions are reached from its earlier ones. */
  lemma {:induction false} ProgramOrder(t: Traces, same: Alias, edges: Edges, u: Node, v: Node)
    requires IsHbGraph(t, same, edges) && In(t, v) && u.g == v.g && u.i <= v.i
    ensures Reach(edges, u, v)
    decreases v.i
  {
    if u.i == v.i {
      ReachSelf(edges, u);
    } else {
      var w := Node(v.g, v.i - 1);
      ProgramOrder(t, same, edges, u, w);
      assert ProgramEdge(t, w, v);
      ReachExtend(edges, u, w, v);
    }
  }

  /** Goroutine creation: what the spawning goroutine did up to its go statement is before all of the new goroutine. */
  lemma GoBeforeChild(t: Traces, same: Alias, edges: Edges, spawn: Node, u: Node, v: Node)
    requires IsHbGraph(t, same, edges) && In(t, v) && v.g > 0
    requires LastSpawn(t, t[v.g][0], Node(v.g, 0), spawn) && u.g == spawn.g && u.i <= spawn.i
    ensures Reach(edges, u, v)
  {
    var first := Node(v.g, 0);
    ProgramOrder(t, same, edges, u, spawn);
    assert SpawnEdge(t, spawn, first);
    ReachExtend(edges, u, spawn, first);
    ProgramOrder(t, same, edges, first, v);
    ReachTrans(edges, u, first, v);
  }

  /** Where a go statement is executed at one place only, that place is before all of the goroutine it starts. */
  lemma OnlyGoBeforeChild(t: Traces, same: Alias, edges: Edges, spawn: Node, v: Node)
    requires IsHbGraph(t, same, edges) && In(t, v) && v.g > 0 && Spawned(t, v.g)
    requires Spawns(t, spawn) && forall m :: Spawns(t, m) && InsAt(t, m) == t[v.g][0] ==> m == spawn
    ensures Reach(edges, spawn, v)
  {
    GoBeforeChild(t, same, edges, spawn, spawn, v);
  }

  /** A go statement that starts a goroutine from here: in the main goroutine, or in a worker behind the copy that
      heads its trace. */
  ghost predicate StartsAt(t: Traces, ins: Ins, h: nat, i: nat) {
    h < |t| && i < |t[h]| && t[h][i] == ins && ins.kind.Go? && (h == 0 || i > 0)
  }

  /** The graph can be built iff every worker with a trace at all is headed by a go statement that starts it from a
      goroutine of a lower number, main or worker. */
  lemma SpawnedIff(t: Traces)
    ensures AllSpawned(t, |t|) <==>
            forall g: nat :: 0 < g < |t| && t[g] != [] ==> exists h: nat, i: nat :: h < g && StartsAt(t, t[g][0], h, i)
  {
    forall g: nat | 0 < g < |t| && t[g] != []
      ensures Started(t, g) <==> exists h: nat, i: nat :: h < g && StartsAt(t, t[g][0], h, i)
    {
      StartedIff(t, g);
    }
    forall g: nat | g < |t| && (g == 0 || t[g] == []) ensures Started(t, g) {}
  }

  lemma StartedIff(t: Traces, g: nat)
    requires 0 < g < |t| && t[g] != []
    ensures Started(t, g) <==> exists h: nat, i: nat :: h < g && StartsAt(t, t[g][0], h, i)
  {
    if Started(t, g) {
      var n :| Spawns(t, n) && InsAt(t, n) == t[g][0] && Before(n, Node(g, 0));
      assert StartsAt(t, t[g][0], n.g, n.i);
    }
    if h: nat, i: nat :| h < g && StartsAt(t, t[g][0], h, i) {
      var n := Node(h, i);
      assert Spawns(t, n) && InsAt(t, n) == t[g][0] && Before(n, Node(g, 0));
    }
  }

  /** Where one place alone starts a goroutine, in main or in another worker, all up to there is before all of it. */
  lemma OnlyStartBefore(t: Traces, same: Alias, edges: Edges, h: nat, i: nat, g: nat, k: nat)
    requires IsHbGraph(t, same, edges) && h < g < |t| && k < |t[g]| && StartsAt(t, t[g][0], h, i)
    requires forall h': nat, i': nat :: StartsAt(t, t[g][0], h', i') ==> h' == h && i' == i
    ensures forall j: nat :: j <= i ==> Reach(edges, Node(h, j), Node(g, k))
  {
    var spawn := Node(h, i);
    assert Spawns(t, spawn) && InsAt(t, spawn) == t[g][0] && Before(spawn, Node(g, 0));
    forall m | Spawns(t, m) && InsAt(t, m) == t[g][0] ensures m == spawn {
      assert StartsAt(t, t[g][0], m.g, m.i);
    }
    forall j: nat | j <= i ensures Reach(edges, Node(h, j), Node(g, k)) {
      GoBeforeChild(t, same, edges, spawn, Node(h, j), Node(g, k));
    }
  }

  /** A goroutine started inside a worker: what main and the worker did up to the go statements is before all of it. */
  method NestedGo(same: Alias) returns (edges: Edges)
    ensures Reach(edges, Node(0, 0), Node(2, 1)) && Reach(edges, Node(1, 1), Node(2, 1))
    ensures !Reach(edges, Node(1, 2), Node(2, 1))
  {
    var go1, go2 := Ins(1, Go), Ins(2, Go);
    var t := [[go1], [go1, go2, Ins(3, Plain)], [go2, Ins(4, Access(false, true))]];
    assert StartsAt(t, t[1][0], 0, 0) && StartsAt(t, t[2][0], 1, 1);
    SpawnedIff(t);
    var ok, rw;
    ok, edges, rw := BuildHB(t, same);
    OnlyStartBefore(t, same, edges, 0, 0, 1, 1);
    OnlyStartBefore(t, same, edges, 1, 1, 2, 1);
    ReachTrans(edges, Node(0, 0), Node(1, 1), Node(2, 1));
    DeadEnd(edges, Node(1, 2), Node(2, 1));
  }

  /** Exactly when a Done gets an edge to a Wait of another goroutine that may use its WaitGroup: the waiting goroutine
      has the lower number, and executes that Wait nowhere later. */
  lemma WaitEdgeIff(t: Traces, same: Alias, edges: Edges, u: Node, v: Node)
    requires IsHbGraph(t, same, edges) && In(t, u) && In(t, v) && u.g != v.g
    requires InsAt(t, u).kind.Done? && InsAt(t, v).kind.Wait?
    requires same(InsAt(t, u).kind.wg, InsAt(t, v).kind.wg, u.g, v.g)
    ensures (u, v) in edges <==> v.g < u.g && forall i :: v.i < i < |t[v.g]| ==> t[v.g][i] != t[v.g][v.i]
  {
    var start := Node(u.g, 0);
    if v.g < u.g {
      if LastOfKey(t, start, v) {
        forall i | v.i < i < |t[v.g]| ensures t[v.g][i] != t[v.g][v.i] {
          var m := Node(v.g, i);
          assert In(t, m) && Before(m, start) && Before(v, m);
        }
      }
      if forall i :: v.i < i < |t[v.g]| ==> t[v.g][i] != t[v.g][v.i] {
        forall m | In(t, m) && m.g == v.g && Before(m, start) && InsAt(t, m) == InsAt(t, v) ensures !Before(v, m) {
          assert t[v.g][m.i] == InsAt(t, m);
        }
      }
    }
  }

  /** WaitGroups: what comes up to a Done is before all that follows the last matching Wait of a goroutine with a
      lower number. */
  lemma DoneBeforeWaited(t: Traces, same: Alias, edges: Edges, done: Node, wait: Node, u: Node, v: Node)
    requires IsHbGraph(t, same, edges) && WaitEdge(t, same, done, wait)
    requires In(t, v) && v.g == wait.g && wait.i <= v.i && u.g == done.g && u.i <= done.i
    ensures Reach(edges, u, v)
  {
    ProgramOrder(t, same, edges, u, done);
    ReachExtend(edges, u, done, wait);
    ProgramOrder(t, same, edges, wait, v);
    ReachTrans(edges, u, wait, v);
  }

  /** The order of goroutine creation alone: u is earlier in v's goroutine, or before the go statement that
      started it. */
  ghost predicate ForkOrder(t: Traces, u: Node, v: Node)
    decreases v.g
  {
    || (u.g == v.g && u.i <= v.i)
    || exists s: Node :: s.g < v.g && In(t, v) && SpawnEdge(t, s, Node(v.g, 0)) && ForkOrder(t, u, s)
  }

  lemma {:induction false} ForkOrderReaches(t: Traces, same: Alias, edges: Edges, u: Node, v: Node)
    requires IsHbGraph(t, same, edges) && In(t, v) && ForkOrder(t, u, v)
    ensures Reach(edges, u, v)
    decreases v.g
  {
    if u.g == v.g && u.i <= v.i {
      ProgramOrder(t, same, edges, u, v);
    } else {
      var s: Node :| s.g < v.g && In(t, v) && SpawnEdge(t, s, Node(v.g, 0)) && ForkOrder(t, u, s);
      ForkOrderReaches(t, same, edges, u, s);
      ReachExtend(edges, u, s, Node(v.g, 0));
      ProgramOrder(t, same, edges, Node(v.g, 0), v);
      ReachTrans(edges, u, Node(v.g, 0), v);
    }
  }

  lemma ForkOrderStep(t: Traces, same: Alias, edges: Edges, u: Node, v: Node, w: Node)
    requires IsHbGraph(t, same, edges) && (forall x, y :: !WaitEdge(t, same, x, y)) && ForkOrder(t, u, v)
    requires (v, w) in edges
    ensures ForkOrder(t, u, w)
  {
    if SpawnEdge(t, v, w) {
      assert v.g < w.g && w == Node(w.g, 0);
    } else {
      assert ProgramEdge(t, v, w);
      if !(u.g == v.g && u.i <= v.i) {
        var s: Node :| s.g < v.g && In(t, v) && SpawnEdge(t, s, Node(v.g, 0)) && ForkOrder(t, u, s);
        assert SpawnEdge(t, s, Node(w.g, 0));
      }
    }
  }

  lemma {:induction false} WalkKeepsForkOrder(t: Traces, same: Alias, edges: Edges, u: Node, v: Node, via: seq<Node>,
                                              w: Node)
    requires IsHbGraph(t, same, edges) && (forall x, y :: !WaitEdge(t, same, x, y)) && ForkOrder(t, u, v)
    requires Walk(edges, v, via, w)
    ensures ForkOrder(t, u, w)
    decreases |via|
  {
    if via != [] {
      ForkOrderStep(t, same, edges, u, v, via[0]);
      WalkKeepsForkOrder(t, same, edges, u, via[0], via[1..], w);
    }
  }

  /** Without matching WaitGroup calls, the graph orders exactly what goroutine creation orders. */
  lemma ReachIsForkOrder(t: Traces, same: Alias, edges: Edges, u: Node, v: Node)
    requires IsHbGraph(t, same, edges) && In(t, u) && In(t, v) && forall x, y :: !WaitEdge(t, same, x, y)
    ensures Reach(edges, u, v) <==> ForkOrder(t, u, v)
  {
    if Reach(edges, u, v) {
      var via :| Walk(edges, u, via, v);
      WalkKeepsForkOrder(t, same, edges, u, u, via, v);
    }
    if ForkOrder(t, u, v) {
      ForkOrderReaches(t, same, edges, u, v);
    }
  }

  // ---------------------------------------------------------------- where WaitGroups are missed

  /** A Wait executed twice, as in a loop: only its last execution is kept, and what lies between is not ordered. */
  lemma RepeatedWaitMissed(same: Alias, edges: Edges, t: Traces)
    requires var go, wait := Ins(0, Go), Ins(1, Wait(7));
             t == [[go, wait, Ins(2, Access(true, false)), wait], [go, Ins(3, Done(7))]]
    requires IsHbGraph(t, same, edges)
    ensures !Reach(edges, Node(1, 1), Node(0, 2))
    ensures same(7, 7, 1, 0) ==> Reach(edges, Node(1, 1), Node(0, 3))
  {
    var done, first, last := Node(1, 1), Node(0, 1), Node(0, 3);
    assert In(t, first) && In(t, last) && InsAt(t, last) == InsAt(t, first) && Before(first, last);
    assert !LastOfKey(t, Node(1, 0), first);
    forall v | (done, v) in edges ensures v == last {
      assert v != first;
    }
    assert ClosedUnder(edges, {done, last});
    if Reach(edges, done, Node(0, 2)) { ClosedHoldsReach(edges, {done, last}, done, Node(0, 2)); }
    if same(7, 7, 1, 0) {
      assert WaitEdge(t, same, done, last);
      ReachEdge(edges, done, last);
    }
  }

  /** A Done visited before the Wait gives no edge, whatever the alias analysis says. */
  lemma EarlierDoneMissed(same: Alias, edges: Edges, t: Traces)
    requires var go1, go2 := Ins(0, Go), Ins(1, Go);
             t == [[go1, go2], [go1, Ins(2, Done(7))], [go2, Ins(3, Wait(7)), Ins(4, Access(true, false))]]
    requires IsHbGraph(t, same, edges)
    ensures !Reach(edges, Node(1, 1), Node(2, 2))
  {
    var done := Node(1, 1);
    assert forall v :: (done, v) !in edges;
    assert ClosedUnder(edges, {done});
    if Reach(edges, done, Node(2, 2)) { ClosedHoldsReach(edges, {done}, done, Node(2, 2)); }
  }
}
