/** How many states an automaton can have. */
module StateCount {
  import opened Grammars
  import opened Items
  import opened Closure
  import opened Automaton

  function Pow2(n: nat): (r: nat)
    ensures r >= 1
  {
    if n == 0 then 1 else 2 * Pow2(n - 1)
  }

  /** Taking an element out of sets that all have it leaves them distinct. */
  lemma {:induction false} WithoutIt(s: set<set<Item>>, x: Item)
    requires forall y :: y in s ==> x in y
    ensures |s| == |set y | y in s :: y - {x}|
  {
    if s != {} {
      var y0 :| y0 in s;
      var rest := s - {y0};
      WithoutIt(rest, x);
      var out, outRest := set y | y in s :: y - {x}, set y | y in rest :: y - {x};
      forall y | y in rest ensures y - {x} != y0 - {x} {
        assert y == y - {x} + {x} && y0 == y0 - {x} + {x};
      }
      assert out == outRest + {y0 - {x}} && y0 - {x} !in outRest;
    }
  }

  /** There are no more sets of some items than there are subsets. */
  lemma {:induction false} SubsetsBound(v: set<Item>, s: set<set<Item>>)
    requires forall y :: y in s ==> y <= v
    ensures |s| <= Pow2(|v|)
    decreases |v|
  {
    if v == {} {
      var one: set<set<Item>> := {{}};
      forall y | y in s ensures y in one { assert y == {}; }
      SubsetSize(s, one);
    } else {
      var x :| x in v;
      var having, lacking := set y | y in s && x in y, set y | y in s && x !in y;
      var out := set y | y in having :: y - {x};
      WithoutIt(having, x);
      SubsetsBound(v - {x}, out);
      SubsetsBound(v - {x}, lacking);
      assert s == having + lacking && having * lacking == {};
      assert |v| == |v - {x}| + 1;
    }
  }

  lemma {:induction false} SubsetSize<T>(s: set<T>, t: set<T>)
    requires s <= t
    ensures |s| <= |t|
  {
    if s != {} {
      var x :| x in s;
      SubsetSize(s - {x}, t - {x});
    }
  }

  /** The item sets of the states from 1 on. */
  ghost function Cores(ks: seq<seq<KItem>>): seq<set<Item>>
    requires |ks| >= 1
  {
    seq(|ks| - 1, s requires 0 <= s < |ks| - 1 => KernelSet(ks[s + 1]))
  }

  ghost function Range(q: seq<set<Item>>): set<set<Item>> {
    set y | y in q
  }

  lemma {:induction false} CountApart(q: seq<set<Item>>)
    requires forall i, j :: 0 <= i < j < |q| ==> q[i] != q[j]
    ensures |Range(q)| == |q|
    decreases |q|
  {
    if q != [] {
      var n := |q| - 1;
      CountApart(q[..n]);
      assert Range(q) == Range(q[..n]) + {q[n]};
      assert q[n] !in Range(q[..n]);
    }
  }

  lemma CoresApart(g: Grammar, st: States, s: int, t: int)
    requires WellFormed(g) && StatesOk(g, st) && 1 <= s < t < |st.kernels|
    ensures KernelSet(st.kernels[s]) != KernelSet(st.kernels[t])
  {
    var k, k' := st.kernels[s], st.kernels[t];
    assert StateOk(g, st.kernels, s) && StateOk(g, st.kernels, t);
    if KernelSet(k) == KernelSet(k') { SortedUnique(k, k'); }
  }

  lemma CoresDistinct(g: Grammar, st: States)
    requires WellFormed(g) && StatesOk(g, st)
    ensures var q := Cores(st.kernels); forall i, j :: 0 <= i < j < |q| ==> q[i] != q[j]
  {
    var q := Cores(st.kernels);
    forall i, j | 0 <= i < j < |q| ensures q[i] != q[j] { CoresApart(g, st, i + 1, j + 1); }
  }

  lemma CoresWithin(g: Grammar, ks: seq<seq<KItem>>, v: set<Item>, y: set<Item>)
    requires WellFormed(g) && KernelsOk(g, ks) && y in Cores(ks)
    requires forall it :: ValidItem(g, it) && KernelItem(it) ==> it in v
    ensures y <= v
  {
    var i :| 0 <= i < |Cores(ks)| && Cores(ks)[i] == y;
    assert KernelOk(g, ks[i + 1]);
  }

  /** An automaton has at most one state more than there are sets of items with the dot moved. */
  lemma StatesBound(g: Grammar, st: States, v: set<Item>)
    requires WellFormed(g) && StatesOk(g, st)
    requires forall it :: ValidItem(g, it) && KernelItem(it) ==> it in v
    ensures |st.kernels| <= Pow2(|v|) + 1
  {
    var ks := st.kernels;
    var q := Cores(ks);
    CoresDistinct(g, st);
    CountApart(q);
    forall y | y in Range(q) ensures y <= v { CoresWithin(g, ks, v, y); }
    SubsetsBound(v, Range(q));
  }

  lemma {:induction false} PowUp(m: nat, n: nat)
    requires m <= n
    ensures Pow2(m) <= Pow2(n)
  {
    if m < n { PowUp(m, n - 1); }
  }
}
