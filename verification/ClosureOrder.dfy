/** The order in which `closure` lists the items of a state. */
module ClosureOrder {
  import opened Grammars
  import opened GrammarSets
  import opened Items

  ghost predicate AllValid(g: Grammar, items: seq<Item>)
    requires WellFormed(g)
  {
    forall k :: 0 <= k < |items| ==> ValidItem(g, items[k])
  }

  /** Production q with the dot in front, appended unless it is there. */
  function AddRule(items: seq<Item>, q: int): seq<Item> {
    if Item(q, 0) in items then items else items + [Item(q, 0)]
  }

  /** The first n rules, one after another. */
  function AddRules(items: seq<Item>, rules: seq<int>, n: nat): seq<Item>
    requires n <= |rules|
  {
    if n == 0 then items else AddRule(AddRules(items, rules, n - 1), rules[n - 1])
  }

  predicate AllThere(items: seq<Item>, rules: seq<int>, n: nat)
    requires n <= |rules|
  {
    forall r :: 0 <= r < n ==> Item(rules[r], 0) in items
  }

  lemma {:induction false} AddRulesHas(items: seq<Item>, rules: seq<int>, n: nat)
    requires n <= |rules|
    ensures items <= AddRules(items, rules, n) && AllThere(AddRules(items, rules, n), rules, n)
    ensures AllThere(items, rules, n) ==> AddRules(items, rules, n) == items
  {
    if n > 0 {
      AddRulesHas(items, rules, n - 1);
      var some, all := AddRules(items, rules, n - 1), AddRules(items, rules, n);
      assert forall k :: 0 <= k < |some| ==> all[k] == some[k];
      forall r | 0 <= r < n ensures Item(rules[r], 0) in all {
        if r < n - 1 { assert Item(rules[r], 0) in some; }
      }
      if AllThere(items, rules, n) {
        assert AllThere(items, rules, n - 1);
        assert Item(rules[n - 1], 0) in items;
      }
    }
  }

  lemma {:induction false} AddRulesValid(g: Grammar, items: seq<Item>, rules: seq<int>, n: nat)
    requires WellFormed(g) && AllValid(g, items) && n <= |rules|
    requires forall r :: 0 <= r < |rules| ==> 0 <= rules[r] < |g.prods|
    ensures AllValid(g, AddRules(items, rules, n))
  {
    if n > 0 {
      AddRulesValid(g, items, rules, n - 1);
      assert WfProd(g, rules[n - 1], g.prods[rules[n - 1]]);
    }
  }

  /** The productions of the nonterminal after the dot of an item, in the order of the grammar; none before a token. */
  function RulesAfter(cx: Context, it: Item): (r: seq<int>)
    requires ContextOk(cx) && ValidItem(cx.g, it)
    ensures forall k :: 0 <= k < |r| ==> 0 <= r[k] < |cx.g.prods|
  {
    var c := First(cx.g, it);
    ItemBasics(cx.g, it);
    if c >= NTBASE then
      assert RulesFor(cx.g, cx.pres[c - NTBASE], c - NTBASE);
      cx.pres[c - NTBASE]
    else []
  }

  lemma RulesAfterIs(cx: Context, it: Item)
    requires ContextOk(cx) && ValidItem(cx.g, it) && First(cx.g, it) >= NTBASE
    ensures RulesFor(cx.g, RulesAfter(cx, it), First(cx.g, it) - NTBASE)
  {
    ItemBasics(cx.g, it);
  }

  ghost function Absent(g: Grammar, items: seq<Item>): set<int> {
    set q | 0 <= q < |g.prods| && Item(q, 0) !in items
  }

  /** items with the rules called for by one of them added. */
  function Step(cx: Context, items: seq<Item>, it: Item): seq<Item>
    requires ContextOk(cx) && ValidItem(cx.g, it)
  {
    AddRules(items, RulesAfter(cx, it), |RulesAfter(cx, it)|)
  }

  lemma StepShrinks(cx: Context, items: seq<Item>, u: nat)
    requires ContextOk(cx) && AllValid(cx.g, items) && u < |items|
    ensures AllValid(cx.g, Step(cx, items, items[u])) && items <= Step(cx, items, items[u])
    ensures Absent(cx.g, Step(cx, items, items[u])) <= Absent(cx.g, items)
    ensures Step(cx, items, items[u]) == items || Absent(cx.g, Step(cx, items, items[u])) < Absent(cx.g, items)
  {
    var rules := RulesAfter(cx, items[u]);
    var items' := Step(cx, items, items[u]);
    AddRulesHas(items, rules, |rules|);
    AddRulesValid(cx.g, items, rules, |rules|);
    forall it | it in items ensures it in items' {
      var k :| 0 <= k < |items| && items[k] == it;
      assert items'[k] == it;
    }
    if !AllThere(items, rules, |rules|) {
      var r :| 0 <= r < |rules| && Item(rules[r], 0) !in items;
      assert rules[r] in Absent(cx.g, items) && rules[r] !in Absent(cx.g, items');
    }
  }

  /** The items taken in order from u on, each followed up by the productions it calls for. */
  ghost function Expand(cx: Context, items: seq<Item>, u: nat): seq<Item>
    requires ContextOk(cx) && AllValid(cx.g, items) && u <= |items|
    decreases Absent(cx.g, items), |items| - u
  {
    if u == |items| then items
    else
      StepShrinks(cx, items, u);
      Expand(cx, Step(cx, items, items[u]), u + 1)
  }

  /** Items from u on have the productions they call for in the list. */
  ghost predicate Saturated(cx: Context, items: seq<Item>, u: nat)
    requires ContextOk(cx) && AllValid(cx.g, items)
  {
    forall v :: u <= v < |items| ==> AllThere(items, RulesAfter(cx, items[v]), |RulesAfter(cx, items[v])|)
  }

  lemma AllThereMore(items: seq<Item>, items': seq<Item>, rules: seq<int>)
    requires items <= items' && AllThere(items, rules, |rules|)
    ensures AllThere(items', rules, |rules|)
  {
    forall r | 0 <= r < |rules| ensures Item(rules[r], 0) in items' {
      var k :| 0 <= k < |items| && items[k] == Item(rules[r], 0);
      assert items'[k] == Item(rules[r], 0);
    }
  }

  lemma ExpandStep(cx: Context, items: seq<Item>, u: nat)
    requires ContextOk(cx) && AllValid(cx.g, items) && u < |items|
    ensures AllValid(cx.g, Step(cx, items, items[u])) && items <= Step(cx, items, items[u])
    ensures Expand(cx, items, u) == Expand(cx, Step(cx, items, items[u]), u + 1)
  {
    StepShrinks(cx, items, u);
  }

  lemma SaturatedAt(cx: Context, items: seq<Item>, next: seq<Item>, all: seq<Item>, u: nat)
    requires ContextOk(cx) && AllValid(cx.g, items) && u < |items| && next == Step(cx, items, items[u])
    requires items <= next <= all && AllValid(cx.g, all) && Saturated(cx, all, u + 1)
    ensures Saturated(cx, all, u) && items <= all
  {
    assert all[u] == items[u];
    AddRulesHas(items, RulesAfter(cx, items[u]), |RulesAfter(cx, items[u])|);
    AllThereMore(next, all, RulesAfter(cx, items[u]));
  }

  lemma {:induction false} ExpandSaturates(cx: Context, items: seq<Item>, u: nat)
    requires ContextOk(cx) && AllValid(cx.g, items) && u <= |items|
    ensures AllValid(cx.g, Expand(cx, items, u)) && items <= Expand(cx, items, u)
    ensures Saturated(cx, Expand(cx, items, u), u)
    decreases Absent(cx.g, items), |items| - u
  {
    if u < |items| {
      ExpandStep(cx, items, u);
      StepShrinks(cx, items, u);
      var next := Step(cx, items, items[u]);
      ExpandSaturates(cx, next, u + 1);
      SaturatedAt(cx, items, next, Expand(cx, next, u + 1), u);
    }
  }

  lemma {:induction false} SaturatedStays(cx: Context, items: seq<Item>, u: nat)
    requires ContextOk(cx) && AllValid(cx.g, items) && u <= |items| && Saturated(cx, items, u)
    ensures Expand(cx, items, u) == items
    decreases |items| - u
  {
    if u < |items| {
      AddRulesHas(items, RulesAfter(cx, items[u]), |RulesAfter(cx, items[u])|);
      SaturatedStays(cx, items, u + 1);
    }
  }

  /** From n on the items are productions with the dot in front. */
  predicate Fronts(items: seq<Item>, n: nat) {
    forall j :: n <= j < |items| ==> items[j].p >= 0 && items[j].off == 0
  }

  lemma {:induction false} AddRulesFronts(items: seq<Item>, rules: seq<int>, k: nat, n: nat)
    requires Fronts(items, n) && k <= |rules| && forall r :: 0 <= r < |rules| ==> rules[r] >= 0
    ensures Fronts(AddRules(items, rules, k), n)
  {
    if k > 0 { AddRulesFronts(items, rules, k - 1, n); }
  }

  lemma {:induction false} ExpandFronts(cx: Context, items: seq<Item>, u: nat, n: nat)
    requires ContextOk(cx) && AllValid(cx.g, items) && u <= |items| && Fronts(items, n)
    ensures Fronts(Expand(cx, items, u), n)
    decreases Absent(cx.g, items), |items| - u
  {
    if u < |items| {
      ExpandStep(cx, items, u);
      StepShrinks(cx, items, u);
      AddRulesFronts(items, RulesAfter(cx, items[u]), |RulesAfter(cx, items[u])|, n);
      ExpandFronts(cx, Step(cx, items, items[u]), u + 1, n);
    }
  }

  predicate NoTwice(items: seq<Item>) {
    forall i, j :: 0 <= i < j < |items| ==> items[i] != items[j]
  }

  lemma {:induction false} AddRulesOnce(items: seq<Item>, rules: seq<int>, k: nat)
    requires NoTwice(items) && k <= |rules|
    ensures NoTwice(AddRules(items, rules, k))
  {
    if k > 0 { AddRulesOnce(items, rules, k - 1); }
  }

  lemma {:induction false} ExpandOnce(cx: Context, items: seq<Item>, u: nat)
    requires ContextOk(cx) && AllValid(cx.g, items) && u <= |items| && NoTwice(items)
    ensures NoTwice(Expand(cx, items, u))
    decreases Absent(cx.g, items), |items| - u
  {
    if u < |items| {
      ExpandStep(cx, items, u);
      StepShrinks(cx, items, u);
      AddRulesOnce(items, RulesAfter(cx, items[u]), |RulesAfter(cx, items[u])|);
      ExpandOnce(cx, Step(cx, items, items[u]), u + 1);
    }
  }

  predicate AllIn(items: seq<Item>, c: set<Item>) {
    forall j :: 0 <= j < |items| ==> items[j] in c
  }

  lemma {:induction false} AddRulesIn(items: seq<Item>, rules: seq<int>, k: nat, c: set<Item>)
    requires AllIn(items, c) && k <= |rules| && forall r :: 0 <= r < |rules| ==> Item(rules[r], 0) in c
    ensures AllIn(AddRules(items, rules, k), c)
  {
    if k > 0 { AddRulesIn(items, rules, k - 1, c); }
  }

  lemma RulesAfterIn(cx: Context, it: Item, c: set<Item>)
    requires ContextOk(cx) && ValidItem(cx.g, it) && it in c && ItemsClosed(cx.g, c)
    ensures forall r :: 0 <= r < |RulesAfter(cx, it)| ==> Item(RulesAfter(cx, it)[r], 0) in c
  {
    if First(cx.g, it) >= NTBASE { RulesAfterIs(cx, it); }
  }

  /** A closed set that has the items has all they call for. */
  lemma {:induction false} ExpandIn(cx: Context, items: seq<Item>, u: nat, c: set<Item>)
    requires ContextOk(cx) && AllValid(cx.g, items) && u <= |items| && AllIn(items, c) && ItemsClosed(cx.g, c)
    ensures AllIn(Expand(cx, items, u), c)
    decreases Absent(cx.g, items), |items| - u
  {
    if u < |items| {
      ExpandStep(cx, items, u);
      StepShrinks(cx, items, u);
      RulesAfterIn(cx, items[u], c);
      AddRulesIn(items, RulesAfter(cx, items[u]), |RulesAfter(cx, items[u])|, c);
      ExpandIn(cx, Step(cx, items, items[u]), u + 1, c);
    }
  }
}
