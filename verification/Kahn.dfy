/** Condensing a graph into its components and emptying the condensation in
    topological order, least component first. */
module Kahn {
  import opened Basics
  import opened Dag
  import opened Graphs
  import opened TieBreak
  import opened Kosaraju
  import opened Linearization

  type Components = seq<seq<Digest>>

  /** Component `i` has an edge into component `j`. */
  ghost predicate Leads(g: Graph, components: Components, i: nat, j: nat) {
    i < |components| && j < |components| && i != j
    && exists x, y :: x in components[i] && y in components[j] && Edge(g, x, y)
  }

  ghost function Preds(heads: map<nat, set<nat>>, live: set<nat>, j: nat): set<nat> {
    set i | i in live && i in heads && j in heads[i]
  }

  function Indices(n: nat): (s: set<nat>)
    ensures forall i: nat :: i in s <==> i < n
  {
    if n == 0 then {} else Indices(n - 1) + {n - 1}
  }

  /** `heads` is the condensation and `indegree` counts its edges. */
  ghost predicate Condensed(g: Graph, components: Components, heads: map<nat, set<nat>>, indegree: map<nat, nat>) {
    && heads.Keys == Indices(|components|) && indegree.Keys == Indices(|components|)
    && (forall i, j :: i in heads ==> (j in heads[i] <==> Leads(g, components, i, j)))
    && (forall j :: j in indegree ==> indegree[j] == |Preds(heads, heads.Keys, j)|)
  }

  ghost predicate Disjoint(components: Components) {
    forall i, j, x :: 0 <= i < |components| && 0 <= j < |components| && x in components[i] && x in components[j] ==>
      i == j
  }

  /** `index` sends each member of the first `n` components to its component. */
  ghost predicate Indexed(components: Components, index: map<Digest, nat>, n: nat) {
    && (forall x :: x in index ==> index[x] < n && index[x] < |components| && x in components[index[x]])
    && (forall i, x :: 0 <= i < n && i < |components| && x in components[i] ==> x in index)
  }

  lemma IndexedOne(components: Components, index: map<Digest, nat>, n: nat, i: nat, x: Digest)
    requires Disjoint(components) && Indexed(components, index, n) && i < n && i < |components| && x in components[i]
    ensures x in index && index[x] == i
  {
  }

  method ComponentIndex(components: Components) returns (index: map<Digest, nat>)
    requires Disjoint(components)
    ensures Indexed(components, index, |components|)
  {
    index := map[];
    var i := 0;
    while i < |components|
      invariant 0 <= i <= |components| && Indexed(components, index, i)
    {
      var j := 0;
      while j < |components[i]|
        invariant 0 <= j <= |components[i]|
        invariant forall x :: x in index ==> index[x] <= i && x in components[index[x]]
        invariant forall k, x :: 0 <= k < i && x in components[k] ==> x in index
        invariant forall k :: 0 <= k < j ==> components[i][k] in index
      {
        index := index[components[i][j] := i];
        j := j + 1;
      }
      i := i + 1;
    }
  }

  /** The edges seen so far, as pairs of component indices. */
  ghost predicate Counted(components: Components, heads: map<nat, set<nat>>, indegree: map<nat, nat>,
      seen: set<(nat, nat)>) {
    && heads.Keys == Indices(|components|) && indegree.Keys == Indices(|components|)
    && (forall i, j :: i in heads ==> (j in heads[i] <==> (i, j) in seen && i != j))
    && (forall j :: j in indegree ==> indegree[j] == |Preds(heads, heads.Keys, j)|)
  }

  lemma PredsGrow(heads: map<nat, set<nat>>, heads': map<nat, set<nat>>, i: nat, j: nat, k: nat)
    requires i in heads && j !in heads[i] && heads' == heads[i := heads[i] + {j}]
    ensures |Preds(heads', heads'.Keys, k)| == |Preds(heads, heads.Keys, k)| + if k == j then 1 else 0
  {
    var before, after := Preds(heads, heads.Keys, k), Preds(heads', heads'.Keys, k);
    if k == j {
      assert after == before + {i} && i !in before;
    } else {
      assert after == before;
    }
  }

  lemma CountedKeys(components: Components, heads: map<nat, set<nat>>, indegree: map<nat, nat>, seen: set<(nat, nat)>)
    requires Counted(components, heads, indegree, seen)
    ensures heads.Keys == indegree.Keys == Indices(|components|)
  {
  }

  lemma CountOldEdge(components: Components, heads: map<nat, set<nat>>, indegree: map<nat, nat>,
      seen: set<(nat, nat)>, i: nat, j: nat)
    requires Counted(components, heads, indegree, seen) && i in heads && (i == j || j in heads[i])
    ensures Counted(components, heads, indegree, seen + {(i, j)})
  {
    hide Preds;
  }

  lemma CountNewEdge(components: Components, heads: map<nat, set<nat>>, indegree: map<nat, nat>,
      seen: set<(nat, nat)>, i: nat, j: nat)
    requires Counted(components, heads, indegree, seen) && i in heads && j in indegree && i != j && j !in heads[i]
    ensures Counted(components, heads[i := heads[i] + {j}], indegree[j := indegree[j] + 1], seen + {(i, j)})
  {
    hide Preds;
    var heads', indegree' := heads[i := heads[i] + {j}], indegree[j := indegree[j] + 1];
    forall k | k in indegree'
      ensures indegree'[k] == |Preds(heads', heads'.Keys, k)|
    {
      PredsGrow(heads, heads', i, j, k);
    }
  }

  /** The component pairs that the edges leaving the nodes in `done` connect. */
  ghost function Crossings(graph: Graph, index: map<Digest, nat>, done: set<Digest>): set<(nat, nat)>
    requires Closed(graph) && index.Keys == graph.Keys && done <= graph.Keys
  {
    set x, y | x in done && y in graph[x] :: (index[x], index[y])
  }

  ghost function CrossingsFrom(graph: Graph, index: map<Digest, nat>, from: Digest): set<(nat, nat)>
    requires Closed(graph) && index.Keys == graph.Keys && from in graph
  {
    set y | y in graph[from] :: (index[from], index[y])
  }

  /** The edges that leave one node, in any order. */
  method CondenseFrom(graph: Graph, components: Components, index: map<Digest, nat>, from: Digest,
                      heads0: map<nat, set<nat>>, indegree0: map<nat, nat>, ghost seen0: set<(nat, nat)>)
    returns (heads: map<nat, set<nat>>, indegree: map<nat, nat>, ghost seen: set<(nat, nat)>)
    requires Closed(graph) && from in graph && index.Keys == graph.Keys
    requires forall x :: x in index ==> index[x] < |components|
    requires Counted(components, heads0, indegree0, seen0)
    ensures Counted(components, heads, indegree, seen)
    ensures seen == seen0 + CrossingsFrom(graph, index, from)
  {
    hide Counted;
    heads, indegree, seen := heads0, indegree0, seen0;
    CountedKeys(components, heads, indegree, seen);
    var fromComponent := index[from];
    var tos := graph[from];
    while tos != {}
      invariant tos <= graph[from]
      invariant heads.Keys == indegree.Keys == Indices(|components|)
      invariant Counted(components, heads, indegree, seen)
      invariant seen == seen0 + set y | y in graph[from] - tos :: (fromComponent, index[y])
      decreases tos
    {
      var to :| to in tos;
      assert Edge(graph, from, to);
      var toComponent := index[to];
      if fromComponent != toComponent && toComponent !in heads[fromComponent] {
        CountNewEdge(components, heads, indegree, seen, fromComponent, toComponent);
        heads := heads[fromComponent := heads[fromComponent] + {toComponent}];
        indegree := indegree[toComponent := indegree[toComponent] + 1];
      } else {
        CountOldEdge(components, heads, indegree, seen, fromComponent, toComponent);
      }
      seen := seen + {(fromComponent, toComponent)};
      tos := tos - {to};
    }
  }

  /** The condensation, filled by visiting nodes and edges in any order. */
  method Condense(graph: Graph, components: Components) returns (heads: map<nat, set<nat>>, indegree: map<nat, nat>)
    requires Closed(graph) && SccPartition(graph, components)
    ensures Condensed(graph, components, heads, indegree)
  {
    hide SccPartition, Counted, Crossings, CrossingsFrom, Disjoint, Indexed, Closed, Condensed;
    PartitionFacts(graph, components);
    var index := ComponentIndex(components);
    IndexCovers(graph, components, index);
    heads, indegree := EmptyCondensation(components);
    ghost var seen: set<(nat, nat)> := {};
    ghost var done: set<Digest> := {};
    assert Crossings(graph, index, done) == {} by {
      NothingCrosses(graph, index);
    }
    var froms := graph.Keys;
    while froms != {}
      invariant done + froms == graph.Keys
      invariant Counted(components, heads, indegree, seen)
      invariant seen == Crossings(graph, index, done)
      decreases froms
    {
      var from :| from in froms;
      heads, indegree, seen := CondenseFrom(graph, components, index, from, heads, indegree, seen);
      CrossFrom(graph, index, done, from);
      done := done + {from};
      froms := froms - {from};
    }
    assert done == graph.Keys;
    CrossingsAreLeads(graph, components, index, heads, indegree, seen);
  }

  lemma PartitionFacts(g: Graph, components: Components)
    requires SccPartition(g, components)
    ensures Disjoint(components)
    ensures forall i, x :: 0 <= i < |components| && x in components[i] ==> x in g
    ensures forall x :: x in g ==> Placed(components, x)
  {
    hide Reach;
    forall i, j, x | 0 <= i < |components| && 0 <= j < |components| && x in components[i] && x in components[j]
      ensures i == j
    {
      ReachSelf(g, x);
      assert Mutual(g, x, x);
    }
  }

  lemma CrossingsAreLeads(graph: Graph, components: Components, index: map<Digest, nat>,
      heads: map<nat, set<nat>>, indegree: map<nat, nat>, seen: set<(nat, nat)>)
    requires Closed(graph) && Disjoint(components) && Indexed(components, index, |components|)
    requires index.Keys == graph.Keys
    requires Counted(components, heads, indegree, seen) && seen == Crossings(graph, index, graph.Keys)
    ensures Condensed(graph, components, heads, indegree)
  {
    hide Preds;
    forall i: nat, j: nat | i in heads
      ensures j in heads[i] <==> Leads(graph, components, i, j)
    {
      if Leads(graph, components, i, j) {
        var x, y :| x in components[i] && y in components[j] && Edge(graph, x, y);
        IndexedOne(components, index, |components|, i, x);
        IndexedOne(components, index, |components|, j, y);
        assert (index[x], index[y]) in seen;
      }
    }
  }

  lemma IndexCovers(g: Graph, components: Components, index: map<Digest, nat>)
    requires SccPartition(g, components) && Indexed(components, index, |components|)
    ensures index.Keys == g.Keys
    ensures forall x :: x in index ==> index[x] < |components|
  {
    hide Mutual;
    forall x | x in g
      ensures x in index
    {
      assert Placed(components, x);
    }
  }

  method EmptyCondensation(components: Components) returns (heads: map<nat, set<nat>>, indegree: map<nat, nat>)
    ensures Counted(components, heads, indegree, {})
  {
    heads := map i | i in Indices(|components|) :: {};
    indegree := map i | i in Indices(|components|) :: 0;
    forall j
      ensures Preds(heads, heads.Keys, j) == {}
    {
    }
  }

  lemma NothingCrosses(graph: Graph, index: map<Digest, nat>)
    requires Closed(graph) && index.Keys == graph.Keys
    ensures Crossings(graph, index, {}) == {}
  {
  }

  lemma CrossFrom(graph: Graph, index: map<Digest, nat>, done: set<Digest>, from: Digest)
    requires Closed(graph) && index.Keys == graph.Keys && done <= graph.Keys && from in graph
    ensures Crossings(graph, index, done + {from}) ==
      Crossings(graph, index, done) + CrossingsFrom(graph, index, from)
  {
  }

  // ---------------------------------------------------------------------
  // Emptying the condensation
  // ---------------------------------------------------------------------

  /** The nodes of the components not emitted yet. */
  ghost function Rest(components: Components, live: set<nat>): set<Digest> {
    set i, x | i in live && i < |components| && x in components[i] :: x
  }

  /** What leads on from a remaining node remains. */
  ghost predicate Downward(g: Graph, rest: set<Digest>) {
    forall x, y :: x in rest && Reach(g, x, y) ==> y in rest
  }

  /** The least member of a component, by which components compare. */
  function Key(store: History, components: Components, i: nat): Digest {
    if i < |components| && Elements(components[i]) != {} && Elements(components[i]) <= store.Keys
    then LeastOf(store, Elements(components[i])) else 0
  }

  predicate ComponentLess(store: History, components: Components, i: nat, j: nat) {
    TieLess(store, Key(store, components, i), Key(store, components, j))
  }

  ghost predicate Comparable(store: History, components: Components, s: seq<nat>) {
    forall k :: k in s ==> Key(store, components, k) in store
  }

  function LeastIndex(store: History, components: Components, s: seq<nat>): (r: nat)
    requires s != [] && Comparable(store, components, s)
    ensures r < |s| && forall k :: k in s ==> !ComponentLess(store, components, k, s[r])
  {
    if |s| == 1 then 0 else
      assert s == [s[0]] + s[1..];
      var r := LeastIndex(store, components, s[1..]) + 1;
      assert forall k :: k in s ==> k == s[0] || k in s[1..];
      if ComponentLess(store, components, s[r], s[0]) then r else 0
  }

  /** Sorting by `compare_components`; distinct components never compare equal, so
      any sorting algorithm gives this result. */
  function SortReady(store: History, components: Components, s: seq<nat>): (t: seq<nat>)
    requires Comparable(store, components, s)
    ensures multiset(t) == multiset(s)
    ensures forall k :: k in s ==> !ComponentLess(store, components, k, t[0])
    ensures |t| > 1 ==> !ComponentLess(store, components, t[1], t[0])
    decreases |s|
  {
    if s == [] then [] else
      var r := LeastIndex(store, components, s);
      var others := s[..r] + s[r + 1..];
      assert s == s[..r] + [s[r]] + s[r + 1..];
      assert forall k :: k in others ==> k in s;
      var rest := SortReady(store, components, others);
      assert |rest| > 0 ==> rest[0] in multiset(others);
      [s[r]] + rest
  }

  /** A live component has no live predecessor exactly when its members are ready. */
  lemma SourceIsReady(g: Graph, components: Components, heads: map<nat, set<nat>>, indegree: map<nat, nat>,
      live: set<nat>, i: nat, x: Digest)
    requires Closed(g) && SccPartition(g, components) && Condensed(g, components, heads, indegree)
    requires live <= Indices(|components|) && Downward(g, Rest(components, live))
    requires i in live && x in components[i]
    ensures Preds(heads, live, i) == {} <==> Ready(g, Rest(components, live), x)
  {
    var rest := Rest(components, live);
    assert x in rest;
    if Preds(heads, live, i) != {} {
      var k :| k in Preds(heads, live, i);
      LeaderBlocks(g, components, live, k, i, x);
    }
    if !Ready(g, rest, x) {
      var y :| y in rest && Reach(g, y, x) && !Reach(g, x, y);
      var k := BlockerLeads(g, components, live, i, x, y);
      assert k in Preds(heads, live, i);
    }
  }

  lemma LeaderBlocks(g: Graph, components: Components, live: set<nat>, k: nat, i: nat, x: Digest)
    requires SccPartition(g, components) && k in live && Leads(g, components, k, i) && x in components[i]
    ensures !Ready(g, Rest(components, live), x)
  {
    hide Reach;
    var a, b :| a in components[k] && b in components[i] && Edge(g, a, b);
    ReachEdge(g, a, b);
    assert Mutual(g, b, x) && !Mutual(g, a, x);
    ReachTransitive(g, a, b, x);
    assert a in Rest(components, live);
  }

  lemma BlockerLeads(g: Graph, components: Components, live: set<nat>, i: nat, x: Digest, y: Digest) returns (k: nat)
    requires Closed(g) && SccPartition(g, components) && live <= Indices(|components|)
    requires Downward(g, Rest(components, live))
    requires i in live && x in components[i] && y in Rest(components, live) && Reach(g, y, x) && !Reach(g, x, y)
    ensures k in live && Leads(g, components, k, i)
  {
    hide Reach;
    assert y in components[i] ==> Mutual(g, x, y);
    var a, b := ReachLeaves(g, y, x, g.Keys - Elements(components[i]));
    assert a in Rest(components, live);
    k :| k in live && k < |components| && a in components[k];
    assert Edge(g, a, b) && a in g;
  }

  lemma RestInside(g: Graph, components: Components, live: set<nat>)
    requires SccPartition(g, components)
    ensures Rest(components, live) <= g.Keys
  {
    hide Mutual;
  }

  lemma MatesAreComponent(g: Graph, components: Components, live: set<nat>, i: nat, x: Digest)
    requires SccPartition(g, components) && live <= Indices(|components|) && i in live && x in components[i]
    ensures Mates(g, Rest(components, live), x) == Elements(components[i])
    ensures Rest(components, live - {i}) == Rest(components, live) - Elements(components[i])
  {
    hide Mutual;
    var rest := Rest(components, live);
    forall y
      ensures y in Mates(g, rest, x) <==> y in components[i]
    {
      if y in rest {
        var k :| k in live && k < |components| && y in components[k];
      }
    }
    forall y
      ensures y in Rest(components, live - {i}) <==> y in rest && y !in components[i]
    {
      if y in rest {
        var k :| k in live && k < |components| && y in components[k];
        assert k != i ==> !Mutual(g, x, y) && k in live - {i};
      }
    }
  }

  lemma DownwardShrinks(g: Graph, rest: set<Digest>, m: Digest)
    requires Downward(g, rest) && Ready(g, rest, m)
    ensures Downward(g, rest - Mates(g, rest, m))
  {
    hide Reach;
    var left := rest - Mates(g, rest, m);
    forall x, y | x in left && Reach(g, x, y)
      ensures y in left
    {
      if y in Mates(g, rest, m) {
        ReachTransitive(g, x, y, m);
        assert false;
      }
    }
  }

  lemma KeyIsLeast(store: History, components: Components, i: nat)
    requires i < |components| && components[i] != [] && Elements(components[i]) <= store.Keys
    ensures Key(store, components, i) in components[i]
    ensures forall y :: y in components[i] ==>
      y == Key(store, components, i) || TieLess(store, Key(store, components, i), y)
  {
    hide TieLess;
    assert components[i][0] in Elements(components[i]);
  }

  /** The least ready node is the least member of the first ready component. */
  lemma LeastReadyIsKey(store: History, g: Graph, components: Components, heads: map<nat, set<nat>>,
      indegree: map<nat, nat>, live: set<nat>, current: nat)
    requires Closed(g) && SccPartition(g, components) && Condensed(g, components, heads, indegree)
    requires g.Keys <= store.Keys
    requires live <= Indices(|components|) && Downward(g, Rest(components, live)) && Rest(components, live) <= g.Keys
    requires current in live && Preds(heads, live, current) == {}
    requires forall k :: k in live && Preds(heads, live, k) == {} ==> !ComponentLess(store, components, k, current)
    ensures Rest(components, live) != {}
    ensures LeastReady(store, g, Rest(components, live)) == Key(store, components, current)
    ensures Key(store, components, current) in components[current]
  {
    hide Mutual, Preds, Condensed, Reach, Ready, Closed, Downward, LeastOf;
    var rest := Rest(components, live);
    MembersKnown(store, g, components, current);
    KeyIsLeast(store, components, current);
    var c := Key(store, components, current);
    SourceIsReady(g, components, heads, indegree, live, current, c);
    assert c in rest;
    MatesShrink(store, g, rest);
    var m := LeastReady(store, g, rest);
    LeastReadyIsLeast(store, g, rest, c);
    assert m in rest by {
      hide SccPartition, Rest;
    }
    var k :| k in live && k < |components| && m in components[k];
    SourceIsReady(g, components, heads, indegree, live, k, m);
    MembersKnown(store, g, components, k);
    KeyIsLeast(store, components, k);
    var b := Key(store, components, k);
    SourceIsReady(g, components, heads, indegree, live, k, b);
    LeastReadyIsLeast(store, g, rest, b);
    assert b in g && m in g && c in g;
    TieLessTotal(store, b, m, b);
    TieLessTotal(store, m, c, m);
  }

  lemma MembersKnown(store: History, g: Graph, components: Components, i: nat)
    requires SccPartition(g, components) && g.Keys <= store.Keys && i < |components|
    ensures components[i] != [] && Elements(components[i]) <= store.Keys
  {
    hide Mutual;
  }

  lemma LeastReadyIsLeast(store: History, g: Graph, rest: set<Digest>, x: Digest)
    requires rest <= g.Keys && rest <= store.Keys && rest != {} && Ready(g, rest, x)
    ensures LeastReady(store, g, rest) in rest
    ensures x == LeastReady(store, g, rest) || TieLess(store, LeastReady(store, g, rest), x)
  {
    hide TieLess, Reach;
    ReadyExists(g, rest);
    assert x in rest && x in ReadySet(g, rest);
  }

  /** The first of the sorted ready components is the component of the least ready
      node, and emitting it is one step of the order. */
  lemma EmitLeast(store: History, g: Graph, components: Components, heads: map<nat, set<nat>>,
      indegree: map<nat, nat>, live: set<nat>, current: nat)
    requires Closed(g) && SccPartition(g, components) && Condensed(g, components, heads, indegree)
    requires g.Keys <= store.Keys
    requires live <= Indices(|components|) && Downward(g, Rest(components, live)) && Rest(components, live) <= g.Keys
    requires current in live && Preds(heads, live, current) == {}
    requires forall k :: k in live && Preds(heads, live, k) == {} ==> !ComponentLess(store, components, k, current)
    ensures Elements(components[current]) <= store.Keys
    ensures Downward(g, Rest(components, live - {current})) && Rest(components, live - {current}) <= g.Keys
    ensures Linearize(store, g, Rest(components, live)) ==
      Ascending(store, Elements(components[current])) + Linearize(store, g, Rest(components, live - {current}))
  {
    LeastReadyIsKey(store, g, components, heads, indegree, live, current);
    hide Mutual, Preds, Condensed, Reach, Ready, Downward, ComponentLess, LeastReady, Key, Rest, Mates, Ascending;
    var m := LeastReady(store, g, Rest(components, live));
    MembersKnown(store, g, components, current);
    MatesShrink(store, g, Rest(components, live));
    MatesAreComponent(g, components, live, current, m);
    DownwardShrinks(g, Rest(components, live), m);
  }

  // ---------------------------------------------------------------------
  // The loop
  // ---------------------------------------------------------------------

  /** `indegree` counts the predecessors still to be emitted, and `ready` lists the
      live components that have none. */
  ghost predicate Degrees(heads: map<nat, set<nat>>, live: set<nat>, indegree: map<nat, nat>) {
    indegree.Keys == heads.Keys && forall j :: j in indegree ==> indegree[j] == |Preds(heads, live, j)|
  }

  ghost predicate ReadyList(live: set<nat>, indegree: map<nat, nat>, ready: seq<nat>) {
    && live <= indegree.Keys && Distinct(ready)
    && forall i :: i in ready <==> i in live && indegree[i] == 0
  }

  lemma PredsLose(heads: map<nat, set<nat>>, live: set<nat>, current: nat, j: nat)
    requires current in live && current in heads
    ensures |Preds(heads, live, j)| == |Preds(heads, live - {current}, j)| + if j in heads[current] then 1 else 0
  {
    var before, after := Preds(heads, live, j), Preds(heads, live - {current}, j);
    if j in heads[current] {
      assert before == after + {current} && current !in after;
    } else {
      assert before == after;
    }
  }

  /** Emitting `current` releases its successors; no count ever goes below zero. */
  method Release(heads: map<nat, set<nat>>, indegree0: map<nat, nat>, ready0: seq<nat>, current: nat,
      ghost live: set<nat>)
    returns (indegree: map<nat, nat>, ready: seq<nat>)
    requires current in live && current in heads && heads[current] <= live - {current}
    requires Degrees(heads, live, indegree0) && ReadyList(live - {current}, indegree0, ready0)
    ensures Degrees(heads, live - {current}, indegree) && ReadyList(live - {current}, indegree, ready)
  {
    hide Preds;
    indegree, ready := indegree0, ready0;
    ghost var left := live - {current};
    var next := heads[current];
    forall j | j in indegree
      ensures indegree[j] == |Preds(heads, left, j)| + if j in next then 1 else 0
    {
      PredsLose(heads, live, current, j);
    }
    while next != {}
      invariant next <= heads[current] && indegree.Keys == heads.Keys
      invariant forall j :: j in indegree ==> indegree[j] == |Preds(heads, left, j)| + if j in next then 1 else 0
      invariant ReadyList(left, indegree, ready)
      decreases next
    {
      var component := Least(next);
      assert indegree[component] > 0;
      indegree := indegree[component := indegree[component] - 1];
      if indegree[component] == 0 {
        DistinctAppend(ready, component);
        ready := ready + [component];
      }
      next := next - {component};
    }
  }

  /** The components without predecessors, listed in any order. */
  method InitiallyReady(indegree: map<nat, nat>) returns (ready: seq<nat>)
    ensures ReadyList(indegree.Keys, indegree, ready)
  {
    ready := [];
    var left := indegree.Keys;
    while left != {}
      invariant left <= indegree.Keys && Distinct(ready)
      invariant forall i :: i in ready <==> i in indegree && i !in left && indegree[i] == 0
      decreases left
    {
      var i :| i in left;
      if indegree[i] == 0 {
        DistinctAppend(ready, i);
        ready := ready + [i];
      }
      left := left - {i};
    }
  }

  ghost predicate Progress(store: History, g: Graph, components: Components, heads: map<nat, set<nat>>,
      live: set<nat>, indegree: map<nat, nat>, ready: seq<nat>)
  {
    && live <= Indices(|components|) && Rest(components, live) <= g.Keys && Downward(g, Rest(components, live))
    && Degrees(heads, live, indegree) && ReadyList(live, indegree, ready)
  }

  method TopologicalOrder(store: History, components: Components, heads: map<nat, set<nat>>,
      indegree0: map<nat, nat>, ghost g: Graph)
    returns (result: seq<Digest>)
    requires Closed(g) && g.Keys <= store.Keys && SccPartition(g, components)
    requires Condensed(g, components, heads, indegree0)
    ensures result == Linearize(store, g, g.Keys)
  {
    hide SccPartition, Linearize, Key, Rest, Downward, Degrees, Preds, ComponentLess, Ascending, Closed, SortReady;
    var indegree := indegree0;
    var ready := InitiallyReady(indegree);
    ghost var live := Indices(|components|);
    EverythingLive(store, g, components, heads, indegree, ready);
    hide Condensed;
    result := [];
    while ready != []
      invariant Progress(store, g, components, heads, live, indegree, ready)
      invariant result + Linearize(store, g, Rest(components, live)) == Linearize(store, g, g.Keys)
      decreases live
    {
      ReadyComparable(store, g, components, live, ready);
      var sorted := SortReady(store, components, ready);
      var current := sorted[0];
      StepFacts(store, g, components, heads, indegree0, live, indegree, ready, sorted);
      EmitLeast(store, g, components, heads, indegree0, live, current);
      var members := Ascending(store, Elements(components[current]));
      result := result + members;
      indegree, ready := Release(heads, indegree, sorted[1..], current, live);
      live := live - {current};
    }
    NothingLeft(store, g, components, heads, indegree0, live, indegree);
  }

  lemma EverythingLive(store: History, g: Graph, components: Components, heads: map<nat, set<nat>>,
      indegree: map<nat, nat>, ready: seq<nat>)
    requires Closed(g) && SccPartition(g, components) && Condensed(g, components, heads, indegree)
    requires ReadyList(indegree.Keys, indegree, ready)
    ensures Progress(store, g, components, heads, Indices(|components|), indegree, ready)
    ensures Rest(components, Indices(|components|)) == g.Keys
  {
    RestIsAll(g, components);
    hide Mutual, Reach, SccPartition, Rest, Preds;
    forall x, y | x in g && Reach(g, x, y)
      ensures y in g
    {
      ReachInside(g, x, y);
    }
  }

  lemma RestIsAll(g: Graph, components: Components)
    requires SccPartition(g, components)
    ensures Rest(components, Indices(|components|)) == g.Keys
  {
    hide Mutual;
    RestInside(g, components, Indices(|components|));
    forall x | x in g
      ensures x in Rest(components, Indices(|components|))
    {
      assert Placed(components, x);
    }
  }

  lemma ReadyComparable(store: History, g: Graph, components: Components, live: set<nat>, ready: seq<nat>)
    requires SccPartition(g, components) && g.Keys <= store.Keys && live <= Indices(|components|)
    requires forall i :: i in ready ==> i in live
    ensures Comparable(store, components, ready)
  {
    forall k | k in ready
      ensures Key(store, components, k) in store
    {
      MembersKnown(store, g, components, k);
      KeyIsLeast(store, components, k);
    }
  }

  /** Taking the first of the sorted list leaves the list of the rest. */
  lemma TakeFirst(store: History, components: Components, live: set<nat>, indegree: map<nat, nat>,
      ready: seq<nat>, sorted: seq<nat>)
    requires ReadyList(live, indegree, ready) && ready != []
    requires Comparable(store, components, ready) && sorted == SortReady(store, components, ready)
    ensures sorted != [] && sorted[0] in ready && ReadyList(live - {sorted[0]}, indegree, sorted[1..])
  {
    hide SortReady;
    assert multiset(sorted) == multiset(ready);
    MultisetDistinct(ready, sorted);
    assert ready[0] in sorted;
    assert sorted == [sorted[0]] + sorted[1..];
  }

  /** The successors of a live component are live. */
  lemma SuccessorsLive(g: Graph, components: Components, heads: map<nat, set<nat>>, indegree0: map<nat, nat>,
      live: set<nat>, i: nat)
    requires SccPartition(g, components) && Condensed(g, components, heads, indegree0)
    requires live <= Indices(|components|) && Downward(g, Rest(components, live)) && i in live
    ensures i in heads && heads[i] <= live - {i}
  {
    hide Reach;
    forall j | j in heads[i]
      ensures j in live && j != i
    {
      var x, y :| x in components[i] && y in components[j] && Edge(g, x, y);
      ReachEdge(g, x, y);
      assert x in Rest(components, live);
      var k :| k in live && k < |components| && y in components[k];
      ReachSelf(g, y);
      assert Mutual(g, y, y);
    }
  }

  lemma StepFacts(store: History, g: Graph, components: Components, heads: map<nat, set<nat>>,
      indegree0: map<nat, nat>, live: set<nat>, indegree: map<nat, nat>, ready: seq<nat>, sorted: seq<nat>)
    requires SccPartition(g, components) && Condensed(g, components, heads, indegree0)
    requires Progress(store, g, components, heads, live, indegree, ready) && ready != []
    requires Comparable(store, components, ready) && sorted == SortReady(store, components, ready)
    ensures sorted != [] && sorted[0] in live && sorted[0] in heads && heads[sorted[0]] <= live - {sorted[0]}
    ensures Preds(heads, live, sorted[0]) == {}
    ensures forall k :: k in live && Preds(heads, live, k) == {} ==> !ComponentLess(store, components, k, sorted[0])
    ensures ReadyList(live - {sorted[0]}, indegree, sorted[1..])
  {
    TakeFirst(store, components, live, indegree, ready, sorted);
    SuccessorsLive(g, components, heads, indegree0, live, sorted[0]);
    hide SccPartition, Condensed, Preds, ComponentLess, Rest, Distinct;
    var first := sorted[0];
    assert |Preds(heads, live, first)| == 0;
    forall k | k in live && Preds(heads, live, k) == {}
      ensures !ComponentLess(store, components, k, first)
    {
      assert indegree[k] == |Preds(heads, live, k)|;
      assert k in ready;
    }
  }

  lemma NothingLeft(store: History, g: Graph, components: Components, heads: map<nat, set<nat>>,
      indegree0: map<nat, nat>, live: set<nat>, indegree: map<nat, nat>)
    requires Closed(g) && g.Keys <= store.Keys && SccPartition(g, components)
    requires Condensed(g, components, heads, indegree0)
    requires Progress(store, g, components, heads, live, indegree, [])
    ensures Rest(components, live) == {} && Linearize(store, g, Rest(components, live)) == []
  {
    hide Mutual, Reach, Preds, Condensed;
    var rest := Rest(components, live);
    if rest != {} {
      ReadyExists(g, rest);
      var r :| r in ReadySet(g, rest);
      var k :| k in live && k < |components| && r in components[k];
      SourceIsReady(g, components, heads, indegree0, live, k, r);
      assert false;
    }
  }
}
