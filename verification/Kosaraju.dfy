/** Strongly connected components by two depth-first passes. */
module Kosaraju {
  import opened Basics
  import opened Dag
  import opened Graphs
  import opened TieBreak

  // ---------------------------------------------------------------------
  // First pass: finishing order
  // ---------------------------------------------------------------------

  /** Some component-mate of `u` finished no earlier than `v`. */
  ghost predicate Outlasts(g: Graph, finish: seq<Digest>, u: Digest, v: Digest) {
    exists i, j :: 0 <= j <= i < |finish| && finish[j] == v && Mutual(g, u, finish[i])
  }

  /** A component-mate of `u` is still being explored. */
  ghost predicate HasOpenMate(g: Graph, open: set<Digest>, u: Digest) {
    exists w :: w in open && Mutual(g, u, w)
  }

  /** `finish` lists the finished nodes, `open` those on the recursion stack. A
      finished node has all its successors visited; whatever it reaches is outlasted
      by its component, unless that component is still open. */
  ghost predicate Forward(g: Graph, visited: set<Digest>, finish: seq<Digest>, open: set<Digest>) {
    && Distinct(finish) && Elements(finish) !! open && visited == Elements(finish) + open && visited <= g.Keys
    && (forall x, y :: x in finish && Edge(g, x, y) ==> y in visited)
    && (forall u, v {:trigger Outlasts(g, finish, u, v)} :: u in finish && Reach(g, u, v) ==>
      HasOpenMate(g, open, u) || Outlasts(g, finish, u, v))
  }

  lemma OpenNode(g: Graph, visited: set<Digest>, finish: seq<Digest>, open: set<Digest>, node: Digest)
    requires Forward(g, visited, finish, open) && node in g && node !in visited
    ensures Forward(g, visited + {node}, finish, open + {node})
  {
    hide Mutual, Outlasts;
    assert forall u :: HasOpenMate(g, open, u) ==> HasOpenMate(g, open + {node}, u);
  }

  lemma FinishNode(g: Graph, visited: set<Digest>, finish: seq<Digest>, open: set<Digest>, node: Digest)
    requires Forward(g, visited, finish, open + {node}) && node !in open
    requires forall y :: Edge(g, node, y) ==> y in visited
    requires forall w :: w in open ==> Reach(g, w, node)
    ensures Forward(g, visited, finish + [node], open)
  {
    var finish' := finish + [node];
    hide Reach;
    forall u, v | u in finish' && Reach(g, u, v)
      ensures HasOpenMate(g, open, u) || Outlasts(g, finish', u, v)
    {
      assert u in finish ==> HasOpenMate(g, open + {node}, u) || Outlasts(g, finish, u, v);
      if u != node && Outlasts(g, finish, u, v) {
        var i, j :| 0 <= j <= i < |finish| && finish[j] == v && Mutual(g, u, finish[i]);
        assert finish'[i] == finish[i] && finish'[j] == v;
      } else if u == node {
        LastFinishes(g, visited, finish, open, node, node, v);
      } else {
        var w :| w in open + {node} && Mutual(g, u, w);
        if w == node {
          ReachTransitive(g, node, u, v);
          LastFinishes(g, visited, finish, open, node, u, v);
        }
      }
    }
  }

  /** The case of a node that shares the component of the one finishing now. */
  lemma LastFinishes(g: Graph, visited: set<Digest>, finish: seq<Digest>, open: set<Digest>, node: Digest,
      u: Digest, v: Digest)
    requires Forward(g, visited, finish, open + {node}) && node !in open
    requires forall y :: Edge(g, node, y) ==> y in visited
    requires forall w :: w in open ==> Reach(g, w, node)
    requires Reach(g, node, v) && (u == node || Mutual(g, u, node))
    ensures HasOpenMate(g, open, u) || Outlasts(g, finish + [node], u, v)
  {
    hide Reach;
    var finish' := finish + [node];
    ReachSelf(g, node);
    if v in finish' {
      var j :| 0 <= j < |finish'| && finish'[j] == v;
      assert finish'[|finish|] == node && Mutual(g, u, node);
    } else {
      var a, b := ReachLeaves(g, node, v, Elements(finish'));
      assert b in open;
      ReachEdge(g, a, b);
      ReachTransitive(g, node, a, b);
      ReachTransitive(g, u, node, b);
      ReachTransitive(g, b, node, u);
      assert Mutual(g, u, b);
    }
  }

  method DfsForward(store: History, graph: Graph, node: Digest, visited0: set<Digest>, finish0: seq<Digest>,
      ghost open: set<Digest>)
    returns (visited: set<Digest>, finish: seq<Digest>)
    requires Closed(graph) && graph.Keys <= store.Keys
    requires Forward(graph, visited0, finish0, open) && node in graph && node !in visited0
    requires forall w :: w in open ==> Reach(graph, w, node)
    ensures Forward(graph, visited, finish, open)
    ensures visited0 + {node} <= visited
    decreases graph.Keys - visited0
  {
    hide Forward, Reach;
    visited := visited0 + {node};
    finish := finish0;
    OpenNode(graph, visited0, finish0, open, node);
    assert node !in open && visited <= graph.Keys by {
      ForwardBounds(graph, visited0, finish0, open);
    }
    var neighbors := Ascending(store, graph[node]);
    AscendingIsSorted(store, graph[node]);
    var i := 0;
    while i < |neighbors|
      invariant 0 <= i <= |neighbors|
      invariant Forward(graph, visited, finish, open + {node})
      invariant visited0 + {node} <= visited
      invariant forall k :: 0 <= k < i ==> neighbors[k] in visited
    {
      assert neighbors[i] in Elements(neighbors);
      if neighbors[i] !in visited {
        forall w | w in open + {node}
          ensures Reach(graph, w, neighbors[i])
        {
          ReachEdge(graph, node, neighbors[i]);
          ReachSelf(graph, node);
          ReachTransitive(graph, w, node, neighbors[i]);
        }
        visited, finish := DfsForward(store, graph, neighbors[i], visited, finish, open + {node});
      }
      i := i + 1;
    }
    assert forall y :: Edge(graph, node, y) ==> y in Elements(neighbors);
    FinishNode(graph, visited, finish, open, node);
    finish := finish + [node];
  }

  lemma ForwardBounds(g: Graph, visited: set<Digest>, finish: seq<Digest>, open: set<Digest>)
    requires Forward(g, visited, finish, open)
    ensures open <= visited && visited <= g.Keys && visited == Elements(finish) + open
  {
  }

  // ---------------------------------------------------------------------
  // Second pass: components
  // ---------------------------------------------------------------------

  /** `reverse` lists the predecessors of every node. */
  ghost predicate Reverses(g: Graph, reverse: map<Digest, seq<Digest>>) {
    && reverse.Keys == g.Keys
    && forall x, y :: y in reverse ==> (x in reverse[y] <==> Edge(g, x, y))
  }

  method DfsReverse(graph: map<Digest, seq<Digest>>, node: Digest, visited0: set<Digest>,
      component0: seq<Digest>, ghost g: Graph)
    returns (visited: set<Digest>, component: seq<Digest>, ghost added: seq<Digest>)
    requires Closed(g) && Reverses(g, graph)
    requires node in g && node !in visited0 && visited0 <= g.Keys
    ensures component == component0 + added && Distinct(added) && visited == visited0 + Elements(added)
    ensures node in added && Elements(added) !! visited0 && visited <= g.Keys
    ensures forall x :: x in added ==> Reach(g, x, node)
    ensures forall x, y :: x in added && Edge(g, y, x) ==> y in visited
    decreases g.Keys - visited0
  {
    hide Reach;
    visited := visited0 + {node};
    component := component0 + [node];
    added := [node];
    ReachSelf(g, node);
    var neighbors := graph[node];
    var i := 0;
    while i < |neighbors|
      invariant 0 <= i <= |neighbors|
      invariant component == component0 + added && Distinct(added) && visited == visited0 + Elements(added)
      invariant node in added && Elements(added) !! visited0 && visited <= g.Keys
      invariant forall x :: x in added ==> Reach(g, x, node)
      invariant forall x, y :: x in added && x != node && Edge(g, y, x) ==> y in visited
      invariant forall k :: 0 <= k < i ==> neighbors[k] in visited
    {
      var n := neighbors[i];
      assert n in graph[node] && Edge(g, n, node);
      if n !in visited {
        ghost var more;
        visited, component, more := DfsReverse(graph, n, visited, component, g);
        forall x | x in more
          ensures Reach(g, x, node)
        {
          ReachEdge(g, n, node);
          ReachTransitive(g, x, n, node);
        }
        assert forall x :: x in more ==> x in Elements(more);
        DistinctConcat(added, more);
        assert Elements(added + more) == Elements(added) + Elements(more);
        added := added + more;
      }
      i := i + 1;
    }
  }

  // ---------------------------------------------------------------------
  // find_scc
  // ---------------------------------------------------------------------

  /** The components list every node exactly once, and two nodes share a component
      exactly when each reaches the other. */
  ghost predicate SccPartition(g: Graph, components: seq<seq<Digest>>) {
    && (forall i :: 0 <= i < |components| ==> components[i] != [] && Distinct(components[i]))
    && (forall i, x :: 0 <= i < |components| && x in components[i] ==> x in g)
    && (forall i, j, x, y :: 0 <= i < |components| && 0 <= j < |components| ==>
      x in components[i] && y in components[j] ==> (Mutual(g, x, y) <==> i == j))
    && (forall x :: x in g ==> Placed(components, x))
  }

  ghost predicate Placed(components: seq<seq<Digest>>, x: Digest) {
    exists i :: 0 <= i < |components| && x in components[i]
  }

  /** Whatever a node reaches is outlasted by the node's component. */
  ghost predicate AllOutlasted(g: Graph, finish: seq<Digest>) {
    forall u, v {:trigger Outlasts(g, finish, u, v)} :: u in g && Reach(g, u, v) ==> Outlasts(g, finish, u, v)
  }

  /** The first pass: every node has finished. */
  method FinishOrder(store: History, nodes: seq<Digest>, graph: Graph) returns (finish: seq<Digest>)
    requires Closed(graph) && graph.Keys == Elements(nodes) && graph.Keys <= store.Keys
    ensures Distinct(finish) && Elements(finish) == graph.Keys
    ensures AllOutlasted(graph, finish)
  {
    var visited: set<Digest> := {};
    finish := [];
    var i := 0;
    while i < |nodes|
      invariant 0 <= i <= |nodes|
      invariant Forward(graph, visited, finish, {})
      invariant forall k :: 0 <= k < i ==> nodes[k] in visited
    {
      assert nodes[i] in Elements(nodes);
      if nodes[i] !in visited {
        visited, finish := DfsForward(store, graph, nodes[i], visited, finish, {});
      }
      i := i + 1;
    }
    assert forall x :: x in Elements(nodes) ==> x in visited;
    assert Elements(finish) == visited;
    assert forall u :: !HasOpenMate(graph, {}, u);
  }

  method AddReversed(graph: Graph, from: Digest, reverse0: map<Digest, seq<Digest>>)
      returns (reverse: map<Digest, seq<Digest>>)
    requires Closed(graph) && from in graph && reverse0.Keys == graph.Keys
    ensures reverse.Keys == graph.Keys
    ensures forall y :: y in reverse ==> reverse[y] == if y in graph[from] then reverse0[y] + [from] else reverse0[y]
  {
    reverse := reverse0;
    var tos := graph[from];
    while tos != {}
      invariant tos <= graph[from] && reverse.Keys == graph.Keys
      invariant forall y :: y in reverse ==>
        reverse[y] == if y in graph[from] - tos then reverse0[y] + [from] else reverse0[y]
      decreases tos
    {
      var to :| to in tos;
      assert Edge(graph, from, to);
      reverse := reverse[to := reverse[to] + [from]];
      tos := tos - {to};
    }
  }

  /** Reverse adjacency lists, filled by visiting nodes and edges in any order. */
  method CollectReversed(graph: Graph) returns (reverse: map<Digest, seq<Digest>>)
    requires Closed(graph)
    ensures Reverses(graph, reverse)
  {
    reverse := map d | d in graph :: [];
    var froms := graph.Keys;
    while froms != {}
      invariant froms <= graph.Keys && reverse.Keys == graph.Keys
      invariant forall x, y :: y in reverse ==> (x in reverse[y] <==> Edge(graph, x, y) && x !in froms)
      decreases froms
    {
      var from :| from in froms;
      ghost var reverse0 := reverse;
      reverse := AddReversed(graph, from, reverse);
      forall x, y | y in reverse
        ensures x in reverse[y] <==> Edge(graph, x, y) && x !in froms - {from}
      {
        assert x in reverse[y] <==> x in reverse0[y] || (y in graph[from] && x == from);
      }
      froms := froms - {from};
    }
  }

  method ReverseGraph(store: History, graph: Graph) returns (reverse: map<Digest, seq<Digest>>)
    requires Closed(graph) && graph.Keys <= store.Keys
    ensures Reverses(graph, reverse)
  {
    var unsorted := CollectReversed(graph);
    forall d | d in unsorted
      ensures Elements(unsorted[d]) <= store.Keys
    {
      assert forall x :: x in unsorted[d] ==> Edge(graph, x, d);
    }
    reverse := map d | d in unsorted :: Ascending(store, Elements(unsorted[d]));
    hide Ascending, Edge;
    forall x, y | y in reverse
      ensures x in reverse[y] <==> Edge(graph, x, y)
    {
      AscendingIsSorted(store, Elements(unsorted[y]));
      assert x in reverse[y] <==> x in Elements(reverse[y]);
    }
  }

  /** The components found so far: complete, and together exactly `visited`. */
  ghost predicate Collected(g: Graph, visited: set<Digest>, components: seq<seq<Digest>>) {
    && visited <= g.Keys
    && (forall i :: 0 <= i < |components| ==> components[i] != [] && Distinct(components[i]))
    && (forall i, x :: 0 <= i < |components| && x in components[i] ==> x in visited)
    && (forall i, j, x, y :: 0 <= i < |components| && 0 <= j < |components| ==>
      x in components[i] && y in components[j] ==> (Mutual(g, x, y) <==> i == j))
    && (forall x :: x in visited ==> Placed(components, x))
    && MateClosed(g, visited)
  }

  ghost predicate MateClosed(g: Graph, visited: set<Digest>) {
    forall x, y :: x in visited && Mutual(g, x, y) ==> y in visited
  }

  lemma MutualTransitive(g: Graph, x: Digest, y: Digest, z: Digest)
    requires Mutual(g, x, y) && Mutual(g, y, z)
    ensures Mutual(g, x, z) && Mutual(g, z, x)
  {
    hide Reach;
    ReachTransitive(g, x, y, z);
    ReachTransitive(g, z, y, x);
  }

  /** What one reverse search from the last unvisited finisher adds. */
  ghost predicate ReverseSearch(g: Graph, before: set<Digest>, node: Digest, added: seq<Digest>) {
    && node in added && Distinct(added) && Elements(added) !! before && Elements(added) <= g.Keys
    && (forall x :: x in added ==> Reach(g, x, node))
    && (forall x, y :: x in added && Edge(g, y, x) ==> y in before || y in added)
  }

  lemma AddedAreMates(g: Graph, before: set<Digest>, finish: seq<Digest>, n: nat, added: seq<Digest>, u: Digest)
    requires MateClosed(g, before) && Distinct(finish) && Elements(finish) == g.Keys
    requires AllOutlasted(g, finish)
    requires n < |finish| && forall k :: n < k < |finish| ==> finish[k] in before
    requires ReverseSearch(g, before, finish[n], added) && u in added
    ensures Mutual(g, u, finish[n])
  {
    hide Reach;
    assert u in Elements(added) && finish[n] in Elements(finish);
    assert Outlasts(g, finish, u, finish[n]);
    var i, j :| 0 <= j <= i < |finish| && finish[j] == finish[n] && Mutual(g, u, finish[i]);
    assert j == n;
    assert Mutual(g, finish[i], u);
    assert i == n;
  }

  lemma MatesAreAdded(g: Graph, before: set<Digest>, node: Digest, added: seq<Digest>, u: Digest)
    requires Closed(g) && MateClosed(g, before) && node in g && node !in before
    requires ReverseSearch(g, before, node, added) && Mutual(g, node, u)
    ensures u in added
  {
    hide Reach;
    ReachInside(g, node, u);
    if u !in added {
      var a, b := ReachLeaves(g, u, node, g.Keys - Elements(added));
      ReachEdge(g, a, b);
      ReachTransitive(g, a, b, node);
      ReachTransitive(g, node, u, a);
      assert false;
    }
  }

  lemma ComponentFound(g: Graph, before: set<Digest>, components: seq<seq<Digest>>, finish: seq<Digest>, n: nat,
      added: seq<Digest>)
    requires Closed(g) && Collected(g, before, components) && Distinct(finish) && Elements(finish) == g.Keys
    requires AllOutlasted(g, finish)
    requires n < |finish| && finish[n] !in before && forall k :: n < k < |finish| ==> finish[k] in before
    requires ReverseSearch(g, before, finish[n], added)
    ensures Collected(g, before + Elements(added), components + [added])
  {
    var node := finish[n];
    assert node in Elements(finish);
    forall u
      ensures u in added <==> Mutual(g, node, u)
    {
      if u in added {
        AddedAreMates(g, before, finish, n, added, u);
      }
      if Mutual(g, node, u) {
        MatesAreAdded(g, before, node, added, u);
      }
    }
    ComponentJoins(g, before, components, node, added);
  }

  lemma ComponentJoins(g: Graph, before: set<Digest>, components: seq<seq<Digest>>, node: Digest, added: seq<Digest>)
    requires Collected(g, before, components) && node in added && Distinct(added)
    requires Elements(added) !! before && Elements(added) <= g.Keys
    requires forall u :: u in added <==> Mutual(g, node, u)
    ensures Collected(g, before + Elements(added), components + [added])
  {
    hide Mutual;
    var visited, all := before + Elements(added), components + [added];
    assert forall u :: Mutual(g, node, u) ==> Mutual(g, u, node) by {
      MutualFlips(g, node);
    }
    forall x, y | x in visited && Mutual(g, x, y)
      ensures (x in before ==> y in before) && (x in added ==> y in added)
    {
      if x in added {
        MutualTransitive(g, node, x, y);
      }
    }
    forall i, j, x, y | 0 <= i < |all| && 0 <= j < |all| && x in all[i] && y in all[j]
      ensures Mutual(g, x, y) <==> i == j
    {
      assert i == |components| ==> x in Elements(added);
      assert j == |components| ==> y in Elements(added);
      if i == |components| && j == |components| {
        MutualTransitive(g, x, node, y);
      }
    }
    forall x | x in visited
      ensures Placed(all, x)
    {
      if x in before {
        var i :| 0 <= i < |components| && x in components[i];
        assert x in all[i];
      } else {
        assert x in all[|components|];
      }
    }
  }

  lemma MutualFlips(g: Graph, node: Digest)
    ensures forall u :: Mutual(g, node, u) ==> Mutual(g, u, node)
  {
  }

  method FindScc(store: History, nodes: seq<Digest>, graph: Graph) returns (components: seq<seq<Digest>>)
    requires Closed(graph) && graph.Keys == Elements(nodes) && graph.Keys <= store.Keys
    ensures SccPartition(graph, components)
  {
    hide Reach;
    var finishStack := FinishOrder(store, nodes, graph);
    var reverseGraph := ReverseGraph(store, graph);
    ghost var finish := finishStack;
    var visited: set<Digest> := {};
    components := [];
    while finishStack != []
      invariant finishStack <= finish
      invariant Collected(graph, visited, components)
      invariant forall k :: |finishStack| <= k < |finish| ==> finish[k] in visited
      decreases |finishStack|
    {
      var n := |finishStack| - 1;
      var node := finishStack[n];
      finishStack := finishStack[..n];
      assert node in Elements(finish);
      if node !in visited {
        var component;
        ghost var before := visited;
        ghost var added;
        visited, component, added := DfsReverse(reverseGraph, node, visited, [], graph);
        assert component == added;
        ComponentFound(graph, before, components, finish, n, added);
        components := components + [component];
      }
    }
    assert forall x :: x in graph ==> x in Elements(finish);
  }
}
