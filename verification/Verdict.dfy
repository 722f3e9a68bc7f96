/** Pairwise verdicts between AUFs, and the graph they make of a batch. */
module Verdict {
  import opened Basics
  import opened Dag
  import opened Graphs
  import opened TieBreak
  import opened Kosaraju
  import opened Linearization
  import opened Kahn
  import opened Visibility

  datatype OrderingRelation = ABetter | BBetter | Tie

  /** A horizon is set before an AUF is called mature. */
  ghost predicate MatureHasHorizon(aufs: map<Digest, AufState>) {
    forall d :: d in aufs && aufs[d].mature ==> aufs[d].horizon.Some?
  }

  /** The rounds a pair is compared in: both exist, neither evidence is cut off. */
  predicate InWindow(a: AufState, b: AufState, r: Round) {
    a.horizon.Some? && b.horizon.Some? && Max(a.round, b.round) < r <= Max(a.horizon.value, b.horizon.value)
  }

  predicate Ahead(a: AufState, b: AufState, r: Round, delta: nat) {
    |SeenAt(a, r)| >= |SeenAt(b, r)| + delta
  }

  /** The evidence is one-sided: `a` is ahead in some round and `b` in none. */
  ghost predicate Beats(a: AufState, b: AufState, delta: nat) {
    && a.mature && b.mature
    && (exists r :: InWindow(a, b, r) && Ahead(a, b, r, delta))
    && (forall r :: InWindow(a, b, r) ==> !Ahead(b, a, r, delta))
  }

  ghost predicate Wins(aufs: map<Digest, AufState>, delta: nat, a: Digest, b: Digest) {
    a in aufs && b in aufs && Beats(aufs[a], aufs[b], delta)
  }

  function SeenCountAt(aufs: map<Digest, AufState>, d: Digest, r: Round): nat {
    if d in aufs then |SeenAt(aufs[d], r)| else 0
  }

  method ComparePair(aufs: map<Digest, AufState>, a: Digest, b: Digest, delta: nat) returns (relation: OrderingRelation)
    requires MatureHasHorizon(aufs) && delta > 0
    ensures relation.ABetter? <==> Wins(aufs, delta, a, b)
    ensures relation.BBetter? <==> Wins(aufs, delta, b, a)
  {
    if a !in aufs || b !in aufs {
      return Tie;
    }
    var stateA, stateB := aufs[a], aufs[b];
    if !stateA.mature || !stateB.mature {
      return Tie;
    }
    var pairHorizon := Max(stateA.horizon.value, stateB.horizon.value);
    var coexistenceStart := Max(stateA.round, stateB.round);
    if pairHorizon <= coexistenceStart {
      return Tie;
    }
    var pos, neg := 0, 0;
    var round := coexistenceStart + 1;
    while round <= pairHorizon
      invariant coexistenceStart < round <= pairHorizon + 1
      invariant pos >= 0 && neg >= 0
      invariant pos >= 1 <==> exists r :: r < round && InWindow(stateA, stateB, r) && Ahead(stateA, stateB, r, delta)
      invariant neg >= 1 <==> exists r :: r < round && InWindow(stateB, stateA, r) && Ahead(stateB, stateA, r, delta)
    {
      var seenA: int := SeenCountAt(aufs, a, round);
      var seenB: int := SeenCountAt(aufs, b, round);
      var diff: int := seenA - seenB;
      assert InWindow(stateA, stateB, round) && InWindow(stateB, stateA, round);
      if diff >= delta {
        assert Ahead(stateA, stateB, round, delta);
        pos := pos + 1;
      } else if diff <= -(delta as int) {
        assert Ahead(stateB, stateA, round, delta);
        neg := neg + 1;
      }
      round := round + 1;
    }
    assert forall r :: InWindow(stateA, stateB, r) <==> InWindow(stateB, stateA, r);
    relation := if pos >= 1 && neg == 0 then ABetter else if neg >= 1 && pos == 0 then BBetter else Tie;
  }

  /** A pair never wins both ways. */
  lemma WinsAntisymmetric(aufs: map<Digest, AufState>, delta: nat, a: Digest, b: Digest)
    requires Wins(aufs, delta, a, b)
    ensures !Wins(aufs, delta, b, a)
  {
    var r :| InWindow(aufs[a], aufs[b], r) && Ahead(aufs[a], aufs[b], r, delta);
    assert InWindow(aufs[b], aufs[a], r);
  }

  /** With a margin of `f + 1`, no `f` creators can have made up a win: some creator
      outside them saw the winner but not the loser in one and the same round. */
  lemma WinHasHonestWitness(a: AufState, b: AufState, f: nat, faulty: set<PublicKey>)
      returns (r: Round, creator: PublicKey)
    requires Beats(a, b, f + 1) && |faulty| <= f
    ensures InWindow(a, b, r) && creator !in faulty
    ensures creator in SeenAt(a, r) && creator !in SeenAt(b, r)
  {
    r :| InWindow(a, b, r) && Ahead(a, b, r, f + 1);
    var only := SeenAt(a, r) - SeenAt(b, r);
    SubsetSize(SeenAt(a, r), only + SeenAt(b, r));
    if only <= faulty {
      SubsetSize(only, faulty);
      assert false;
    }
    creator :| creator in only && creator !in faulty;
  }

  /** The margin of `f + 1` asks exactly that the lead outlives the loss of any `f` creators. */
  lemma LeadSurvivesFaults(a: AufState, b: AufState, r: Round, f: nat)
    ensures Ahead(a, b, r, f + 1) <==>
      forall faulty: set<PublicKey> :: |faulty| <= f ==> |SeenAt(a, r) - faulty| > |SeenAt(b, r)|
  {
    var sa := SeenAt(a, r);
    forall faulty: set<PublicKey> | |faulty| <= f
      ensures |sa - faulty| >= |sa| - f
    {
      SubsetSize(sa, (sa - faulty) + faulty);
    }
    var some := SomeOf(sa, if f <= |sa| then f else |sa|);
    assert |sa - some| == |sa| - |some|;
  }

  lemma SomeOf(s: set<PublicKey>, n: nat) returns (some: set<PublicKey>)
    requires n <= |s|
    ensures some <= s && |some| == n
  {
    if n == 0 {
      some := {};
    } else {
      var x :| x in s;
      some := SomeOf(s - {x}, n - 1);
      some := some + {x};
    }
  }

  /** What was seen before the younger of the two could be seen, or after both horizons, has
      no say in the verdict. */
  lemma OtherRoundsIgnored(a: AufState, b: AufState, a': AufState, b': AufState, delta: nat)
    requires a.round == a'.round && a.horizon == a'.horizon && a.mature == a'.mature
    requires b.round == b'.round && b.horizon == b'.horizon && b.mature == b'.mature
    requires forall r: Round :: (a.round < r && b.round < r
        && ((a.horizon.Some? && r <= a.horizon.value) || (b.horizon.Some? && r <= b.horizon.value))) ==>
      SeenAt(a, r) == SeenAt(a', r) && SeenAt(b, r) == SeenAt(b', r)
    ensures Beats(a, b, delta) <==> Beats(a', b', delta)
  {
    hide SeenAt;
    assert forall r :: InWindow(a, b, r) <==> InWindow(a', b', r);
    assert forall r :: InWindow(a, b, r) ==>
      (Ahead(a, b, r, delta) <==> Ahead(a', b', r, delta)) && (Ahead(b, a, r, delta) <==> Ahead(b', a', r, delta));
  }

  /** Each round after both and up to the later horizon counts: a lead in one of them wins
      unless the other leads in some round, and a lead of the other there rules a win out. */
  lemma EachSharedRoundCounts(a: AufState, b: AufState, delta: nat, r: Round)
    requires a.mature && b.mature && a.horizon.Some? && b.horizon.Some? && a.round < r && b.round < r
    requires r <= a.horizon.value || r <= b.horizon.value
    ensures |SeenAt(a, r)| >= |SeenAt(b, r)| + delta && (forall q :: |SeenAt(b, q)| < |SeenAt(a, q)| + delta) ==>
      Beats(a, b, delta)
    ensures |SeenAt(b, r)| >= |SeenAt(a, r)| + delta ==> !Beats(a, b, delta)
  {
    hide SeenAt;
    assert InWindow(a, b, r);
    if Beats(a, b, delta) {
      assert !Ahead(b, a, r, delta);
    }
  }

  // ---------------------------------------------------------------------
  // The graph of a batch
  // ---------------------------------------------------------------------

  ghost function VerdictGraph(aufs: map<Digest, AufState>, delta: nat, members: set<Digest>): Graph {
    map d | d in members :: set e | e in members && e != d && Wins(aufs, delta, d, e)
  }

  /** The pair at positions `p` and `q` was compared before the pair at `i` and `j`. */
  predicate PairDone(p: nat, q: nat, i: nat, j: nat) {
    var lo, hi := if p < q then p else q, if p < q then q else p;
    lo < i || (lo == i && hi < j)
  }

  ghost predicate Filled(aufs: map<Digest, AufState>, delta: nat, nodes: seq<Digest>, graph: Graph, i: nat, j: nat) {
    && graph.Keys == Elements(nodes)
    && (forall x, y :: x in graph && y in graph[x] ==> y in nodes && y != x)
    && (forall p, q :: 0 <= p < |nodes| && 0 <= q < |nodes| && p != q ==>
      (nodes[q] in graph[nodes[p]] <==> PairDone(p, q, i, j) && Wins(aufs, delta, nodes[p], nodes[q])))
  }

  function AddVerdict(graph: Graph, a: Digest, b: Digest, relation: OrderingRelation): Graph
    requires a in graph && b in graph
  {
    match relation
    case ABetter => graph[a := graph[a] + {b}]
    case BBetter => graph[b := graph[b] + {a}]
    case Tie => graph
  }

  lemma FillPair(aufs: map<Digest, AufState>, delta: nat, nodes: seq<Digest>, graph: Graph, i: nat, j: nat,
      relation: OrderingRelation)
    requires Filled(aufs, delta, nodes, graph, i, j) && Distinct(nodes) && i < j < |nodes|
    requires nodes[i] in graph && nodes[j] in graph
    requires relation.ABetter? <==> Wins(aufs, delta, nodes[i], nodes[j])
    requires relation.BBetter? <==> Wins(aufs, delta, nodes[j], nodes[i])
    ensures Filled(aufs, delta, nodes, AddVerdict(graph, nodes[i], nodes[j], relation), i, j + 1)
  {
    hide Wins;
    var a, b := nodes[i], nodes[j];
    var graph' := AddVerdict(graph, a, b, relation);
    assert graph'.Keys == graph.Keys;
    forall p, q | 0 <= p < |nodes| && 0 <= q < |nodes| && p != q
      ensures nodes[q] in graph'[nodes[p]] <==> PairDone(p, q, i, j + 1) && Wins(aufs, delta, nodes[p], nodes[q])
    {
      assert PairDone(p, q, i, j + 1) <==> PairDone(p, q, i, j) || (p == i && q == j) || (p == j && q == i);
      assert nodes[p] == a <==> p == i;
      assert nodes[p] == b <==> p == j;
      assert nodes[q] == a <==> q == i;
      assert nodes[q] == b <==> q == j;
    }
  }

  lemma FilledStart(aufs: map<Digest, AufState>, delta: nat, nodes: seq<Digest>, graph: Graph)
    requires graph == map d | d in Elements(nodes) :: {}
    ensures Filled(aufs, delta, nodes, graph, 0, 1)
  {
    assert forall p, q :: 0 <= p < |nodes| && 0 <= q < |nodes| && p != q ==>
      nodes[p] in Elements(nodes) && !PairDone(p, q, 0, 1);
  }

  lemma FilledRow(aufs: map<Digest, AufState>, delta: nat, nodes: seq<Digest>, graph: Graph, i: nat)
    requires Filled(aufs, delta, nodes, graph, i, |nodes|)
    ensures Filled(aufs, delta, nodes, graph, i + 1, i + 2)
  {
    assert forall p, q :: 0 <= p < |nodes| && 0 <= q < |nodes| && p != q ==>
      (PairDone(p, q, i, |nodes|) <==> PairDone(p, q, i + 1, i + 2));
  }

  lemma FilledEnd(aufs: map<Digest, AufState>, delta: nat, nodes: seq<Digest>, graph: Graph, i: nat)
    requires Filled(aufs, delta, nodes, graph, i, i + 1) && i >= |nodes|
    ensures graph == VerdictGraph(aufs, delta, Elements(nodes))
  {
    hide Wins;
    var full := VerdictGraph(aufs, delta, Elements(nodes));
    forall x | x in graph
      ensures graph[x] == full[x]
    {
      var p :| 0 <= p < |nodes| && nodes[p] == x;
      forall y
        ensures y in graph[x] <==> y in full[x]
      {
        if y in nodes && y != x {
          var q :| 0 <= q < |nodes| && nodes[q] == y;
          assert PairDone(p, q, i, i + 1);
        }
      }
    }
  }

  method BuildGraph(aufs: map<Digest, AufState>, delta: nat, nodes: seq<Digest>) returns (graph: Graph)
    requires MatureHasHorizon(aufs) && delta > 0 && Distinct(nodes)
    ensures graph == VerdictGraph(aufs, delta, Elements(nodes))
  {
    hide Wins, Filled, VerdictGraph;
    graph := map d | d in Elements(nodes) :: {};
    FilledStart(aufs, delta, nodes, graph);
    var i := 0;
    while i < |nodes|
      invariant 0 <= i <= |nodes| && graph.Keys == Elements(nodes)
      invariant Filled(aufs, delta, nodes, graph, i, i + 1)
    {
      var j := i + 1;
      while j < |nodes|
        invariant i < j <= |nodes| && graph.Keys == Elements(nodes)
        invariant Filled(aufs, delta, nodes, graph, i, j)
      {
        assert nodes[i] in graph && nodes[j] in graph;
        var relation := ComparePair(aufs, nodes[i], nodes[j], delta);
        FillPair(aufs, delta, nodes, graph, i, j, relation);
        graph := AddVerdict(graph, nodes[i], nodes[j], relation);
        j := j + 1;
      }
      FilledRow(aufs, delta, nodes, graph, i);
      i := i + 1;
    }
    FilledEnd(aufs, delta, nodes, graph, i);
  }

  // ---------------------------------------------------------------------
  // sort_batch
  // ---------------------------------------------------------------------

  /** The order of a batch: determined by the set of its members, the verdicts among
      them and the tie-break; neither their arrival order nor any iteration order of a
      hash map has a say. */
  ghost function BatchOrder(store: History, aufs: map<Digest, AufState>, delta: nat, members: set<Digest>): seq<Digest>
    requires members <= store.Keys
  {
    Linearize(store, VerdictGraph(aufs, delta, members), members)
  }

  method SortBatch(store: History, aufs: map<Digest, AufState>, delta: nat, members: seq<Digest>)
      returns (result: seq<Digest>)
    requires MatureHasHorizon(aufs) && delta > 0
    requires Distinct(members) && Elements(members) <= store.Keys
    ensures result == BatchOrder(store, aufs, delta, Elements(members))
  {
    if |members| <= 1 {
      SmallBatch(store, aufs, delta, members);
      return members;
    }
    var nodes := Ascending(store, Elements(members));
    AscendingIsSorted(store, Elements(members));
    var graph := BuildGraph(aufs, delta, nodes);
    assert Closed(graph) && graph.Keys == Elements(nodes);
    hide VerdictGraph, Linearize;
    var components := FindScc(store, nodes, graph);
    var componentGraph, indegree := Condense(graph, components);
    result := TopologicalOrder(store, components, componentGraph, indegree, graph);
  }

  lemma SmallBatch(store: History, aufs: map<Digest, AufState>, delta: nat, members: seq<Digest>)
    requires |members| <= 1 && Elements(members) <= store.Keys
    ensures members == BatchOrder(store, aufs, delta, Elements(members))
  {
    hide Linearize, VerdictGraph;
    var s := Elements(members);
    var g := VerdictGraph(aufs, delta, s);
    assert g.Keys == s by {
      GraphKeys(aufs, delta, s);
    }
    LinearizePermutes(store, g, s);
    var order := Linearize(store, g, s);
    DistinctMultiset(order);
    if members == [] {
      assert s == {};
      assert Elements(order) == {};
      assert |order| == 0;
    } else {
      assert s == {members[0]};
      assert |order| == 1;
      assert order[0] in Elements(order);
    }
  }

  lemma GraphKeys(aufs: map<Digest, AufState>, delta: nat, members: set<Digest>)
    ensures VerdictGraph(aufs, delta, members).Keys == members && Closed(VerdictGraph(aufs, delta, members))
  {
    hide Wins;
  }

  /** What the order of a batch is for: it is a permutation of the batch; a verdict
      between different components is respected; components stay together. */
  lemma BatchOrderProperties(store: History, aufs: map<Digest, AufState>, delta: nat, members: set<Digest>)
    requires members <= store.Keys
    ensures var order, g := BatchOrder(store, aufs, delta, members), VerdictGraph(aufs, delta, members);
      && Elements(order) == members && Distinct(order) && Blocks(store, g, order)
      && forall a, b :: a in members && b in members && Wins(aufs, delta, a, b) && a != b && !Reach(g, b, a) ==>
        Before(order, a, b)
  {
    var g := VerdictGraph(aufs, delta, members);
    GraphKeys(aufs, delta, members);
    LinearizePermutes(store, g, members);
    LinearizeBlocks(store, g, members);
    forall a, b | a in members && b in members && Wins(aufs, delta, a, b) && a != b && !Reach(g, b, a)
      ensures Before(BatchOrder(store, aufs, delta, members), a, b)
    {
      ReachEdge(g, a, b);
      LinearizeRespects(store, g, members, a, b);
    }
  }
}
