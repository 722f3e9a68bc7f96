/** Directed graphs over digests and reachability in them. */
module Graphs {
  import opened Basics

  type Graph = map<Digest, set<Digest>>

  /** Every edge ends at a node. */
  ghost predicate Closed(g: Graph) {
    forall x, y :: x in g && y in g[x] ==> y in g
  }

  ghost predicate Edge(g: Graph, x: Digest, y: Digest) {
    x in g && y in g[x]
  }

  ghost predicate IsPath(g: Graph, p: seq<Digest>, x: Digest, y: Digest) {
    && |p| > 0 && p[0] == x && p[|p| - 1] == y
    && forall i :: 0 < i < |p| ==> Edge(g, p[i - 1], p[i])
  }

  ghost predicate Reach(g: Graph, x: Digest, y: Digest) {
    exists p :: IsPath(g, p, x, y)
  }

  /** In the same strongly connected component. */
  ghost predicate Mutual(g: Graph, x: Digest, y: Digest) {
    Reach(g, x, y) && Reach(g, y, x)
  }

  lemma ReachSelf(g: Graph, x: Digest)
    ensures Reach(g, x, x)
  {
    assert IsPath(g, [x], x, x);
  }

  lemma ReachEdge(g: Graph, x: Digest, y: Digest)
    requires Edge(g, x, y)
    ensures Reach(g, x, y)
  {
    assert IsPath(g, [x, y], x, y);
  }

  lemma ReachTransitive(g: Graph, x: Digest, y: Digest, z: Digest)
    requires Reach(g, x, y) && Reach(g, y, z)
    ensures Reach(g, x, z)
  {
    var p :| IsPath(g, p, x, y);
    var q :| IsPath(g, q, y, z);
    var r := p + q[1..];
    assert IsPath(g, r, x, z);
  }

  /** A path that starts in a set and ends outside leaves it over some edge. */
  lemma {:induction false} PathLeaves(g: Graph, p: seq<Digest>, x: Digest, y: Digest, s: set<Digest>)
      returns (a: Digest, b: Digest)
    requires IsPath(g, p, x, y) && x in s && y !in s
    ensures a in s && b !in s && Edge(g, a, b) && Reach(g, x, a) && Reach(g, b, y)
    decreases |p|
  {
    var q := p[1..];
    assert Edge(g, p[0], p[1]);
    assert IsPath(g, q, p[1], y);
    if p[1] in s {
      a, b := PathLeaves(g, q, p[1], y, s);
      ReachEdge(g, x, p[1]);
      ReachTransitive(g, x, p[1], a);
    } else {
      a, b := x, p[1];
      ReachSelf(g, x);
    }
  }

  lemma ReachLeaves(g: Graph, x: Digest, y: Digest, s: set<Digest>) returns (a: Digest, b: Digest)
    requires Reach(g, x, y) && x in s && y !in s
    ensures a in s && b !in s && Edge(g, a, b) && Reach(g, x, a) && Reach(g, b, y)
  {
    var p :| IsPath(g, p, x, y);
    a, b := PathLeaves(g, p, x, y, s);
  }

  /** Reachability stays among the nodes. */
  lemma ReachInside(g: Graph, x: Digest, y: Digest)
    requires Closed(g) && x in g && Reach(g, x, y)
    ensures y in g
  {
    if y !in g {
      var a, b := ReachLeaves(g, x, y, g.Keys);
      assert false;
    }
  }
}
