/** The one order a graph and the tie-break determine: repeatedly take the
    component of the least node that no other remaining component leads to. */
module Linearization {
  import opened Basics
  import opened Dag
  import opened Graphs
  import opened TieBreak

  /** No remaining node outside its component leads to `x`. */
  ghost predicate Ready(g: Graph, rest: set<Digest>, x: Digest) {
    x in rest && forall y :: y in rest && Reach(g, y, x) ==> Reach(g, x, y)
  }

  ghost function ReadySet(g: Graph, rest: set<Digest>): set<Digest> {
    set x | x in rest && Ready(g, rest, x)
  }

  ghost function Mates(g: Graph, rest: set<Digest>, x: Digest): set<Digest> {
    set y | y in rest && Mutual(g, x, y)
  }

  ghost function Ancestors(g: Graph, x: Digest): set<Digest> {
    set y | y in g && Reach(g, y, x)
  }

  /** Climbing to nodes with ever fewer ancestors ends at a ready one. */
  lemma {:induction false} ReadyOver(g: Graph, rest: set<Digest>, x: Digest) returns (r: Digest)
    requires rest <= g.Keys && x in rest
    ensures Ready(g, rest, r) && Reach(g, r, x)
    decreases Ancestors(g, x)
  {
    if Ready(g, rest, x) {
      r := x;
      ReachSelf(g, x);
    } else {
      var y :| y in rest && Reach(g, y, x) && !Reach(g, x, y);
      forall z | z in Ancestors(g, y)
        ensures z in Ancestors(g, x)
      {
        ReachTransitive(g, z, y, x);
      }
      ReachSelf(g, x);
      assert x in Ancestors(g, x) && x !in Ancestors(g, y);
      r := ReadyOver(g, rest, y);
      ReachTransitive(g, r, y, x);
    }
  }

  lemma ReadyExists(g: Graph, rest: set<Digest>)
    requires rest <= g.Keys && rest != {}
    ensures ReadySet(g, rest) != {}
  {
    var x :| x in rest;
    var r := ReadyOver(g, rest, x);
    assert r in ReadySet(g, rest);
  }

  ghost function LeastReady(store: History, g: Graph, rest: set<Digest>): Digest
    requires rest <= g.Keys && rest <= store.Keys && rest != {}
  {
    ReadyExists(g, rest);
    LeastOf(store, ReadySet(g, rest))
  }

  ghost function Linearize(store: History, g: Graph, rest: set<Digest>): seq<Digest>
    requires rest <= g.Keys && rest <= store.Keys
    decreases |rest|
  {
    if rest == {} then [] else
      var m := LeastReady(store, g, rest);
      var mates := Mates(g, rest, m);
      MatesShrink(store, g, rest);
      Ascending(store, mates) + Linearize(store, g, rest - mates)
  }

  lemma MatesShrink(store: History, g: Graph, rest: set<Digest>)
    requires rest <= g.Keys && rest <= store.Keys && rest != {}
    ensures |rest - Mates(g, rest, LeastReady(store, g, rest))| < |rest|
    ensures LeastReady(store, g, rest) in Mates(g, rest, LeastReady(store, g, rest))
    ensures Ready(g, rest, LeastReady(store, g, rest))
  {
    var m := LeastReady(store, g, rest);
    ReadyExists(g, rest);
    ReachSelf(g, m);
    var left := rest - Mates(g, rest, m);
    assert m in rest && m !in left;
    SubsetSize(left, rest - {m});
  }

  // ---------------------------------------------------------------------
  // What the order guarantees
  // ---------------------------------------------------------------------

  ghost predicate Before(s: seq<Digest>, a: Digest, b: Digest) {
    exists i, j :: 0 <= i < j < |s| && s[i] == a && s[j] == b
  }

  lemma HalvesPermute(s: seq<Digest>, t: seq<Digest>, a: set<Digest>, all: set<Digest>)
    requires Distinct(s) && Distinct(t) && Elements(s) == a && Elements(t) == all - a && a <= all
    ensures Distinct(s + t) && Elements(s + t) == all
  {
    ElementsConcat(s, t);
    assert forall i :: 0 <= i < |s| ==> s[i] in a;
    assert forall i :: 0 <= i < |t| ==> t[i] in all - a;
  }

  /** It lists every node exactly once. */
  lemma {:induction false} LinearizePermutes(store: History, g: Graph, rest: set<Digest>)
    requires rest <= g.Keys && rest <= store.Keys
    ensures Elements(Linearize(store, g, rest)) == rest && Distinct(Linearize(store, g, rest))
    decreases |rest|
  {
    hide LeastReady, Ascending, Elements, Distinct, Ready, Reach;
    if rest == {} {
      NothingToList();
    } else {
      var mates := Mates(g, rest, LeastReady(store, g, rest));
      MatesShrink(store, g, rest);
      LinearizePermutes(store, g, rest - mates);
      AscendingIsSorted(store, mates);
      HalvesPermute(Ascending(store, mates), Linearize(store, g, rest - mates), mates, rest);
    }
  }

  lemma NothingToList()
    ensures Elements<Digest>([]) == {} && Distinct<Digest>([])
  {
  }

  lemma BeforeInHalves(s: seq<Digest>, t: seq<Digest>, a: Digest, b: Digest)
    requires Before(s, a, b) || Before(t, a, b) || (a in s && b in t)
    ensures Before(s + t, a, b)
  {
    if Before(s, a, b) {
      var i, j :| 0 <= i < j < |s| && s[i] == a && s[j] == b;
      assert (s + t)[i] == a && (s + t)[j] == b;
    } else if Before(t, a, b) {
      var i, j :| 0 <= i < j < |t| && t[i] == a && t[j] == b;
      assert (s + t)[|s| + i] == a && (s + t)[|s| + j] == b;
    } else {
      var i :| 0 <= i < |s| && s[i] == a;
      var j :| 0 <= j < |t| && t[j] == b;
      assert (s + t)[i] == a && (s + t)[|s| + j] == b;
    }
  }

  /** Whatever leads to a node of another component comes before it. */
  lemma {:induction false} LinearizeRespects(store: History, g: Graph, rest: set<Digest>, a: Digest, b: Digest)
    requires rest <= g.Keys && rest <= store.Keys
    requires a in rest && b in rest && Reach(g, a, b) && !Reach(g, b, a)
    ensures Before(Linearize(store, g, rest), a, b)
    decreases |rest|
  {
    hide Reach, LeastReady;
    var m := LeastReady(store, g, rest);
    var mates := Mates(g, rest, m);
    MatesShrink(store, g, rest);
    var head, tail := Ascending(store, mates), Linearize(store, g, rest - mates);
    AscendingIsSorted(store, mates);
    LinearizePermutes(store, g, rest - mates);
    if b in mates {
      ReachTransitive(g, a, b, m);
      ReachTransitive(g, b, m, a);
      assert false;
    } else if a in mates {
      assert a in Elements(head) && b in Elements(tail);
    } else {
      LinearizeRespects(store, g, rest - mates, a, b);
    }
    BeforeInHalves(head, tail, a, b);
  }

  /** The members of a component stand next to each other, in tie-break order. */
  ghost predicate Blocks(store: History, g: Graph, s: seq<Digest>) {
    && (forall i, j :: 0 <= i < j < |s| && Mutual(g, s[i], s[j]) ==> TieLess(store, s[i], s[j]))
    && (forall i, j, k :: 0 <= i < j < k < |s| && Mutual(g, s[i], s[k]) ==> Mutual(g, s[i], s[j]))
  }

  lemma {:induction false} LinearizeBlocks(store: History, g: Graph, rest: set<Digest>)
    requires rest <= g.Keys && rest <= store.Keys
    ensures Blocks(store, g, Linearize(store, g, rest))
    decreases |rest|
  {
    if rest != {} {
      var m := LeastReady(store, g, rest);
      var mates := Mates(g, rest, m);
      MatesShrink(store, g, rest);
      var head, tail := Ascending(store, mates), Linearize(store, g, rest - mates);
      AscendingIsSorted(store, mates);
      LinearizePermutes(store, g, rest - mates);
      LinearizeBlocks(store, g, rest - mates);
      hide LeastReady, Linearize, Ascending;
      forall x | x in head
        ensures Mutual(g, m, x)
      {
        assert x in Elements(head);
      }
      forall x | x in tail
        ensures !Mutual(g, m, x)
      {
        assert x in Elements(tail);
      }
      BlocksConcat(store, g, m, head, tail);
    }
  }

  lemma BlocksConcat(store: History, g: Graph, m: Digest, head: seq<Digest>, tail: seq<Digest>)
    requires TieSorted(store, head) && Blocks(store, g, tail)
    requires (forall x :: x in head ==> Mutual(g, m, x)) && (forall x :: x in tail ==> !Mutual(g, m, x))
    ensures Blocks(store, g, head + tail)
  {
    hide Reach, TieLess;
    var s := head + tail;
    forall i, j | 0 <= i < |head| && 0 <= j < |s|
      ensures Mutual(g, s[i], s[j]) <==> j < |head|
    {
      assert s[i] in head;
      if j < |head| {
        assert s[j] in head;
        ReachTransitive(g, s[i], m, s[j]);
        ReachTransitive(g, s[j], m, s[i]);
      } else {
        assert s[j] in tail;
        if Mutual(g, s[i], s[j]) {
          ReachTransitive(g, m, s[i], s[j]);
          ReachTransitive(g, s[j], s[i], m);
          assert false;
        }
      }
    }
  }

  // ---------------------------------------------------------------------
  // When one node comes before another
  // ---------------------------------------------------------------------

  /** The tie-break of a component is that of its least member. */
  ghost function Key(store: History, g: Graph, rest: set<Digest>, x: Digest): Digest
    requires rest <= store.Keys && x in rest
  {
    ReachSelf(g, x);
    assert x in Mates(g, rest, x);
    LeastOf(store, Mates(g, rest, x))
  }

  /** Everything that leads to `a` is outside the component of `b`, and its component
      either precedes that of `b` by tie-break or leads to it. */
  ghost predicate Unblocked(store: History, g: Graph, rest: set<Digest>, a: Digest, b: Digest)
    requires rest <= store.Keys && b in rest
  {
    forall c {:trigger Reach(g, c, a)} :: c in rest && Reach(g, c, a) ==>
      !Mutual(g, c, b) && (TieLess(store, Key(store, g, rest, c), Key(store, g, rest, b)) || Reach(g, c, b))
  }

  /** Then `a` comes first. */
  lemma {:induction false} UnblockedComesFirst(store: History, g: Graph, rest: set<Digest>, a: Digest, b: Digest)
    requires rest <= g.Keys && rest <= store.Keys
    requires a in rest && b in rest && Unblocked(store, g, rest, a, b)
    ensures Before(Linearize(store, g, rest), a, b)
    decreases |rest|
  {
    hide Reach, LeastReady, TieLess, Unblocked;
    var m := LeastReady(store, g, rest);
    var mates := Mates(g, rest, m);
    MatesShrink(store, g, rest);
    var head, tail := Ascending(store, mates), Linearize(store, g, rest - mates);
    AscendingIsSorted(store, mates);
    LinearizePermutes(store, g, rest - mates);
    UnblockedApart(store, g, rest, a, b);
    if b in mates {
      LeastIsUnblocked(store, g, rest, a, b);
      assert false;
    } else if a in mates {
      assert a in Elements(head) && b in Elements(tail);
    } else {
      UnblockedRemains(store, g, rest, m, a, b);
      UnblockedComesFirst(store, g, rest - mates, a, b);
    }
    BeforeInHalves(head, tail, a, b);
  }

  lemma UnblockedApart(store: History, g: Graph, rest: set<Digest>, a: Digest, b: Digest)
    requires rest <= store.Keys && a in rest && b in rest && Unblocked(store, g, rest, a, b)
    ensures !Mutual(g, a, b)
  {
    hide TieLess, Key;
    ReachSelf(g, a);
  }

  /** Taking a component away leaves the others as they were. */
  lemma MatesRemain(g: Graph, rest: set<Digest>, m: Digest, x: Digest)
    requires x in rest - Mates(g, rest, m)
    ensures Mates(g, rest - Mates(g, rest, m), x) == Mates(g, rest, x)
  {
    hide Reach;
    forall y | y in rest && Mutual(g, x, y)
      ensures !Mutual(g, m, y)
    {
      if Mutual(g, m, y) {
        ReachTransitive(g, m, y, x);
        ReachTransitive(g, x, y, m);
      }
    }
  }

  lemma UnblockedRemains(store: History, g: Graph, rest: set<Digest>, m: Digest, a: Digest, b: Digest)
    requires rest <= store.Keys && b in rest && b !in Mates(g, rest, m) && Unblocked(store, g, rest, a, b)
    ensures Unblocked(store, g, rest - Mates(g, rest, m), a, b)
  {
    hide Reach, TieLess, Mates;
    var left := rest - Mates(g, rest, m);
    forall c | c in left
      ensures Key(store, g, left, c) == Key(store, g, rest, c)
    {
      MatesRemain(g, rest, m, c);
    }
  }

  /** The component of an unblocked pair's second node is never the next to be taken. */
  lemma LeastIsUnblocked(store: History, g: Graph, rest: set<Digest>, a: Digest, b: Digest)
    requires rest <= g.Keys && rest <= store.Keys
    requires a in rest && b in rest && Unblocked(store, g, rest, a, b)
    ensures !Mutual(g, LeastReady(store, g, rest), b)
  {
    hide Reach, TieLess, LeastReady;
    var m := LeastReady(store, g, rest);
    var c := ReadyOver(g, rest, a);
    if Mutual(g, m, b) {
      MatesShrink(store, g, rest);
      LeastReadyIsOwnKey(store, g, rest, b);
      ReadyKey(store, g, rest, c);
      var k := Key(store, g, rest, c);
      assert k in ReadySet(g, rest);
      LeastReadyIsLeastOf(store, g, rest);
      if Reach(g, c, b) {
        ReachTransitive(g, c, b, m);
        ReachTransitive(g, b, m, c);
        assert false;
      }
      TieLessTotal(store, k, m, k);
      assert false;
    }
  }

  lemma LeastReadyIsLeastOf(store: History, g: Graph, rest: set<Digest>)
    requires rest <= g.Keys && rest <= store.Keys && rest != {}
    ensures forall y :: y in ReadySet(g, rest) ==>
      y == LeastReady(store, g, rest) || TieLess(store, LeastReady(store, g, rest), y)
  {
    ReadyExists(g, rest);
  }

  /** With one member of a component ready, all are, its least one among them. */
  lemma ReadyKey(store: History, g: Graph, rest: set<Digest>, c: Digest)
    requires rest <= store.Keys && Ready(g, rest, c)
    ensures var k := Key(store, g, rest, c); k in rest && Mutual(g, c, k) && Ready(g, rest, k)
  {
    hide Reach, TieLess;
    ReachSelf(g, c);
    var k := Key(store, g, rest, c);
    MateIsReady(g, rest, c, k);
  }

  lemma MateIsReady(g: Graph, rest: set<Digest>, c: Digest, k: Digest)
    requires Ready(g, rest, c) && k in rest && Mutual(g, c, k)
    ensures Ready(g, rest, k)
  {
    hide Reach;
    forall y | y in rest && Reach(g, y, k)
      ensures Reach(g, k, y)
    {
      ReachTransitive(g, y, k, c);
      ReachTransitive(g, k, c, y);
    }
  }

  lemma LeastReadyIsOwnKey(store: History, g: Graph, rest: set<Digest>, b: Digest)
    requires rest <= g.Keys && rest <= store.Keys && b in rest && Mutual(g, LeastReady(store, g, rest), b)
    ensures Key(store, g, rest, b) == LeastReady(store, g, rest)
  {
    hide Reach, TieLess, LeastReady;
    var m := LeastReady(store, g, rest);
    MatesShrink(store, g, rest);
    SameMates(g, rest, m, b);
    var k := Key(store, g, rest, b);
    ReachSelf(g, b);
    MateIsReady(g, rest, m, k);
    LeastReadyIsLeastOf(store, g, rest);
    TieLessTotal(store, k, m, k);
  }

  lemma SameMates(g: Graph, rest: set<Digest>, x: Digest, y: Digest)
    requires Mutual(g, x, y)
    ensures Mates(g, rest, x) == Mates(g, rest, y)
  {
    hide Reach;
    forall z
      ensures Mutual(g, x, z) <==> Mutual(g, y, z)
    {
      if Mutual(g, x, z) {
        ReachTransitive(g, y, x, z);
        ReachTransitive(g, z, x, y);
      }
      if Mutual(g, y, z) {
        ReachTransitive(g, x, y, z);
        ReachTransitive(g, z, y, x);
      }
    }
  }

  // ---------------------------------------------------------------------
  // Acyclic graphs
  // ---------------------------------------------------------------------

  ghost predicate Acyclic(g: Graph, nodes: set<Digest>) {
    forall x, y :: x in nodes && y in nodes && Mutual(g, x, y) ==> x == y
  }

  lemma OwnKey(store: History, g: Graph, rest: set<Digest>, x: Digest)
    requires rest <= store.Keys && x in rest && forall y :: y in rest && Mutual(g, x, y) ==> x == y
    ensures Key(store, g, rest, x) == x
  {
    ReachSelf(g, x);
    assert Mates(g, rest, x) == {x};
  }

  // ---------------------------------------------------------------------
  // Isolated nodes
  // ---------------------------------------------------------------------

  /** No other node leads to `b` or is led to by it. */
  ghost predicate Isolated(g: Graph, rest: set<Digest>, b: Digest) {
    b in rest && forall x :: x in rest && (Reach(g, x, b) || Reach(g, b, x)) ==> x == b
  }

  /** The components of all that leads to `a`, and that of `a` itself, precede `b` by
      tie-break. */
  ghost predicate AllKeysLess(store: History, g: Graph, rest: set<Digest>, a: Digest, b: Digest)
    requires rest <= store.Keys
  {
    forall c {:trigger Reach(g, c, a)} :: c in rest && Reach(g, c, a) ==> TieLess(store, Key(store, g, rest, c), b)
  }

  /** In any graph, an isolated node comes after `a` exactly when it is tie-broken after
      every component that has to come before `a`. */
  lemma IsolatedFollows(store: History, g: Graph, rest: set<Digest>, a: Digest, b: Digest)
    requires rest <= g.Keys && rest <= store.Keys && a in rest && a != b && Isolated(g, rest, b)
    ensures Before(Linearize(store, g, rest), a, b) <==> AllKeysLess(store, g, rest, a, b)
    ensures Before(Linearize(store, g, rest), b, a) <==> !AllKeysLess(store, g, rest, a, b)
  {
    hide Reach, TieLess, Linearize, Before, Distinct, Key;
    var order := Linearize(store, g, rest);
    LinearizePermutes(store, g, rest);
    IsolatedKey(store, g, rest, b);
    if AllKeysLess(store, g, rest, a, b) {
      UnblockedComesFirst(store, g, rest, a, b);
      BeforeAsymmetric(order, a, b);
    } else {
      var c :| c in rest && Reach(g, c, a) && !TieLess(store, Key(store, g, rest, c), b);
      IsolatedPrecedes(store, g, rest, a, b, c);
      BeforeAsymmetric(order, b, a);
    }
  }

  lemma IsolatedKey(store: History, g: Graph, rest: set<Digest>, b: Digest)
    requires rest <= store.Keys && Isolated(g, rest, b)
    ensures Key(store, g, rest, b) == b
    ensures forall c :: c in rest && Mutual(g, c, b) ==> c == b
  {
    hide Reach, TieLess;
    OwnKey(store, g, rest, b);
  }

  /** Once something that leads to `a` has to wait for `b`, so has `a`. */
  lemma IsolatedPrecedes(store: History, g: Graph, rest: set<Digest>, a: Digest, b: Digest, c: Digest)
    requires rest <= g.Keys && rest <= store.Keys && a in rest && a != b && Isolated(g, rest, b)
    requires c in rest && Reach(g, c, a) && !TieLess(store, Key(store, g, rest, c), b)
    ensures Before(Linearize(store, g, rest), b, a)
  {
    hide Reach, TieLess, Linearize, Before, Distinct, Key;
    var k := Key(store, g, rest, c);
    KeyIsMate(store, g, rest, c);
    KeyOfMate(store, g, rest, c, k);
    IsolatedKey(store, g, rest, b);
    assert c != b && k != b;
    TieLessTotal(store, b, k, b);
    if Mutual(g, c, a) {
      KeyOfMate(store, g, rest, c, a);
      UnblockedComesFirst(store, g, rest, b, a);
    } else {
      UnblockedComesFirst(store, g, rest, b, k);
      ReachTransitive(g, k, c, a);
      if Reach(g, a, k) {
        ReachTransitive(g, a, k, c);
        assert false;
      }
      LinearizeRespects(store, g, rest, k, a);
      LinearizePermutes(store, g, rest);
      BeforeTransitive(Linearize(store, g, rest), b, k, a);
    }
  }

  lemma KeyIsMate(store: History, g: Graph, rest: set<Digest>, c: Digest)
    requires rest <= store.Keys && c in rest
    ensures Key(store, g, rest, c) in rest && Mutual(g, c, Key(store, g, rest, c))
  {
    ReachSelf(g, c);
  }

  lemma KeyOfMate(store: History, g: Graph, rest: set<Digest>, c: Digest, k: Digest)
    requires rest <= store.Keys && c in rest && k in rest && Mutual(g, c, k)
    ensures Key(store, g, rest, k) == Key(store, g, rest, c)
  {
    hide Reach;
    SameMates(g, rest, c, k);
  }

  lemma BeforeAsymmetric(s: seq<Digest>, a: Digest, b: Digest)
    requires Distinct(s) && Before(s, a, b)
    ensures !Before(s, b, a)
  {
  }

  lemma BeforeTransitive(s: seq<Digest>, a: Digest, b: Digest, c: Digest)
    requires Distinct(s) && Before(s, a, b) && Before(s, b, c)
    ensures Before(s, a, c)
  {
    var i, j :| 0 <= i < j < |s| && s[i] == a && s[j] == b;
    var k, l :| 0 <= k < l < |s| && s[k] == b && s[l] == c;
    assert j == k;
  }
}
