/** The backward walks of the commit rule, over pruned memory, and what they find
    in the full history. */
module CommitRule {
  import opened Basics
  import opened Config
  import opened Dag
  import opened TuskState
  import opened Ledger

  ghost predicate ViewOf(h: History, c: Committee, delivered: set<Digest>, v: View) {
    WellFormed(h, c) && Closed(h, delivered) && Faithful(h, delivered, v) && FrontierKept(h, delivered, v)
  }

  /** The certificate of the round's leader, if it is in memory. */
  function LeaderIn(v: View, leaderOf: Schedule, r: Round): Option<Certificate> {
    if Has(v.dag, r, leaderOf(r)) then Some(v.dag[r][leaderOf(r)]) else None
  }

  // ---------------------------------------------------------------------
  // linked
  // ---------------------------------------------------------------------

  /** `layer` is exactly the set of ancestors of `leader` at round `r`. */
  ghost predicate AncestorLayer(h: History, leader: Certificate, r: Round, layer: set<Certificate>) {
    forall x :: x in layer <==> x.round == r && Reaches(h, leader, x)
  }

  lemma {:induction false} ReachedIsDelivered(h: History, c: Committee, delivered: set<Digest>, a: Certificate,
      b: Certificate)
    requires WellFormed(h, c) && Closed(h, delivered) && Known(h, a) && a.digest in delivered && Reaches(h, a, b)
    ensures Known(h, b) && b.digest in delivered
    decreases a.round
  {
    if a != b {
      var p :| p in a.parents && p in h && h[p].round + 1 == a.round && Reaches(h, h[p], b);
      ReachedIsDelivered(h, c, delivered, h[p], b);
    }
  }

  lemma HasParent(h: History, c: Committee, x: Certificate) returns (p: Digest)
    requires WellFormed(h, c) && Known(h, x) && x.round > 0
    ensures p in x.parents && p in h && h[p].round + 1 == x.round && h[p].digest == p
  {
    assert WellParented(h, c, h[x.digest]);
    assert ParentOrigins(h, x) != {};
    var name :| name in ParentOrigins(h, x);
    p :| p in x.parents && p in h && h[p].origin == name;
  }

  /** Above the last committed round every layer below a delivered certificate
      is still in memory, so looking it up cannot fail. */
  lemma LayerPresent(h: History, c: Committee, delivered: set<Digest>, v: View, x: Certificate)
    requires ViewOf(h, c, delivered, v) && Known(h, x) && x.digest in delivered
    requires x.round > v.lastCommittedRound + 1
    ensures x.round - 1 in v.dag
  {
    var p := HasParent(h, c, x);
    assert p in h[x.digest].parents;
    assert Holds(v.dag, h[p]);
  }

  lemma NextLayer(h: History, c: Committee, delivered: set<Digest>, v: View, leader: Certificate, r: Round,
      layer: set<Certificate>, next: set<Certificate>)
    requires ViewOf(h, c, delivered, v) && Known(h, leader) && leader.digest in delivered
    requires leader.round > r > v.lastCommittedRound && r in v.dag
    requires AncestorLayer(h, leader, r + 1, layer)
    requires forall x :: x in next <==> x in v.dag[r].Values && exists y :: y in layer && x.digest in y.parents
    ensures AncestorLayer(h, leader, r, next)
  {
    hide WellFormed, Closed;
    assert WellFormed(h, c) ==> forall d :: d in h ==> h[d].digest == d by {
      DigestsName(h, c);
    }
    forall x
      ensures x in next <==> x.round == r && Reaches(h, leader, x)
    {
      if x in next {
        var y :| y in layer && x.digest in y.parents;
        var name :| name in v.dag[r] && v.dag[r][name] == x;
        assert Has(v.dag, r, name);
        LinkExtends(h, leader, y, x);
      }
      if x.round == r && Reaches(h, leader, x) {
        var y := LastLink(h, leader, x);
        ReachedIsDelivered(h, c, delivered, leader, x);
        assert Holds(v.dag, x);
        assert y in layer;
      }
    }
  }

  method Linked(leader: Certificate, previous: Certificate, v: View, ghost h: History, ghost c: Committee,
      ghost delivered: set<Digest>)
    returns (linked: bool)
    requires ViewOf(h, c, delivered, v)
    requires Known(h, leader) && leader.digest in delivered
    requires v.lastCommittedRound < previous.round < leader.round
    ensures linked == Reaches(h, leader, previous)
  {
    hide WellFormed, Closed, Faithful, FrontierKept, Reaches;
    var parents := {leader};
    assert AncestorLayer(h, leader, leader.round, parents) by {
      SelfLayer(h, leader);
    }
    var r := leader.round;
    while r > previous.round
      invariant previous.round <= r <= leader.round
      invariant AncestorLayer(h, leader, r, parents) && parents != {}
    {
      ghost var y :| y in parents;
      ReachedIsDelivered(h, c, delivered, leader, y);
      LayerPresent(h, c, delivered, v, y);
      r := r - 1;
      ghost var above := parents;
      parents := set x | x in v.dag[r].Values && exists y :: y in parents && x.digest in y.parents;
      NextLayer(h, c, delivered, v, leader, r, above, parents);
      LayerContinues(h, c, leader, y, r, parents);
    }
    linked := previous in parents;
  }

  lemma SelfLayer(h: History, leader: Certificate)
    ensures AncestorLayer(h, leader, leader.round, {leader})
  {
    forall x | Reaches(h, leader, x)
      ensures x.round == leader.round ==> x == leader
    {
      ReachesRound(h, leader, x);
    }
  }

  lemma LayerContinues(h: History, c: Committee, leader: Certificate, y: Certificate, r: Round, next: set<Certificate>)
    requires WellFormed(h, c) && Known(h, y) && Reaches(h, leader, y) && y.round == r + 1
    requires AncestorLayer(h, leader, r, next)
    ensures next != {}
  {
    var p := HasParent(h, c, y);
    LinkExtends(h, leader, y, h[p]);
    assert h[p] in next;
  }

  // ---------------------------------------------------------------------
  // order_leaders
  // ---------------------------------------------------------------------

  /** Newest first, as the source builds it. */
  method OrderLeaders(leader: Certificate, v: View, leaderOf: Schedule, ghost h: History, ghost c: Committee,
      ghost delivered: set<Digest>)
    returns (toCommit: seq<Certificate>)
    requires ViewOf(h, c, delivered, v)
    requires Known(h, leader) && leader.digest in delivered
    requires leader.round >= 2 && leader.round > v.lastCommittedRound
    requires leader.round % 2 == 0 && v.lastCommittedRound % 2 == 0
    ensures Reverse(toCommit) == Walk(h, leaderOf, leader, leader.round - 2, v.lastCommittedRound + 2) + [leader]
  {
    hide WellFormed, Closed, Faithful, FrontierKept, Reaches;
    ghost var low := v.lastCommittedRound + 2;
    toCommit := [leader];
    var current := leader;
    var r := leader.round - 2;
    assert Reverse([leader]) == [leader];
    while r >= v.lastCommittedRound + 2
      invariant 0 <= r && r % 2 == 0 && current.round >= r + 2
      invariant Known(h, current) && current.digest in delivered
      invariant Walk(h, leaderOf, current, r, low) + Reverse(toCommit) ==
        Walk(h, leaderOf, leader, leader.round - 2, low) + [leader]
    {
      var previous := LeaderIn(v, leaderOf, r);
      LeaderFound(h, c, delivered, v, leaderOf, r, current);
      if previous.Some? {
        var linked := Linked(current, previous.value, v, h, c, delivered);
        if linked {
          WalkPicks(h, c, leaderOf, current, r, low, previous.value);
          ReverseSnoc(toCommit, previous.value);
          assert Walk(h, leaderOf, previous.value, r - 2, low) + ([previous.value] + Reverse(toCommit))
              == Walk(h, leaderOf, current, r, low) + Reverse(toCommit);
          toCommit := toCommit + [previous.value];
          current := previous.value;
        } else {
          WalkSkips(h, c, leaderOf, current, r, low);
        }
      } else {
        WalkSkips(h, c, leaderOf, current, r, low);
      }
      r := r - 2;
    }
  }

  lemma ReverseSnoc<T>(s: seq<T>, x: T)
    ensures Reverse(s + [x]) == [x] + Reverse(s)
  {
  }

  /** Looking the leader up in memory decides whether the walk picks it. */
  lemma LeaderFound(h: History, c: Committee, delivered: set<Digest>, v: View, leaderOf: Schedule, r: Round,
      current: Certificate)
    requires ViewOf(h, c, delivered, v) && Known(h, current) && current.digest in delivered
    requires v.lastCommittedRound < r < current.round
    ensures LeaderIn(v, leaderOf, r).Some? ==>
      IsLeaderAt(h, leaderOf, r, LeaderIn(v, leaderOf, r).value) && LeaderIn(v, leaderOf, r).value.digest in delivered
    ensures forall x :: IsLeaderAt(h, leaderOf, r, x) && Reaches(h, current, x) ==> LeaderIn(v, leaderOf, r) == Some(x)
  {
    forall x | IsLeaderAt(h, leaderOf, r, x) && Reaches(h, current, x)
      ensures LeaderIn(v, leaderOf, r) == Some(x)
    {
      ReachedIsDelivered(h, c, delivered, current, x);
      assert Holds(v.dag, h[x.digest]);
    }
  }

  lemma WalkSkips(h: History, c: Committee, leaderOf: Schedule, cur: Certificate, r: Round, low: nat)
    requires r >= 2 && r >= low
    requires forall x :: IsLeaderAt(h, leaderOf, r, x) ==> !Reaches(h, cur, x)
    ensures Walk(h, leaderOf, cur, r, low) == Walk(h, leaderOf, cur, r - 2, low)
  {
  }

  /** `xs` are leaders of even rounds in `[low, high]`, oldest first, each linked
      from the next. */
  ghost predicate LeaderChain(h: History, leaderOf: Schedule, xs: seq<Certificate>, low: nat, high: int) {
    && (forall i :: 0 <= i < |xs| ==>
      IsLeaderAt(h, leaderOf, xs[i].round, xs[i]) && xs[i].round % 2 == 0 && low <= xs[i].round <= high)
    && (forall i :: 0 < i < |xs| ==> xs[i - 1].round < xs[i].round && Reaches(h, xs[i], xs[i - 1]))
  }

  /** The walk and its start form a chain, all of it delivered. */
  lemma {:induction false} WalkIsChain(h: History, leaderOf: Schedule, cur: Certificate, r: Round, low: nat)
    requires IsLeaderAt(h, leaderOf, cur.round, cur) && cur.round >= r + 2 && r % 2 == 0 && cur.round % 2 == 0
    requires cur.round >= low
    ensures LeaderChain(h, leaderOf, Walk(h, leaderOf, cur, r, low) + [cur], low, cur.round)
    ensures forall x :: x in Walk(h, leaderOf, cur, r, low) ==> Reaches(h, cur, x)
    decreases r
  {
    hide Reaches;
    if r < 2 || r < low {
    } else if exists x :: IsLeaderAt(h, leaderOf, r, x) && Reaches(h, cur, x) {
      var x :| IsLeaderAt(h, leaderOf, r, x) && Reaches(h, cur, x)
        && Walk(h, leaderOf, cur, r, low) == Walk(h, leaderOf, x, r - 2, low) + [x];
      WalkIsChain(h, leaderOf, x, r - 2, low);
      forall y | y in Walk(h, leaderOf, x, r - 2, low)
        ensures Reaches(h, cur, y)
      {
        ReachesTransitive(h, cur, x, y);
      }
    } else {
      WalkIsChain(h, leaderOf, cur, r - 2, low);
    }
  }
}
