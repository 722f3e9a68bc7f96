/** What becomes of causality in the final order of a batch. The graph that is sorted
    has an edge per verdict and none per ancestry. */
module Ancestry {
  import opened Basics
  import opened Dag
  import opened Graphs
  import opened TieBreak
  import opened Linearization
  import opened Visibility
  import opened Verdict
  import opened ExecutorRun
  import opened Fairness

  /** The executor's thresholds, and a batch over a complete history. */
  ghost predicate Setting(p: Params, e: Exec, creators: set<PublicKey>, f: nat, base: Round, members: set<Digest>) {
    && p.windowCap >= 1 && p.reach == 2 * f + 1 && p.delta == f + 1
    && Observed(p, e) && Complete(e.store, creators, f, base)
    && members <= e.aufs.Keys && forall d :: d in members ==> e.aufs[d].round >= base
  }

  ghost predicate NotWideBefore(s: AufState, t: Round, f: nat) {
    forall r: Round :: r < t ==> !Wide(s, r, f)
  }

  /** `c` is ahead of `a` in round `t`, and `a` was not widely seen before. */
  ghost predicate FirstAhead(c: AufState, a: AufState, t: Round, f: nat) {
    Ahead(c, a, t, f + 1) && NotWideBefore(a, t, f) && t > Max(c.round, a.round)
  }

  lemma EdgeAhead(p: Params, e: Exec, creators: set<PublicKey>, f: nat, base: Round, members: set<Digest>,
      c: Digest, d: Digest) returns (t: Round)
    requires Setting(p, e, creators, f, base, members) && c in members && d in members && Wins(e.aufs, p.delta, c, d)
    ensures FirstAhead(e.aufs[c], e.aufs[d], t, f)
  {
    hide SeenExactly, Complete, HorizonsOk, Descending, Tracked;
    t :| InWindow(e.aufs[c], e.aufs[d], t) && Ahead(e.aufs[c], e.aufs[d], t, f + 1);
    forall r: Round | r < t
      ensures !Wide(e.aufs[d], r, f)
    {
      if Wide(e.aufs[d], r, f) {
        WideIsFull(e.store, e.aufs, creators, f, base, d, r, c, t);
        assert false;
      }
    }
  }

  /** Along a chain of verdicts the lead over the last member is never lost. */
  lemma {:induction false} ChainAhead(p: Params, e: Exec, creators: set<PublicKey>, f: nat, base: Round,
      members: set<Digest>, path: seq<Digest>, c: Digest, a: Digest) returns (t: Round)
    requires Setting(p, e, creators, f, base, members) && c in members && |path| > 1
    requires IsPath(VerdictGraph(e.aufs, p.delta, members), path, c, a)
    ensures a in members && FirstAhead(e.aufs[c], e.aufs[a], t, f) && e.aufs[c].mature
    decreases |path|
  {
    hide Setting, Complete, Observed, FirstAhead;
    var d := path[1];
    assert Edge(VerdictGraph(e.aufs, p.delta, members), path[0], d);
    assert d in members && Wins(e.aufs, p.delta, c, d);
    var r := EdgeAhead(p, e, creators, f, base, members, c, d);
    if |path| == 2 {
      t := r;
      InSetting(p, e, creators, f, base, members);
    } else {
      var rest := path[1..];
      assert IsPath(VerdictGraph(e.aufs, p.delta, members), rest, d, a);
      var t1 := ChainAhead(p, e, creators, f, base, members, rest, d, a);
      t := t1;
      LeadCarries(p, e, creators, f, base, members, c, d, a, r, t1);
    }
  }

  lemma InSetting(p: Params, e: Exec, creators: set<PublicKey>, f: nat, base: Round, members: set<Digest>)
    requires Setting(p, e, creators, f, base, members)
    ensures p.delta == f + 1 && members <= e.aufs.Keys
  {
  }

  lemma LeadCarries(p: Params, e: Exec, creators: set<PublicKey>, f: nat, base: Round, members: set<Digest>,
      c: Digest, d: Digest, a: Digest, r: Round, t: Round)
    requires Setting(p, e, creators, f, base, members) && c in members && d in members && a in members
    requires FirstAhead(e.aufs[c], e.aufs[d], r, f) && FirstAhead(e.aufs[d], e.aufs[a], t, f)
    ensures FirstAhead(e.aufs[c], e.aufs[a], t, f)
  {
    hide SeenExactly, Complete, HorizonsOk, Descending, Tracked;
    assert Wide(e.aufs[d], t, f) && Wide(e.aufs[c], r, f);
    assert r <= t;
    if r < t {
      WideIsFull(e.store, e.aufs, creators, f, base, c, r, d, t);
    }
  }

  lemma ReachAhead(p: Params, e: Exec, creators: set<PublicKey>, f: nat, base: Round, members: set<Digest>,
      c: Digest, a: Digest) returns (t: Round)
    requires Setting(p, e, creators, f, base, members) && c in members && c != a
    requires Reach(VerdictGraph(e.aufs, p.delta, members), c, a)
    ensures a in members && FirstAhead(e.aufs[c], e.aufs[a], t, f) && e.aufs[c].mature
  {
    hide Setting, FirstAhead;
    var path :| IsPath(VerdictGraph(e.aufs, p.delta, members), path, c, a);
    t := ChainAhead(p, e, creators, f, base, members, path, c, a);
  }

  /** Over a complete history verdicts never form a cycle: every component of the
      condensation is a single certificate. */
  lemma VerdictsAcyclic(p: Params, e: Exec, creators: set<PublicKey>, f: nat, base: Round, members: set<Digest>)
    requires Setting(p, e, creators, f, base, members)
    ensures Acyclic(VerdictGraph(e.aufs, p.delta, members), members)
  {
    hide Setting, Reach, FirstAhead;
    InSetting(p, e, creators, f, base, members);
    var g := VerdictGraph(e.aufs, p.delta, members);
    forall x, y | x in members && y in members && Mutual(g, x, y)
      ensures x == y
    {
      if x != y {
        var t1 := ReachAhead(p, e, creators, f, base, members, x, y);
        var t2 := ReachAhead(p, e, creators, f, base, members, y, x);
        LeadsOneWay(e.aufs[x], e.aufs[y], t1, t2, f);
        assert false;
      }
    }
  }

  lemma LeadsOneWay(x: AufState, y: AufState, t: Round, u: Round, f: nat)
    requires FirstAhead(x, y, t, f)
    ensures !FirstAhead(y, x, u, f)
  {
    assert Wide(x, t, f);
    if FirstAhead(y, x, u, f) {
      assert Wide(y, u, f);
    }
  }

  // ---------------------------------------------------------------------
  // Ancestors and descendants
  // ---------------------------------------------------------------------

  /** With no fault allowed for, a certificate is wide in its own round and none is ever
      ahead of another. */
  lemma NoLeadWithoutFaults(p: Params, e: Exec, creators: set<PublicKey>, base: Round, members: set<Digest>,
      c: Digest, a: Digest, t: Round)
    requires Setting(p, e, creators, 0, base, members) && c in members && a in members
    ensures !FirstAhead(e.aufs[c], e.aufs[a], t, 0)
  {
    hide Complete, HorizonsOk, Descending;
    var own := e.store[a].origin;
    assert Sees(e.store, a, a);
    assert SomeoneSaw(e.store, own, e.aufs[a].round, a);
    assert own in SeenAt(e.aufs[a], e.aufs[a].round);
    SubsetSize({own}, SeenAt(e.aufs[a], e.aufs[a].round));
    assert Wide(e.aufs[a], e.aufs[a].round, 0);
  }

  /** In its own round a certificate is seen by its author alone. */
  lemma HorizonAfterOwnRound(p: Params, e: Exec, creators: set<PublicKey>, f: nat, base: Round,
      members: set<Digest>, c: Digest)
    requires Setting(p, e, creators, f, base, members) && c in members && e.aufs[c].mature && f >= 1
    ensures e.aufs[c].horizon.Some? && e.aufs[c].horizon.value > e.aufs[c].round
    ensures |SeenAt(e.aufs[c], e.aufs[c].horizon.value)| >= 2 * f + 1
  {
    hide Complete, Descending;
    assert HorizonOk(p, e.frontier, e.aufs[c]);
    var h := e.aufs[c].horizon.value;
    if h <= e.aufs[c].round {
      forall creator | creator in SeenAt(e.aufs[c], h)
        ensures creator == e.store[c].origin
      {
        assert SomeoneSaw(e.store, creator, h, c);
        var x :| x in e.store && e.store[x].round == h && e.store[x].origin == creator && Sees(e.store, x, c);
        SeesRound(e.store, x, c);
      }
      SubsetSize(SeenAt(e.aufs[c], h), {e.store[c].origin});
      assert false;
    }
  }

  /** `b` is never seen by more creators than `a`. */
  ghost predicate Narrower(b: AufState, a: AufState) {
    forall r: Round {:trigger SeenAt(b, r)} {:trigger SeenAt(a, r)} :: |SeenAt(b, r)| <= |SeenAt(a, r)|
  }

  ghost predicate NeverAhead(b: AufState, c: AufState, delta: nat) {
    forall r: Round :: !Ahead(b, c, r, delta)
  }

  lemma LeadOverNarrower(a: AufState, b: AufState, c: AufState, t: Round, f: nat)
    requires Narrower(b, a) && FirstAhead(c, a, t, f) && c.round >= b.round
    ensures FirstAhead(c, b, t, f)
  {
    forall r: Round | r < t
      ensures !Wide(b, r, f)
    {
      assert !Wide(a, r, f);
    }
    assert |SeenAt(b, t)| <= |SeenAt(a, t)|;
  }

  lemma NoCatchingUp(b: AufState, c: AufState, t: Round, f: nat, r: Round)
    requires FirstAhead(c, b, t, f) && (r > t ==> |SeenAt(b, r)| <= |SeenAt(c, r)|)
    ensures !Ahead(b, c, r, f + 1)
  {
    if r < t {
      assert !Wide(b, r, f);
    }
  }

  /** The lead of `c` over an ancestor of `b` is also a lead over `b`, which `b` never
      makes up for. */
  lemma LeadOverDescendant(p: Params, e: Exec, creators: set<PublicKey>, f: nat, base: Round,
      members: set<Digest>, a: Digest, b: Digest, c: Digest, t: Round)
    requires Setting(p, e, creators, f, base, members) && a in members && b in members && c in members
    requires Sees(e.store, b, a) && FirstAhead(e.aufs[c], e.aufs[a], t, f) && e.aufs[c].round >= e.aufs[b].round
    ensures FirstAhead(e.aufs[c], e.aufs[b], t, f) && NeverAhead(e.aufs[b], e.aufs[c], p.delta)
  {
    hide SeenExactly, Complete, HorizonsOk, Descending, Tracked;
    assert Narrower(e.aufs[b], e.aufs[a]) by {
      forall r: Round
        ensures |SeenAt(e.aufs[b], r)| <= |SeenAt(e.aufs[a], r)|
      {
        SeersInherit(e.store, e.aufs, a, b, r);
      }
    }
    LeadOverNarrower(e.aufs[a], e.aufs[b], e.aufs[c], t, f);
    assert Wide(e.aufs[c], t, f);
    assert NeverAhead(e.aufs[b], e.aufs[c], p.delta) by {
      hide Ahead, FirstAhead;
      forall r: Round
        ensures !Ahead(e.aufs[b], e.aufs[c], r, p.delta)
      {
        if r > t {
          WideIsFull(e.store, e.aufs, creators, f, base, c, t, b, r);
        }
        NoCatchingUp(e.aufs[b], e.aufs[c], t, f, r);
      }
    }
  }

  /** Whoever leads to an ancestor of a mature `b`, and is not older than `b`, beats `b`. */
  lemma LeaderWins(p: Params, e: Exec, creators: set<PublicKey>, f: nat, base: Round, members: set<Digest>,
      a: Digest, b: Digest, c: Digest)
    requires Setting(p, e, creators, f, base, members) && a in members && b in members && c in members && c != a
    requires Sees(e.store, b, a) && e.aufs[b].mature && e.aufs[c].round >= e.aufs[b].round
    requires Reach(VerdictGraph(e.aufs, p.delta, members), c, a)
    ensures Wins(e.aufs, p.delta, c, b)
  {
    hide Setting, Reach, VerdictGraph;
    InSetting(p, e, creators, f, base, members);
    var t := ReachAhead(p, e, creators, f, base, members, c, a);
    if f == 0 {
      NoLeadWithoutFaults(p, e, creators, base, members, c, a, t);
      assert false;
    }
    LeadOverDescendant(p, e, creators, f, base, members, a, b, c, t);
    HorizonAfterOwnRound(p, e, creators, f, base, members, c);
    HorizonAfterOwnRound(p, e, creators, f, base, members, b);
    var h := e.aufs[c].horizon.value;
    var r := if t <= Max(h, e.aufs[b].horizon.value) then t else h;
    assert InWindow(e.aufs[c], e.aufs[b], r);
    assert Ahead(e.aufs[c], e.aufs[b], r, p.delta) by {
      assert r == t || !Wide(e.aufs[b], r, f);
    }
  }

  /** Over a complete history a mature certificate is never executed before an ancestor
      of the same batch. */
  lemma MatureFollowsAncestors(p: Params, e: Exec, creators: set<PublicKey>, f: nat, base: Round,
      members: set<Digest>, a: Digest, b: Digest)
    requires Setting(p, e, creators, f, base, members) && members <= e.store.Keys
    requires a in members && b in members && a != b && Sees(e.store, b, a) && e.aufs[b].mature
    ensures Before(BatchOrder(e.store, e.aufs, p.delta, members), a, b)
  {
    hide Setting, Reach, VerdictGraph, Linearize, Wins;
    var g := VerdictGraph(e.aufs, p.delta, members);
    GraphKeys(e.aufs, p.delta, members);
    InSetting(p, e, creators, f, base, members);
    VerdictsAcyclic(p, e, creators, f, base, members);
    SeesRound(e.store, b, a);
    forall c | c in members && Reach(g, c, a)
      ensures c != b && !Mutual(g, c, b) && (TieLess(e.store, c, b) || Reach(g, c, b))
    {
      if c == b {
        DescendantNeverLeads(p, e, creators, f, base, members, a, b);
        assert false;
      } else if c != a && e.store[c].round >= e.store[b].round {
        RoundsKnown(p, e, creators, f, base, members, b, c);
        LeaderWins(p, e, creators, f, base, members, a, b, c);
        WinsReach(e.aufs, p.delta, members, c, b);
      }
    }
    KeysAreNodes(e.store, g, members);
    UnblockedComesFirst(e.store, g, members, a, b);
  }

  lemma KeysAreNodes(store: History, g: Graph, members: set<Digest>)
    requires members <= store.Keys && Acyclic(g, members)
    ensures forall x :: x in members ==> Key(store, g, members, x) == x
  {
    hide Reach, Key;
    forall x | x in members
      ensures Key(store, g, members, x) == x
    {
      OwnKey(store, g, members, x);
    }
  }

  lemma RoundsKnown(p: Params, e: Exec, creators: set<PublicKey>, f: nat, base: Round, members: set<Digest>,
      b: Digest, c: Digest)
    requires Setting(p, e, creators, f, base, members) && b in members && c in members
    ensures b in e.store && c in e.store && e.aufs[b].round == e.store[b].round && e.aufs[c].round == e.store[c].round
  {
    hide SeenExactly, Complete, HorizonsOk, Descending;
  }

  lemma WinsReach(aufs: map<Digest, AufState>, delta: nat, members: set<Digest>, c: Digest, b: Digest)
    requires c in members && b in members && c != b && Wins(aufs, delta, c, b)
    ensures Reach(VerdictGraph(aufs, delta, members), c, b)
  {
    hide Wins;
    ReachEdge(VerdictGraph(aufs, delta, members), c, b);
  }

  /** Not even through a chain of verdicts does a certificate lead to its ancestor. */
  lemma DescendantNeverLeads(p: Params, e: Exec, creators: set<PublicKey>, f: nat, base: Round,
      members: set<Digest>, a: Digest, b: Digest)
    requires Setting(p, e, creators, f, base, members)
    requires a in members && b in members && a != b && Sees(e.store, b, a)
    ensures !Reach(VerdictGraph(e.aufs, p.delta, members), b, a)
  {
    hide Reach, VerdictGraph, Complete, HorizonsOk, Descending, Tracked, SeenExactly;
    if Reach(VerdictGraph(e.aufs, p.delta, members), b, a) {
      var t := ReachAhead(p, e, creators, f, base, members, b, a);
      SeersInherit(e.store, e.aufs, a, b, t);
      assert false;
    }
  }

  // ---------------------------------------------------------------------
  // Immature certificates
  // ---------------------------------------------------------------------

  lemma ImmatureIsIsolated(aufs: map<Digest, AufState>, delta: nat, members: set<Digest>, b: Digest, c: Digest)
    requires b in members && members <= aufs.Keys && !aufs[b].mature && c != b
    ensures !Reach(VerdictGraph(aufs, delta, members), b, c) && !Reach(VerdictGraph(aufs, delta, members), c, b)
  {
    var g := VerdictGraph(aufs, delta, members);
    if Reach(g, b, c) {
      var path :| IsPath(g, path, b, c);
      PathHasEnds(g, path, b, c);
      assert false;
    }
    if Reach(g, c, b) {
      var path :| IsPath(g, path, c, b);
      PathHasEnds(g, path, c, b);
      assert false;
    }
  }

  lemma PathHasEnds(g: Graph, path: seq<Digest>, x: Digest, y: Digest)
    requires IsPath(g, path, x, y) && x != y
    ensures (exists z :: Edge(g, x, z)) && (exists z :: Edge(g, z, y))
  {
    assert Edge(g, path[0], path[1]) && Edge(g, path[|path| - 2], path[|path| - 1]);
  }

  lemma ImmatureIsolated(aufs: map<Digest, AufState>, delta: nat, members: set<Digest>, b: Digest)
    requires b in members && members <= aufs.Keys && !aufs[b].mature
    ensures Isolated(VerdictGraph(aufs, delta, members), members, b)
  {
    hide Reach, VerdictGraph;
    forall c | c in members && c != b
      ensures !Reach(VerdictGraph(aufs, delta, members), b, c) && !Reach(VerdictGraph(aufs, delta, members), c, b)
    {
      ImmatureIsIsolated(aufs, delta, members, b, c);
    }
  }

  /** In every batch, a certificate that is not mature follows another exactly when it is
      tie-broken after every component that has to come before the other. */
  lemma ImmatureFollows(store: History, aufs: map<Digest, AufState>, delta: nat, members: set<Digest>,
      a: Digest, b: Digest)
    requires members <= store.Keys && members <= aufs.Keys
    requires a in members && b in members && a != b && !aufs[b].mature
    ensures Before(BatchOrder(store, aufs, delta, members), a, b) <==>
      AllKeysLess(store, VerdictGraph(aufs, delta, members), members, a, b)
    ensures Before(BatchOrder(store, aufs, delta, members), b, a) <==>
      !AllKeysLess(store, VerdictGraph(aufs, delta, members), members, a, b)
  {
    hide Reach, VerdictGraph, Linearize, TieLess, Before, AllKeysLess;
    GraphKeys(aufs, delta, members);
    ImmatureIsolated(aufs, delta, members, b);
    IsolatedFollows(store, VerdictGraph(aufs, delta, members), members, a, b);
  }

  /** Two certificates that are not mature are output by round, then by author, then by
      digest. */
  lemma ImmaturesByPlace(store: History, aufs: map<Digest, AufState>, delta: nat, members: set<Digest>,
      a: Digest, b: Digest)
    requires members <= store.Keys && members <= aufs.Keys
    requires a in members && b in members && a != b && !aufs[a].mature && !aufs[b].mature
    ensures Before(BatchOrder(store, aufs, delta, members), a, b) <==>
      store[a].round < store[b].round
      || (store[a].round == store[b].round
          && (store[a].origin < store[b].origin || (store[a].origin == store[b].origin && a < b)))
  {
    hide Reach, VerdictGraph, Linearize, Before;
    var g := VerdictGraph(aufs, delta, members);
    ImmatureFollows(store, aufs, delta, members, a, b);
    ImmatureIsolated(aufs, delta, members, a);
    IsolatedKey(store, g, members, a);
    ReachSelf(g, a);
  }

  /** Exactly when the final order of a batch extends ancestry. A descendant `b` that is not
      mature follows its ancestor `a` if and only if it is tie-broken after every component
      that has to come before `a`; an ancestor that is not mature precedes a mature
      descendant unless it is tie-broken after every component that has to come before the
      descendant. Only if both are mature the history has to be complete. */
  lemma AncestryKept(p: Params, e: Exec, creators: set<PublicKey>, f: nat, base: Round, members: set<Digest>,
      a: Digest, b: Digest)
    requires members <= e.store.Keys && members <= e.aufs.Keys
    requires a in members && b in members && a != b && Sees(e.store, b, a)
    requires e.aufs[a].mature && e.aufs[b].mature ==> Setting(p, e, creators, f, base, members)
    ensures var g := VerdictGraph(e.aufs, p.delta, members);
      Before(BatchOrder(e.store, e.aufs, p.delta, members), a, b) <==>
        if !e.aufs[b].mature then AllKeysLess(e.store, g, members, a, b)
        else e.aufs[a].mature || !AllKeysLess(e.store, g, members, b, a)
  {
    hide Reach, VerdictGraph, Linearize, AllKeysLess, Setting;
    if !e.aufs[b].mature {
      ImmatureFollows(e.store, e.aufs, p.delta, members, a, b);
    } else if !e.aufs[a].mature {
      ImmatureFollows(e.store, e.aufs, p.delta, members, b, a);
    } else {
      MatureFollowsAncestors(p, e, creators, f, base, members, a, b);
    }
  }

  /** Over a complete history `b` follows its ancestor `a` if and only if it is mature, or
      tie-broken after every component that has to come before `a`. */
  lemma AncestryOverCompleteHistory(p: Params, e: Exec, creators: set<PublicKey>, f: nat, base: Round,
      members: set<Digest>, a: Digest, b: Digest)
    requires members <= e.store.Keys && Setting(p, e, creators, f, base, members)
    requires a in members && b in members && a != b && Sees(e.store, b, a)
    ensures Before(BatchOrder(e.store, e.aufs, p.delta, members), a, b) <==>
      e.aufs[b].mature || AllKeysLess(e.store, VerdictGraph(e.aufs, p.delta, members), members, a, b)
  {
    hide Reach, VerdictGraph, Linearize, AllKeysLess, Setting;
    InSetting(p, e, creators, f, base, members);
    if e.aufs[b].mature {
      MatureFollowsAncestors(p, e, creators, f, base, members, a, b);
    } else {
      ImmatureFollows(e.store, e.aufs, p.delta, members, a, b);
    }
  }
}
