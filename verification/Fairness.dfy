/** What the verdicts are worth over an exact record of visibility, and what becomes of
    ancestry in the final order. */
module Fairness {
  import opened Basics
  import opened Dag
  import opened Visibility
  import opened Verdict
  import opened ExecutorRun
  import opened Conservation

  // ---------------------------------------------------------------------
  // Horizons are frozen
  // ---------------------------------------------------------------------

  ghost predicate KeepsHorizons(aufs: map<Digest, AufState>, aufs': map<Digest, AufState>) {
    forall d :: d in aufs && d in aufs' && aufs[d].horizon.Some? ==>
      aufs'[d].horizon == aufs[d].horizon && aufs'[d].mature == aufs[d].mature
  }

  lemma AddKeepsFrozen(p: Params, e: Exec, x: Certificate)
    requires Proper(p) && Observed(p, e)
    ensures KeepsHorizons(e.aufs, AddCertificate(p, e, x).aufs)
    ensures e.aufs.Keys <= AddCertificate(p, e, x).aufs.Keys
  {
    hide Sees, SeenExactly, Descending, Tracked, HorizonOk;
    forall d | d in e.aufs && e.aufs[d].horizon.Some?
      ensures RecordSeen(e.aufs[d], x.round, x.origin, p.reach).horizon == e.aufs[d].horizon
      ensures RecordSeen(e.aufs[d], x.round, x.origin, p.reach).mature == e.aufs[d].mature
    {
    }
  }

  lemma {:induction false} AddAllKeepsFrozen(p: Params, e: Exec, xs: seq<Certificate>)
    requires Proper(p) && Observed(p, e) && AllAdmissible(e.store, xs)
    ensures KeepsHorizons(e.aufs, AddAll(p, e, xs).aufs) && e.aufs.Keys <= AddAll(p, e, xs).aufs.Keys
  {
    hide Observed, AllAdmissible, AddCertificate;
    if xs != [] {
      var ys := xs[..|xs| - 1];
      AllAdmissiblePrefix(e.store, xs);
      AddAllKeeps(p, e, ys);
      AddAllKeepsFrozen(p, e, ys);
      AddKeepsFrozen(p, AddAll(p, e, ys), xs[|xs| - 1]);
    }
  }

  lemma {:induction false} DrainOnlyRemoves(p: Params, e: Exec)
    ensures forall d :: d in Drain(p, e).aufs ==> d in e.aufs && Drain(p, e).aufs[d] == e.aufs[d]
    ensures Drain(p, e).store == e.store
    decreases |e.batches|
  {
    hide BatchOrder;
    if e.batches != map[] && AllFrozen(e, e.batches[Least(e.batches.Keys)]) {
      FewerBatches(e.batches, Least(e.batches.Keys));
      DrainOnlyRemoves(p, Release(p, e, Least(e.batches.Keys)));
    }
  }

  /** From `e` on to `e'` no horizon that is set changes, and no AUF comes back. */
  ghost predicate HorizonsStay(e: Exec, e': Exec) {
    && KeepsHorizons(e.aufs, e'.aufs) && e.store.Keys <= e'.store.Keys
    && forall d :: d in e'.aufs && d in e.store ==> d in e.aufs
  }

  lemma ReceiveKeepsHorizons(p: Params, e: Exec, b: CommittedSubDag)
    requires Proper(p) && Observed(p, e) && AllAdmissible(e.store, b.certificates)
    ensures HorizonsStay(e, Received(p, e, b))
  {
    hide Observed, AllAdmissible, Extend, KeepsHorizons, Digests;
    AddAllKeepsFrozen(p, e, b.certificates);
    AddAllKeeps(p, e, b.certificates);
    ExtendStores(e.store, b.certificates);
    hide AddAll;
  }

  lemma CapKeepsHorizons(p: Params, e: Exec)
    ensures HorizonsStay(e, CapAll(p, e))
  {
  }

  /** One input changes no horizon that is set. */
  lemma DeliverKeepsHorizons(p: Params, e: Exec, b: CommittedSubDag)
    requires Proper(p) && Observed(p, e) && AllAdmissible(e.store, b.certificates) && e.aufs.Keys <= e.store.Keys
    ensures HorizonsStay(e, Deliver(p, e, b))
  {
    hide Observed, AllAdmissible, Drain, HorizonsStay, Received, CapAll;
    var received := Received(p, e, b);
    ReceiveKeepsHorizons(p, e, b);
    CapKeepsHorizons(p, received);
    DrainStays(p, CapAll(p, received));
    HorizonsStayOn(e, received, CapAll(p, received));
    HorizonsStayOn(e, CapAll(p, received), Deliver(p, e, b));
  }

  lemma DrainStays(p: Params, e: Exec)
    ensures HorizonsStay(e, Drain(p, e))
  {
    DrainOnlyRemoves(p, e);
    hide Drain;
  }

  lemma HorizonsStayOn(u: Exec, v: Exec, w: Exec)
    requires HorizonsStay(u, v) && HorizonsStay(v, w) && u.aufs.Keys <= u.store.Keys
    ensures HorizonsStay(u, w)
  {
  }

  /** Between any two points of a run: once set, neither the horizon nor the maturity of
      an AUF changes. */
  lemma {:induction false} HorizonSetOnce(p: Params, inputs: seq<CommittedSubDag>, m: nat, n: nat)
    requires Proper(p) && Legal(p, inputs) && m <= n <= |inputs|
    ensures HorizonsStay(Run(p, inputs[..m]), Run(p, inputs[..n]))
    decreases n
  {
    hide Legal, Observed, Accounted, Deliver, Run, AllAdmissible, HorizonsStay, AboveAll, CapsApplied, Blocked;
    LegalPrefix(p, inputs, m);
    var start := Run(p, inputs[..m]);
    if m < n {
      HorizonSetOnce(p, inputs, m, n - 1);
      LegalPrefix(p, inputs, n);
      RunUnfolds(p, inputs[..n]);
      assert inputs[..n][..n - 1] == inputs[..n - 1] && inputs[..n][n - 1] == inputs[n - 1];
      RunKeeps(p, inputs[..n - 1]);
      var e := Run(p, inputs[..n - 1]);
      StoredAufs(p, e, inputs[..n - 1]);
      DeliverKeepsHorizons(p, e, inputs[n - 1]);
      StoredAufs(p, start, inputs[..m]);
      HorizonsStayOn(start, e, Run(p, inputs[..n]));
    } else {
      HorizonsStayHere(start);
    }
  }

  lemma HorizonsStayHere(e: Exec)
    ensures HorizonsStay(e, e)
  {
  }

  lemma StoredAufs(p: Params, e: Exec, inputs: seq<CommittedSubDag>)
    requires Proper(p) && Legal(p, inputs) && e == Run(p, inputs)
    ensures e.aufs.Keys <= e.store.Keys
  {
    hide Legal, SeenExactly, HorizonsOk, Descending;
    RunKeeps(p, inputs);
  }

  // ---------------------------------------------------------------------
  // A descendant never beats its ancestor
  // ---------------------------------------------------------------------

  /** Whoever sees a descendant sees the ancestor. */
  lemma SeersInherit(store: History, aufs: map<Digest, AufState>, a: Digest, b: Digest, r: Round)
    requires SeenExactly(store, aufs) && a in aufs && b in aufs && Sees(store, b, a)
    ensures SeenAt(aufs[b], r) <= SeenAt(aufs[a], r) && |SeenAt(aufs[b], r)| <= |SeenAt(aufs[a], r)|
  {
    forall creator | creator in SeenAt(aufs[b], r)
      ensures creator in SeenAt(aufs[a], r)
    {
      assert SomeoneSaw(store, creator, r, b);
      var x :| x in store && store[x].round == r && store[x].origin == creator && Sees(store, x, b);
      SeesTransitive(store, x, b, a);
      assert SomeoneSaw(store, creator, r, a);
    }
    SubsetSize(SeenAt(aufs[b], r), SeenAt(aufs[a], r));
  }

  lemma DescendantNeverWins(p: Params, e: Exec, a: Digest, b: Digest)
    requires Proper(p) && Observed(p, e) && a in e.aufs && b in e.aufs && Sees(e.store, b, a)
    ensures !Wins(e.aufs, p.delta, b, a)
  {
    if Wins(e.aufs, p.delta, b, a) {
      var r :| InWindow(e.aufs[b], e.aufs[a], r) && Ahead(e.aufs[b], e.aufs[a], r, p.delta);
      SeersInherit(e.store, e.aufs, a, b, r);
      assert false;
    }
  }

  // ---------------------------------------------------------------------
  // Complete histories
  // ---------------------------------------------------------------------

  /** The authors of the stored parents one round below. */
  ghost function ParentCreators(store: History, x: Digest): set<PublicKey>
    requires x in store
  {
    set q | q in store[x].parents && q in store && store[q].round + 1 == store[x].round :: store[q].origin
  }

  /** Above `base` every stored certificate has all but `f` creators among its stored
      parents, and no creator has two certificates in a round. */
  ghost predicate Complete(store: History, creators: set<PublicKey>, f: nat, base: Round) {
    && |creators| > f
    && (forall x :: x in store ==> store[x].origin in creators)
    && (forall x, y :: x in store && y in store ==>
      store[x].origin == store[y].origin && store[x].round == store[y].round ==> x == y)
    && (forall x {:trigger ParentCreators(store, x)} :: x in store && store[x].round > base ==>
      |ParentCreators(store, x)| + f >= |creators|)
  }

  ghost predicate Wide(s: AufState, r: Round, f: nat) {
    |SeenAt(s, r)| >= f + 1
  }

  lemma Overlap(a: set<PublicKey>, b: set<PublicKey>, all: set<PublicKey>)
    requires a <= all && b <= all && |a| + |b| > |all|
    ensures exists x :: x in a && x in b
  {
    if a * b == {} {
      assert |a + b| == |a| + |b|;
      SubsetSize(a + b, all);
      assert false;
    }
    var x :| x in a * b;
  }

  /** In a complete history, what `f + 1` creators saw in one round is seen by every
      certificate of every later round. */
  lemma {:induction false} WideSpreads(store: History, aufs: map<Digest, AufState>, creators: set<PublicKey>,
      f: nat, base: Round, d: Digest, r: Round, x: Digest)
    requires Complete(store, creators, f, base) && Descending(store) && Tracked(store, aufs) && SeenExactly(store, aufs)
    requires d in aufs && aufs[d].round >= base && Wide(aufs[d], r, f)
    requires x in store && store[x].round > r
    ensures Sees(store, x, d)
    decreases store[x].round
  {
    hide Sees;
    WideIsLater(store, aufs, f, d, r);
    assert |ParentCreators(store, x)| + f >= |creators|;
    if store[x].round == r + 1 {
      SeersAreCreators(store, aufs, creators, f, base, d, r);
      Overlap(ParentCreators(store, x), SeenAt(aufs[d], r), creators);
      var k :| k in ParentCreators(store, x) && k in SeenAt(aufs[d], r);
      var q :| q in store[x].parents && q in store && store[q].round + 1 == store[x].round && store[q].origin == k;
      assert SomeoneSaw(store, k, r, d);
      var y :| y in store && store[y].round == r && store[y].origin == k && Sees(store, y, d);
      assert q == y;
      ParentSees(store, x, q, d);
    } else {
      assert ParentCreators(store, x) != {};
      var k :| k in ParentCreators(store, x);
      var q :| q in store[x].parents && q in store && store[q].round + 1 == store[x].round && store[q].origin == k;
      WideSpreads(store, aufs, creators, f, base, d, r, q);
      ParentSees(store, x, q, d);
    }
  }

  lemma ParentSees(store: History, x: Digest, q: Digest, d: Digest)
    requires x in store && q in store[x].parents && q in store && store[q].round < store[x].round && Sees(store, q, d)
    ensures Sees(store, x, d)
  {
  }

  lemma WideIsLater(store: History, aufs: map<Digest, AufState>, f: nat, d: Digest, r: Round)
    requires Tracked(store, aufs) && SeenExactly(store, aufs) && d in aufs && Wide(aufs[d], r, f)
    ensures aufs[d].round <= r
  {
    var creator :| creator in SeenAt(aufs[d], r);
    assert SomeoneSaw(store, creator, r, d);
    var x :| x in store && store[x].round == r && store[x].origin == creator && Sees(store, x, d);
    SeesRound(store, x, d);
  }

  lemma SeersAreCreators(store: History, aufs: map<Digest, AufState>, creators: set<PublicKey>, f: nat,
      base: Round, d: Digest, r: Round)
    requires Complete(store, creators, f, base) && SeenExactly(store, aufs) && d in aufs
    ensures SeenAt(aufs[d], r) <= creators
    ensures forall x :: x in store ==> ParentCreators(store, x) <= creators
  {
    forall creator | creator in SeenAt(aufs[d], r)
      ensures creator in creators
    {
      assert SomeoneSaw(store, creator, r, d);
    }
  }

  /** After a wide round nobody is seen by more creators. */
  lemma WideIsFull(store: History, aufs: map<Digest, AufState>, creators: set<PublicKey>, f: nat, base: Round,
      d: Digest, r: Round, other: Digest, later: Round)
    requires Complete(store, creators, f, base) && Descending(store) && Tracked(store, aufs) && SeenExactly(store, aufs)
    requires d in aufs && other in aufs && aufs[d].round >= base && Wide(aufs[d], r, f) && later > r
    ensures SeenAt(aufs[other], later) <= SeenAt(aufs[d], later)
    ensures |SeenAt(aufs[other], later)| <= |SeenAt(aufs[d], later)|
  {
    hide Complete;
    forall creator | creator in SeenAt(aufs[other], later)
      ensures creator in SeenAt(aufs[d], later)
    {
      assert SomeoneSaw(store, creator, later, other);
      var x :| x in store && store[x].round == later && store[x].origin == creator && Sees(store, x, other);
      WideSpreads(store, aufs, creators, f, base, d, r, x);
      assert SomeoneSaw(store, creator, later, d);
    }
    SubsetSize(SeenAt(aufs[other], later), SeenAt(aufs[d], later));
  }
}
