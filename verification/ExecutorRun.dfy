/** The executor as a function of the batches it is given, and what every run of it
    keeps. */
module ExecutorRun {
  import opened Basics
  import opened Dag
  import opened Visibility
  import opened Verdict

  /** Window cap, `2f + 1` and `f + 1`. */
  datatype Params = Params(windowCap: Round, reach: nat, delta: nat)

  ghost predicate Proper(p: Params) {
    p.windowCap >= 1 && p.reach >= 1 && p.delta >= 1
  }

  /** One finalized batch in execution order. */
  datatype Slice = Slice(index: nat, order: seq<Certificate>)

  datatype Exec = Exec(
    store: History,
    aufs: map<Digest, AufState>,
    batches: map<nat, seq<Digest>>,
    frontier: Round,
    released: seq<Slice>)

  const START := Exec(map[], map[], map[], 0, [])

  function Digests(xs: seq<Certificate>): seq<Digest> {
    seq(|xs|, i requires 0 <= i < |xs| => xs[i].digest)
  }

  function Lookup(store: History, ds: seq<Digest>): seq<Certificate>
    requires Elements(ds) <= store.Keys
  {
    assert forall i :: 0 <= i < |ds| ==> ds[i] in Elements(ds);
    seq(|ds|, i requires 0 <= i < |ds| && ds[i] in store => store[ds[i]])
  }

  // ---------------------------------------------------------------------
  // The steps
  // ---------------------------------------------------------------------

  ghost function AddCertificate(p: Params, e: Exec, x: Certificate): Exec {
    var store := e.store[x.digest := x];
    var aufs := if x.digest in e.aufs then e.aufs else e.aufs[x.digest := NewAuf(x.round)];
    e.(store := store, frontier := Max(e.frontier, x.round),
       aufs := RecordAll(store, aufs, x.digest, x.round, x.origin, p.reach))
  }

  ghost function AddAll(p: Params, e: Exec, xs: seq<Certificate>): Exec {
    if xs == [] then e else AddCertificate(p, AddAll(p, e, xs[..|xs| - 1]), xs[|xs| - 1])
  }

  function Capped(p: Params, frontier: Round, s: AufState): AufState {
    if s.horizon.None? && frontier >= s.round + p.windowCap
    then s.(horizon := Some(s.round + p.windowCap), mature := false)
    else s
  }

  function CapAll(p: Params, e: Exec): Exec {
    e.(aufs := map d | d in e.aufs :: Capped(p, e.frontier, e.aufs[d]))
  }

  predicate HasHorizon(aufs: map<Digest, AufState>, d: Digest) {
    d in aufs && aufs[d].horizon.Some?
  }

  /** Every member has a horizon. */
  predicate AllFrozen(e: Exec, members: seq<Digest>) {
    Elements(members) <= e.store.Keys && forall d :: d in members ==> HasHorizon(e.aufs, d)
  }

  ghost function Release(p: Params, e: Exec, index: nat): Exec
    requires index in e.batches && AllFrozen(e, e.batches[index])
  {
    var members := Elements(e.batches[index]);
    var order := BatchOrder(e.store, e.aufs, p.delta, members);
    BatchOrderProperties(e.store, e.aufs, p.delta, members);
    e.(batches := e.batches - {index}, aufs := e.aufs - members,
       released := e.released + [Slice(index, Lookup(e.store, order))])
  }

  /** Release batches from the lowest index on, until one is not frozen. */
  ghost function Drain(p: Params, e: Exec): Exec
    decreases |e.batches|
  {
    if e.batches == map[] then e
    else
      var index := Least(e.batches.Keys);
      if AllFrozen(e, e.batches[index]) then
        FewerBatches(e.batches, index);
        Drain(p, Release(p, e, index))
      else e
  }

  lemma FewerBatches(m: map<nat, seq<Digest>>, index: nat)
    requires index in m
    ensures |m - {index}| < |m|
  {
    assert (m - {index}).Keys == m.Keys - {index};
    assert |m.Keys - {index}| == |m.Keys| - 1;
    assert |m| == |m.Keys| && |m - {index}| == |(m - {index}).Keys|;
  }

  function Members(b: CommittedSubDag): seq<Digest> {
    Digests(b.certificates)
  }

  /** The state after taking a batch in, before capping and draining. */
  ghost function Received(p: Params, e: Exec, b: CommittedSubDag): Exec {
    var added := AddAll(p, e, b.certificates);
    if b.certificates == [] then added else added.(batches := added.batches[b.batchIndex := Members(b)])
  }

  ghost function Deliver(p: Params, e: Exec, b: CommittedSubDag): Exec {
    Drain(p, CapAll(p, Received(p, e, b)))
  }

  ghost function Run(p: Params, inputs: seq<CommittedSubDag>): Exec {
    if inputs == [] then START else Deliver(p, Run(p, inputs[..|inputs| - 1]), inputs[|inputs| - 1])
  }

  // ---------------------------------------------------------------------
  // What is asked of the input
  // ---------------------------------------------------------------------

  /** A new certificate, not mentioned by any stored one, above its stored parents. */
  ghost predicate Admissible(store: History, x: Certificate) {
    && x.digest !in store && x.digest !in x.parents
    && (forall d :: d in store ==> x.digest !in store[d].parents)
    && (forall d :: d in x.parents && d in store ==> store[d].round < x.round)
  }

  function Extend(store: History, xs: seq<Certificate>): History {
    if xs == [] then store else Extend(store, xs[..|xs| - 1])[xs[|xs| - 1].digest := xs[|xs| - 1]]
  }

  /** Each certificate is admissible when its turn comes. */
  ghost predicate AllAdmissible(store: History, xs: seq<Certificate>) {
    forall i {:trigger AdmissibleNext(store, xs, i)} :: 0 <= i < |xs| ==> AdmissibleNext(store, xs, i)
  }

  ghost predicate AdmissibleNext(store: History, xs: seq<Certificate>, i: nat)
    requires i < |xs|
  {
    Admissible(Extend(store, xs[..i]), xs[i])
  }

  // ---------------------------------------------------------------------
  // Visibility is exact
  // ---------------------------------------------------------------------

  ghost predicate SomeoneSaw(store: History, creator: PublicKey, r: Round, d: Digest) {
    exists x :: x in store && store[x].round == r && store[x].origin == creator && Sees(store, x, d)
  }

  /** The creators recorded for an AUF at a round are exactly the authors of the stored
      certificates of that round from which it can be reached. */
  ghost predicate SeenExactly(store: History, aufs: map<Digest, AufState>) {
    forall d, r: Round, creator: PublicKey :: d in aufs ==>
      (creator in SeenAt(aufs[d], r) <==> SomeoneSaw(store, creator, r, d))
  }

  /** Adding a certificate that no stored one mentions changes no old path. */
  lemma {:induction false} SeesFrame(store: History, x: Certificate, c: Digest, d: Digest)
    requires Admissible(store, x) && c in store
    ensures Sees(store[x.digest := x], c, d) <==> Sees(store, c, d)
    decreases store[c].round
  {
    var store' := store[x.digest := x];
    forall p | p in store[c].parents && p in store && store[p].round < store[c].round
      ensures Sees(store', p, d) <==> Sees(store, p, d)
    {
      SeesFrame(store, x, p, d);
    }
  }

  lemma SomeoneSawNew(store: History, x: Certificate, creator: PublicKey, r: Round, d: Digest)
    requires Admissible(store, x)
    ensures var store' := store[x.digest := x];
      SomeoneSaw(store', creator, r, d) <==>
        SomeoneSaw(store, creator, r, d) || (r == x.round && creator == x.origin && Sees(store', x.digest, d))
  {
    var store' := store[x.digest := x];
    forall c | c in store
      ensures Sees(store', c, d) <==> Sees(store, c, d)
    {
      SeesFrame(store, x, c, d);
    }
    if SomeoneSaw(store', creator, r, d) {
      var c :| c in store' && store'[c].round == r && store'[c].origin == creator && Sees(store', c, d);
      assert c == x.digest || Sees(store, c, d);
    }
    if SomeoneSaw(store, creator, r, d) {
      var c :| c in store && store[c].round == r && store[c].origin == creator && Sees(store, c, d);
      assert Sees(store', c, d) && store'[c] == store[c];
    }
    if r == x.round && creator == x.origin && Sees(store', x.digest, d) {
      assert store'[x.digest] == x;
    }
  }

  lemma SeenAtRecorded(s: AufState, round: Round, author: PublicKey, reach: nat, r: Round)
    ensures SeenAt(RecordSeen(s, round, author, reach), r) == SeenAt(s, r) + if r == round then {author} else {}
  {
  }

  lemma AddKeepsSeen(p: Params, e: Exec, x: Certificate)
    requires Admissible(e.store, x) && Tracked(e.store, e.aufs) && SeenExactly(e.store, e.aufs)
    ensures var e' := AddCertificate(p, e, x); SeenExactly(e'.store, e'.aufs)
  {
    var e' := AddCertificate(p, e, x);
    var aufs := e.aufs[x.digest := NewAuf(x.round)];
    hide Sees, RecordSeen, SomeoneSaw, Admissible;
    forall d, r: Round, creator: PublicKey | d in e'.aufs
      ensures creator in SeenAt(e'.aufs[d], r) <==> SomeoneSaw(e'.store, creator, r, d)
    {
      SomeoneSawNew(e.store, x, creator, r, d);
      SeenAtRecorded(aufs[d], x.round, x.origin, p.reach, r);
      if d == x.digest {
        NobodySawNew(e.store, x, creator, r);
      } else {
        assert creator in SeenAt(e.aufs[d], r) <==> SomeoneSaw(e.store, creator, r, d);
      }
    }
  }

  lemma NobodySawNew(store: History, x: Certificate, creator: PublicKey, r: Round)
    requires Admissible(store, x)
    ensures !SomeoneSaw(store, creator, r, x.digest) && x.digest !in store
  {
  }

  // ---------------------------------------------------------------------
  // Horizons
  // ---------------------------------------------------------------------

  /** A horizon is either the round at which `reach` creators saw the AUF, or the
      window cap of one that was never seen that widely; it is never in the future. */
  ghost predicate HorizonOk(p: Params, frontier: Round, s: AufState) {
    match s.horizon
    case None => !s.mature && forall r: Round :: |SeenAt(s, r)| < p.reach
    case Some(h) => h <= frontier && (if s.mature then |SeenAt(s, h)| >= p.reach else h == s.round + p.windowCap)
  }

  ghost predicate HorizonsOk(p: Params, e: Exec) {
    forall d :: d in e.aufs ==> HorizonOk(p, e.frontier, e.aufs[d])
  }

  lemma RecordKeepsHorizon(p: Params, frontier: Round, s: AufState, round: Round, author: PublicKey)
    requires HorizonOk(p, frontier, s) && round <= frontier
    ensures HorizonOk(p, frontier, RecordSeen(s, round, author, p.reach))
    ensures s.horizon.Some? ==>
      RecordSeen(s, round, author, p.reach).horizon == s.horizon
        && RecordSeen(s, round, author, p.reach).mature == s.mature
  {
    var s' := RecordSeen(s, round, author, p.reach);
    forall r: Round
      ensures |SeenAt(s', r)| >= |SeenAt(s, r)|
      ensures SeenAt(s', r) == SeenAt(s, r) || r == round
    {
      SeenAtRecorded(s, round, author, p.reach, r);
      SubsetSize(SeenAt(s, r), SeenAt(s', r));
    }
    if author in SeenAt(s, round) {
      assert SeenAt(s', round) == SeenAt(s, round);
    }
  }

  lemma AddKeepsHorizons(p: Params, e: Exec, x: Certificate)
    requires Proper(p) && HorizonsOk(p, e)
    ensures HorizonsOk(p, AddCertificate(p, e, x))
  {
    var e' := AddCertificate(p, e, x);
    hide Sees, RecordSeen, HorizonOk;
    var aufs := if x.digest in e.aufs then e.aufs else e.aufs[x.digest := NewAuf(x.round)];
    forall d | d in aufs
      ensures HorizonOk(p, e'.frontier, e'.aufs[d])
    {
      assert HorizonOk(p, e'.frontier, aufs[d]) by {
        NewHorizon(p, e.frontier, e'.frontier, aufs[d]);
      }
      RecordKeepsHorizon(p, e'.frontier, aufs[d], x.round, x.origin);
    }
  }

  lemma NewHorizon(p: Params, frontier: Round, frontier': Round, s: AufState)
    requires Proper(p) && frontier <= frontier'
    requires HorizonOk(p, frontier, s) || s == NewAuf(s.round)
    ensures HorizonOk(p, frontier', s)
  {
  }

  lemma CapKeepsHorizon(p: Params, frontier: Round, s: AufState)
    requires HorizonOk(p, frontier, s)
    ensures HorizonOk(p, frontier, Capped(p, frontier, s))
    ensures Capped(p, frontier, s).horizon.None? ==> frontier < s.round + p.windowCap
  {
  }

  // ---------------------------------------------------------------------
  // The invariant of a step
  // ---------------------------------------------------------------------

  /** The frontier is the highest round stored so far, and 0 while nothing is. */
  ghost predicate FrontierIs(store: History, frontier: Round) {
    && (forall d :: d in store ==> store[d].round <= frontier)
    && (frontier == 0 || exists d :: d in store && store[d].round == frontier)
  }

  lemma AddKeepsFrontier(store: History, frontier: Round, x: Certificate)
    requires FrontierIs(store, frontier) && x.digest !in store
    ensures FrontierIs(store[x.digest := x], Max(frontier, x.round))
  {
    var store' := store[x.digest := x];
    if x.round > frontier {
      assert store'[x.digest].round == x.round;
    } else if frontier > 0 {
      var d :| d in store && store[d].round == frontier;
      assert store'[d].round == frontier;
    }
  }

  ghost predicate Observed(p: Params, e: Exec) {
    && (forall d :: d in e.store ==> e.store[d].digest == d) && FrontierIs(e.store, e.frontier)
    && Descending(e.store) && Tracked(e.store, e.aufs) && SeenExactly(e.store, e.aufs) && HorizonsOk(p, e)
  }

  lemma AddKeepsTracked(p: Params, e: Exec, x: Certificate)
    requires Tracked(e.store, e.aufs)
    requires x.digest !in e.store
    ensures var e' := AddCertificate(p, e, x);
      Tracked(e'.store, e'.aufs) && e'.aufs.Keys == e.aufs.Keys + {x.digest}
  {
    hide Sees, RecordSeen;
    var e' := AddCertificate(p, e, x);
    forall d | d in e'.aufs
      ensures e'.aufs[d].round == e'.store[d].round
    {
      RecordKeepsRound(if d in e.aufs then e.aufs[d] else NewAuf(x.round), x.round, x.origin, p.reach);
    }
  }

  lemma AddKeepsDescending(store: History, x: Certificate)
    requires Descending(store) && Admissible(store, x)
    ensures Descending(store[x.digest := x])
  {
  }

  lemma AddKeepsObserved(p: Params, e: Exec, x: Certificate)
    requires Proper(p) && Observed(p, e) && Admissible(e.store, x)
    ensures Observed(p, AddCertificate(p, e, x))
    ensures AddCertificate(p, e, x).aufs.Keys == e.aufs.Keys + {x.digest}
  {
    AddKeepsSeen(p, e, x);
    AddKeepsHorizons(p, e, x);
    AddKeepsDescending(e.store, x);
    assert x.digest !in e.store;
    AddKeepsTracked(p, e, x);
    AddKeepsFrontier(e.store, e.frontier, x);
    hide SeenExactly, HorizonsOk, RecordAll, Descending, Tracked, Admissible, FrontierIs;
  }

  lemma RecordKeepsRound(s: AufState, round: Round, author: PublicKey, reach: nat)
    ensures RecordSeen(s, round, author, reach).round == s.round
  {
  }

  lemma CapKeepsObserved(p: Params, e: Exec)
    requires Observed(p, e)
    ensures Observed(p, CapAll(p, e))
    ensures forall d :: d in CapAll(p, e).aufs && CapAll(p, e).aufs[d].horizon.None? ==>
      e.frontier < CapAll(p, e).aufs[d].round + p.windowCap
  {
    hide SomeoneSaw, HorizonOk;
    forall d | d in e.aufs
      ensures HorizonOk(p, e.frontier, Capped(p, e.frontier, e.aufs[d]))
      ensures Capped(p, e.frontier, e.aufs[d]).horizon.None? ==> e.frontier < e.aufs[d].round + p.windowCap
    {
      CapKeepsHorizon(p, e.frontier, e.aufs[d]);
    }
    assert forall d, r: Round :: d in e.aufs ==> SeenAt(Capped(p, e.frontier, e.aufs[d]), r) == SeenAt(e.aufs[d], r);
  }

  lemma DigestsSnoc(ys: seq<Certificate>, x: Certificate)
    ensures Digests(ys + [x]) == Digests(ys) + [x.digest]
    ensures Elements(Digests(ys + [x])) == Elements(Digests(ys)) + {x.digest}
  {
    ElementsConcat(Digests(ys), [x.digest]);
    assert Elements([x.digest]) == {x.digest};
  }

  lemma AllAdmissiblePrefix(store: History, xs: seq<Certificate>)
    requires AllAdmissible(store, xs) && xs != []
    ensures AllAdmissible(store, xs[..|xs| - 1]) && Admissible(Extend(store, xs[..|xs| - 1]), xs[|xs| - 1])
  {
    var ys := xs[..|xs| - 1];
    hide Admissible, Extend;
    assert AdmissibleNext(store, xs, |xs| - 1);
    forall i | 0 <= i < |ys|
      ensures AdmissibleNext(store, ys, i)
    {
      assert AdmissibleNext(store, xs, i) && ys[..i] == xs[..i];
    }
  }

  /** What adding all certificates of a batch does. */
  lemma {:induction false} AddAllKeeps(p: Params, e: Exec, xs: seq<Certificate>)
    requires Proper(p) && Observed(p, e) && AllAdmissible(e.store, xs)
    ensures var e' := AddAll(p, e, xs);
      && Observed(p, e') && e'.store == Extend(e.store, xs)
      && e'.aufs.Keys == e.aufs.Keys + Elements(Digests(xs))
      && e'.batches == e.batches && e'.released == e.released
  {
    hide Observed, Admissible, AllAdmissible, RecordAll, Digests;
    if xs != [] {
      var ys := xs[..|xs| - 1];
      AllAdmissiblePrefix(e.store, xs);
      AddAllKeeps(p, e, ys);
      AddKeepsObserved(p, AddAll(p, e, ys), xs[|xs| - 1]);
      assert xs == ys + [xs[|xs| - 1]];
      DigestsSnoc(ys, xs[|xs| - 1]);
    } else {
      assert Elements(Digests(xs)) == {} by {
        NoDigests();
      }
    }
  }

  lemma NoDigests()
    ensures Digests([]) == [] && Elements(Digests([])) == {}
  {
  }

  /** `after` is `store` with the certificates `xs`, all of new and distinct digests. */
  ghost predicate StoresAll(store: History, xs: seq<Certificate>, after: History) {
    && after.Keys == store.Keys + Elements(Digests(xs))
    && Distinct(Digests(xs)) && Elements(Digests(xs)) !! store.Keys
    && (forall x :: x in xs ==> x.digest in after && after[x.digest] == x)
    && (forall d :: d in store ==> after[d] == store[d])
  }

  lemma StoresSnoc(store: History, ys: seq<Certificate>, middle: History, x: Certificate)
    requires StoresAll(store, ys, middle) && x.digest !in middle
    ensures StoresAll(store, ys + [x], middle[x.digest := x])
  {
    hide Digests;
    DigestsSnoc(ys, x);
    assert x.digest !in Elements(Digests(ys));
    DistinctAppend(Digests(ys), x.digest);
    hide Elements, Distinct;
    forall y | y in ys + [x]
      ensures y in ys || y == x
    {
    }
  }

  /** An admissible batch consists of new, distinct digests, and is stored as given. */
  lemma {:induction false} ExtendStores(store: History, xs: seq<Certificate>)
    requires AllAdmissible(store, xs)
    ensures StoresAll(store, xs, Extend(store, xs))
  {
    hide StoresAll, AllAdmissible;
    if xs != [] {
      var ys := xs[..|xs| - 1];
      AllAdmissiblePrefix(store, xs);
      ExtendStores(store, ys);
      StoresSnoc(store, ys, Extend(store, ys), xs[|xs| - 1]);
      assert xs == ys + [xs[|xs| - 1]];
    } else {
      StoresNone(store);
    }
  }

  lemma StoresNone(store: History)
    ensures StoresAll(store, [], store)
  {
  }
}
