/** A run in which the final order of a batch puts a certificate before its own parent:
    seven authorities of equal stake and a window cap of two rounds, on the batches that a
    node commits of the history in ExampleHistory. 21 is seen by many, but late; 31 names
    it as a parent and is hardly seen; 37 is seen by all at once and beats 21. */
module AncestryExample {
  import opened Basics
  import opened Dag
  import opened Graphs
  import opened TieBreak
  import opened Linearization
  import opened Visibility
  import opened Verdict
  import opened ExecutorRun
  import opened Conservation
  import opened Fairness
  import opened Ancestry
  import opened Releases
  import opened ExampleHistory
  import opened Consensus
  import opened MrvExecutor
  import opened Pipeline
  import Ledger

  const PARAMS := Params(2, 5, 3)

  // ---------------------------------------------------------------------
  // Who sees whom
  // ---------------------------------------------------------------------

  /** Certificates of the history from round 1 on, with all of rounds 1 to 5 and 67. */
  ghost predicate Good(store: History) {
    && (forall d :: d in store ==> Exists(d) && d >= 10 && store[d] == Cert(d))
    && (forall d :: Early(d) || d == 67 ==> d in store)
  }

  /** The certificates of rounds 1 to 5 that see 21, 31 and 37. */
  function Seers(d: Digest): set<Digest> {
    if d == 21 then {21, 31, 32, 41, 42, 51, 52, 53, 54, 55}
    else if d == 31 then {31, 41, 51}
    else {37, 41, 42, 43, 44, 46, 47, 51, 52, 53, 54, 55}
  }

  lemma SeersClosed(d: Digest, x: Digest)
    requires d in {21, 31, 37} && Early(x) && x != d
    ensures x in Seers(d) <==> exists p :: p in ParentsOf(x) && p in Seers(d)
  {
    FiveParents(x);
    AnyOfFive(ParentsOf(x), Seers(d));
    hide ParentsOf, Seers, Meets;
    if d == 21 {
      Meets21(x);
    } else if d == 31 {
      Meets31(x);
    } else {
      Meets37(x);
    }
  }

  lemma Meets21(x: Digest)
    requires Early(x) && x != 21
    ensures |ParentsOf(x)| == 5 && (x in Seers(21) <==> Meets(ParentsOf(x), Seers(21)))
  {
  }

  lemma Meets31(x: Digest)
    requires Early(x) && x != 31
    ensures |ParentsOf(x)| == 5 && (x in Seers(31) <==> Meets(ParentsOf(x), Seers(31)))
  {
  }

  lemma Meets37(x: Digest)
    requires Early(x) && x != 37
    ensures |ParentsOf(x)| == 5 && (x in Seers(37) <==> Meets(ParentsOf(x), Seers(37)))
  {
  }

  predicate Meets(ps: seq<Digest>, s: set<Digest>)
    requires |ps| == 5
  {
    ps[0] in s || ps[1] in s || ps[2] in s || ps[3] in s || ps[4] in s
  }

  lemma AnyOfFive(ps: seq<Digest>, s: set<Digest>)
    requires |ps| == 5
    ensures Meets(ps, s) <==> exists p :: p in ps && p in s
  {
    assert ps[0] in ps && ps[1] in ps && ps[2] in ps && ps[3] in ps && ps[4] in ps;
  }

  lemma GoodParents(store: History, x: Digest, p: Digest)
    requires Good(store) && x in store && p in store[x].parents
    ensures Exists(p) && p / 10 + 1 == x / 10 && (p >= 10 && x < 67 ==> p in store)
    ensures p in store ==> store[p].round + 1 == store[x].round
  {
    hide ParentsOf;
    ParentsExist(x, p);
  }

  lemma {:induction false} SeesEarly(store: History, d: Digest, x: Digest)
    requires Good(store) && d in {21, 31, 37} && Early(x)
    ensures Sees(store, x, d) <==> x in Seers(d)
    decreases x
  {
    hide ParentsOf, Seers;
    if x != d {
      forall p | p in store[x].parents
        ensures p in store ==> store[p].round < store[x].round && (Sees(store, p, d) <==> p in Seers(d))
        ensures p in Seers(d) ==> p in store
      {
        GoodParents(store, x, p);
        SeersEarly(d, p);
        if p in store {
          SeesEarly(store, d, p);
        }
      }
      SeersClosed(d, x);
    } else {
      SeersSelf(d);
    }
  }

  lemma SeersEarly(d: Digest, p: Digest)
    requires d in {21, 31, 37}
    ensures p in Seers(d) ==> Early(p)
  {
  }

  lemma SeersSelf(d: Digest)
    requires d in {21, 31, 37}
    ensures d in Seers(d)
  {
  }

  /** From round 4 on, everything that sees an older certificate sees 37. */
  lemma {:induction false} AllSee37(store: History, x: Digest, y: Digest)
    requires Good(store) && x in store && store[x].round >= 4
    requires Sees(store, x, y) && store[y].round <= 6 && (store[x].round > 6 ==> store[y].round < store[x].round)
    ensures Sees(store, x, 37)
    decreases store[x].round
  {
    hide ParentsOf, Seers;
    if store[x].round <= 5 {
      SeesEarly(store, 37, x);
      LateSeers(x);
    } else if store[x].round == 6 {
      Round6Parents(x);
      SeesEarly(store, 37, 51);
      LateSeers(51);
      ParentSees(store, x, 51, 37);
    } else {
      var q :| q in store[x].parents && q in store && store[q].round < store[x].round && Sees(store, q, y);
      GoodParents(store, x, q);
      AllSee37(store, q, y);
      ParentSees(store, x, q, 37);
    }
  }

  lemma LateSeers(x: Digest)
    requires Early(x) && x >= 40
    ensures x in Seers(37)
  {
  }

  lemma Round6Parents(x: Digest)
    requires Exists(x) && x / 10 == 6
    ensures 51 in ParentsOf(x) && Early(51)
  {
    assert ParentsOf(x)[0] == 51;
  }

  // ---------------------------------------------------------------------
  // How many creators see whom
  // ---------------------------------------------------------------------

  lemma SeenEarly(store: History, aufs: map<Digest, AufState>, d: Digest, r: Round, creator: PublicKey)
    requires Good(store) && SeenExactly(store, aufs) && d in {21, 31, 37} && d in aufs && r <= 5
    ensures creator in SeenAt(aufs[d], r) <==> creator < 10 && 10 * r + creator in Seers(d)
  {
    hide Sees, Seers, ParentsOf, Exists;
    if creator in SeenAt(aufs[d], r) {
      assert SomeoneSaw(store, creator, r, d);
      var x :| x in store && store[x].round == r && store[x].origin == creator && Sees(store, x, d);
      SeesEarly(store, d, x);
    }
    var x := 10 * r + creator;
    if creator < 10 && x in Seers(d) {
      SeersEarly(d, x);
      SeesEarly(store, d, x);
      assert store[x].round == r && store[x].origin == creator;
      assert SomeoneSaw(store, creator, r, d);
    }
  }

  lemma Counts21(store: History, aufs: map<Digest, AufState>)
    requires Good(store) && SeenExactly(store, aufs) && 21 in aufs
    ensures |SeenAt(aufs[21], 4)| <= 2 && |SeenAt(aufs[21], 5)| >= 5
  {
    hide Good, SeenExactly, SeenAt;
    forall creator: PublicKey
      ensures creator in SeenAt(aufs[21], 4) ==> creator in {1, 2}
      ensures creator in {1, 2, 3, 4, 5} ==> creator in SeenAt(aufs[21], 5)
    {
      SeenEarly(store, aufs, 21, 4, creator);
      SeenEarly(store, aufs, 21, 5, creator);
    }
    SubsetSize(SeenAt(aufs[21], 4), {1, 2});
    SubsetSize({1, 2, 3, 4, 5}, SeenAt(aufs[21], 5));
  }

  lemma Counts37(store: History, aufs: map<Digest, AufState>)
    requires Good(store) && SeenExactly(store, aufs) && 37 in aufs
    ensures |SeenAt(aufs[37], 4)| >= 6
    ensures forall r: Round {:trigger SeenAt(aufs[37], r)} :: r <= 3 ==> |SeenAt(aufs[37], r)| <= 1
  {
    hide Good, SeenExactly, SeenAt;
    forall creator | creator in {1, 2, 3, 4, 6, 7}
      ensures creator in SeenAt(aufs[37], 4)
    {
      SeenEarly(store, aufs, 37, 4, creator);
    }
    SubsetSize({1, 2, 3, 4, 6, 7}, SeenAt(aufs[37], 4));
    forall r: Round | r <= 3
      ensures |SeenAt(aufs[37], r)| <= 1
    {
      forall creator | creator in SeenAt(aufs[37], r)
        ensures creator == 7
      {
        SeenEarly(store, aufs, 37, r, creator);
      }
      SubsetSize(SeenAt(aufs[37], r), {7});
    }
  }

  /** While nothing later than 67 is stored, nobody sees 31 but authors 1 and 7. */
  lemma Counts31(store: History, aufs: map<Digest, AufState>, r: Round)
    requires Good(store) && SeenExactly(store, aufs) && 31 in aufs
    requires forall d :: d in store ==> Early(d) || d == 67
    ensures |SeenAt(aufs[31], r)| <= 1
  {
    hide Sees, ParentsOf;
    forall creator | creator in SeenAt(aufs[31], r)
      ensures creator == if r <= 5 then 1 else 7
    {
      if r <= 5 {
        SeenEarly(store, aufs, 31, r, creator);
      } else {
        assert SomeoneSaw(store, creator, r, 31);
      }
    }
    SubsetSize(SeenAt(aufs[31], r), {if r <= 5 then 1 else 7});
  }

  // ---------------------------------------------------------------------
  // What the first batch freezes
  // ---------------------------------------------------------------------

  lemma FirstStore(xs: seq<Certificate>, after: History)
    requires IsFirst(xs) && StoresAll(map[], xs, after)
    ensures Good(after) && forall d :: d in after ==> Early(d) || d == 67
    ensures Elements(Digests(xs)) == after.Keys
  {
    hide ParentsOf, Exists, Distinct;
    forall d | d in after
      ensures (Early(d) || d == 67) && after[d] == Cert(d)
    {
      assert d in Elements(Digests(xs));
      var i :| 0 <= i < |xs| && Digests(xs)[i] == d;
      assert xs[i] in xs;
    }
    forall d | Early(d) || d == 67
      ensures d in after
    {
      assert Cert(d) in xs;
    }
    Exists67();
  }

  lemma Exists67()
    ensures Exists(67) && Early(21) && Early(31) && Early(37)
  {
  }

  /** Before capping, the two that are widely seen have matured and the third has not. */
  lemma AddedFirst(xs: seq<Certificate>)
    requires IsFirst(xs) && AllAdmissible(map[], xs)
    ensures var e := AddAll(PARAMS, START, xs);
      && {21, 31, 37} <= e.aufs.Keys && e.frontier >= 6 && e.aufs[31].round == 3
      && e.aufs[21].mature && e.aufs[21].horizon.Some? && e.aufs[37].mature && e.aufs[37].horizon.Some?
      && !e.aufs[31].mature && e.aufs[31].horizon.None?
  {
    hide AddAll, IsFirst, AllAdmissible, SeenExactly, Descending, Extend, ParentsOf, Exists, Good;
    StartKeeps(PARAMS);
    AddAllKeeps(PARAMS, START, xs);
    ExtendStores(map[], xs);
    FirstStore(xs, Extend(map[], xs));
    AddAllCapsNone(PARAMS, START, xs);
    var e := AddAll(PARAMS, START, xs);
    Exists67();
    GoodMembers(e.store);
    Counts21(e.store, e.aufs);
    Counts37(e.store, e.aufs);
    assert HorizonOk(PARAMS, e.frontier, e.aufs[21]) && HorizonOk(PARAMS, e.frontier, e.aufs[37]);
    assert HorizonOk(PARAMS, e.frontier, e.aufs[31]);
    if e.aufs[31].horizon.Some? {
      Counts31(e.store, e.aufs, e.aufs[31].horizon.value);
      assert false;
    }
  }

  lemma GoodMembers(store: History)
    requires Good(store)
    ensures {21, 31, 37, 67} <= store.Keys && store[67].round == 6 && store[31].round == 3
    ensures store[21].round == 2 && store[37].round == 3
    ensures store[21] == Cert(21) && store[31] == Cert(31) && store[37] == Cert(37)
  {
    Exists67();
  }

  lemma FirstFrozen(inputs: seq<CommittedSubDag>)
    requires Legal(PARAMS, inputs) && inputs != [] && IsFirst(inputs[0].certificates)
    ensures var u := Undrained(PARAMS, inputs, 0);
      && {21, 31, 37} <= u.aufs.Keys
      && u.aufs[21].mature && u.aufs[21].horizon.Some? && u.aufs[37].mature && u.aufs[37].horizon.Some?
      && !u.aufs[31].mature && u.aufs[31].horizon.Some?
  {
    hide AddAll, IsFirst, AllAdmissible;
    LegalMeans(PARAMS, inputs, 0);
    assert Run(PARAMS, inputs[..0]) == START;
    AddedFirst(inputs[0].certificates);
  }

  // ---------------------------------------------------------------------
  // The order of the first batch
  // ---------------------------------------------------------------------

  /** In the state of the release: the store is part of the history, and the verdict on
      the three certificates is the one of the first batch. */
  ghost predicate AtRelease(e: Exec, members: set<Digest>) {
    && Observed(PARAMS, e) && Good(e.store) && members <= e.aufs.Keys && members <= e.store.Keys
    && (forall d :: d in members <==> Early(d) || d == 67)
    && e.aufs[21].mature && e.aufs[37].mature && !e.aufs[31].mature
  }

  lemma Members(e: Exec, members: set<Digest>)
    requires AtRelease(e, members)
    ensures {21, 31, 37} <= members
    ensures forall d :: d in members ==> e.aufs[d].round == e.store[d].round && e.store[d].round <= 6
    ensures e.aufs[21].round == 2 && e.aufs[37].round == 3
  {
    hide ParentsOf, SeenExactly, HorizonsOk, Descending;
    Exists67();
    GoodMembers(e.store);
  }

  /** Whoever sees another member after round 3 sees 37. */
  lemma NobodyAhead(e: Exec, members: set<Digest>, y: Digest, r: Round)
    requires AtRelease(e, members) && y in members && r > Max(e.aufs[y].round, 3)
    ensures |SeenAt(e.aufs[y], r)| <= |SeenAt(e.aufs[37], r)|
  {
    hide Sees, ParentsOf, Good, HorizonsOk, Early;
    Members(e, members);
    forall creator | creator in SeenAt(e.aufs[y], r)
      ensures creator in SeenAt(e.aufs[37], r)
    {
      assert SomeoneSaw(e.store, creator, r, y);
      var x :| x in e.store && e.store[x].round == r && e.store[x].origin == creator && Sees(e.store, x, y);
      AllSee37(e.store, x, y);
      assert SomeoneSaw(e.store, creator, r, 37);
    }
    SubsetSize(SeenAt(e.aufs[y], r), SeenAt(e.aufs[37], r));
  }

  lemma NobodyWins(e: Exec, members: set<Digest>, y: Digest)
    requires AtRelease(e, members) && y in members
    ensures !Wins(e.aufs, 3, y, 37)
  {
    hide AtRelease;
    Members(e, members);
    InStore(e, members);
    if Wins(e.aufs, 3, y, 37) {
      var r :| InWindow(e.aufs[y], e.aufs[37], r) && Ahead(e.aufs[y], e.aufs[37], r, 3);
      NobodyAhead(e, members, y, r);
      assert false;
    }
  }

  lemma InStore(e: Exec, members: set<Digest>)
    requires AtRelease(e, members)
    ensures members <= e.aufs.Keys && members <= e.store.Keys && SeenExactly(e.store, e.aufs) && Good(e.store)
    ensures HorizonOk(PARAMS, e.frontier, e.aufs[21]) && HorizonOk(PARAMS, e.frontier, e.aufs[37])
    ensures e.aufs[21].mature && e.aufs[37].mature && !e.aufs[31].mature
  {
    hide ParentsOf, SeenExactly, Descending, Tracked, HorizonOk;
    Exists67();
  }

  lemma Beats21(e: Exec, members: set<Digest>)
    requires AtRelease(e, members)
    ensures Wins(e.aufs, 3, 37, 21)
  {
    hide AtRelease, SeenExactly, Good;
    Members(e, members);
    InStore(e, members);
    Counts21(e.store, e.aufs);
    Counts37(e.store, e.aufs);
    var h := e.aufs[37].horizon.value;
    assert h >= 4 by {
      assert |SeenAt(e.aufs[37], h)| >= 5;
    }
    assert InWindow(e.aufs[37], e.aufs[21], 4) && Ahead(e.aufs[37], e.aufs[21], 4, 3);
    forall r | InWindow(e.aufs[37], e.aufs[21], r)
      ensures !Ahead(e.aufs[21], e.aufs[37], r, 3)
    {
      NobodyAhead(e, members, 21, r);
    }
  }

  /** So 37 is a component of its own, which comes before 21 and after 31. */
  lemma OrderAt(e: Exec, members: set<Digest>)
    requires AtRelease(e, members)
    ensures members <= e.store.Keys && Before(BatchOrder(e.store, e.aufs, 3, members), 31, 21)
  {
    hide AtRelease, Reach, VerdictGraph, Linearize, Wins, Before, Good, SeenExactly, HorizonOk;
    Members(e, members);
    InStore(e, members);
    var g := VerdictGraph(e.aufs, 3, members);
    GraphKeys(e.aufs, 3, members);
    Beats21(e, members);
    WinsReach(e.aufs, 3, members, 37, 21);
    forall y | y in members && Mutual(g, 37, y)
      ensures y == 37
    {
      if y != 37 {
        NobodyLeads(e, members, y);
        assert false;
      }
    }
    OwnKey(e.store, g, members, 37);
    NotEarlier(e.store);
    ImmatureFollows(e.store, e.aufs, 3, members, 21, 31);
  }

  lemma NotEarlier(store: History)
    requires Good(store)
    ensures !TieLess(store, 37, 31)
  {
    GoodMembers(store);
  }

  lemma NobodyLeads(e: Exec, members: set<Digest>, y: Digest)
    requires AtRelease(e, members) && y in members && y != 37
    ensures !Reach(VerdictGraph(e.aufs, 3, members), y, 37)
  {
    hide AtRelease, Wins;
    var g := VerdictGraph(e.aufs, 3, members);
    if Reach(g, y, 37) {
      var path :| IsPath(g, path, y, 37);
      PathHasEnds(g, path, y, 37);
      var z :| Edge(g, z, 37);
      NobodyWins(e, members, z);
      assert false;
    }
  }

  // ---------------------------------------------------------------------
  // The run
  // ---------------------------------------------------------------------

  lemma SecondStore(store: History, xs: seq<Certificate>, after: History)
    requires Good(store) && IsSecond(xs) && StoresAll(store, xs, after)
    ensures Good(after)
  {
    hide ParentsOf, Exists, Distinct;
    forall d | d in after && d !in store
      ensures Exists(d) && d >= 10 && after[d] == Cert(d)
    {
      assert d in Elements(Digests(xs));
      var i :| 0 <= i < |xs| && Digests(xs)[i] == d;
      assert xs[i] in xs;
    }
  }

  ghost predicate TwoBatches(inputs: seq<CommittedSubDag>) {
    && |inputs| == 2 && Legal(PARAMS, inputs)
    && IsFirst(inputs[0].certificates) && IsSecond(inputs[1].certificates)
  }

  lemma StoreAt(inputs: seq<CommittedSubDag>, n: nat)
    requires TwoBatches(inputs) && n < 2
    ensures Good(Undrained(PARAMS, inputs, n).store)
    ensures n == 1 ==> 82 in Undrained(PARAMS, inputs, n).store
  {
    hide Legal, StoresAll, Undrained, Run, Good, IsFirst, IsSecond, HorizonsStay, Extend;
    UndrainedStore(PARAMS, inputs, 0);
    assert inputs[..0] == [] && Run(PARAMS, []).store == map[] by {
      StartStore();
    }
    FirstStore(inputs[0].certificates, Undrained(PARAMS, inputs, 0).store);
    if n == 1 {
      UndrainedStore(PARAMS, inputs, 1);
      SecondStore(Run(PARAMS, inputs[..1]).store, inputs[1].certificates, Undrained(PARAMS, inputs, 1).store);
      Has82(Run(PARAMS, inputs[..1]).store, inputs[1].certificates, Undrained(PARAMS, inputs, 1).store);
    }
  }

  lemma StartStore()
    ensures Run(PARAMS, []).store == map[]
  {
  }

  lemma Has82(store: History, xs: seq<Certificate>, after: History)
    requires IsSecond(xs) && StoresAll(store, xs, after)
    ensures 82 in after
  {
    assert Cert(82) in xs;
  }

  /** The members of the first batch. */
  lemma FirstMembers(b: CommittedSubDag, d: Digest)
    requires IsFirst(b.certificates)
    ensures d in Elements(ExecutorRun.Members(b)) <==> Early(d) || d == 67
  {
    hide ParentsOf, Exists;
    var xs := b.certificates;
    if d in Elements(Digests(xs)) {
      var i :| 0 <= i < |xs| && Digests(xs)[i] == d;
      assert xs[i] in xs;
    }
    if Early(d) || d == 67 {
      var i :| 0 <= i < |xs| && xs[i] == Cert(d);
      assert Digests(xs)[i] == d;
    }
  }

  /** After the second batch the first one cannot still be waiting. */
  lemma FirstIsReleased(inputs: seq<CommittedSubDag>)
    requires TwoBatches(inputs)
    ensures |Run(PARAMS, inputs).released| >= 1 && Listed(inputs) != [] && Listed(inputs)[0] == inputs[0]
  {
    hide Legal, Run, IsFirst, IsSecond, Observed, Accounted, Good;
    ListedTwo(inputs);
    RunKeeps(PARAMS, inputs);
    SliceLocalConservation(PARAMS, inputs);
    var e := Run(PARAMS, inputs);
    if e.released == [] {
      assert inputs[0].batchIndex in e.batches;
      LowestIsNext(e, Listed(inputs));
      var d := BoundedWaiting(PARAMS, inputs);
      assert inputs[..2] == inputs;
      StoreAt(inputs, 1);
      UndrainedStore(PARAMS, inputs, 1);
      FrontierHigh(e);
      FirstMembers(inputs[0], d);
      RoundOf(e, d);
      assert false;
    }
  }

  lemma FrontierHigh(e: Exec)
    requires Observed(PARAMS, e) && Good(e.store) && 82 in e.store
    ensures e.frontier >= 8
  {
    hide ParentsOf, SeenExactly, HorizonsOk, Descending, Tracked;
    assert e.store[82] == Cert(82);
  }

  lemma RoundOf(e: Exec, d: Digest)
    requires Observed(PARAMS, e) && Good(e.store) && d in e.aufs && (Early(d) || d == 67)
    ensures e.aufs[d].round <= 6
  {
    hide ParentsOf, SeenExactly, HorizonsOk, Descending;
  }

  lemma ListedTwo(inputs: seq<CommittedSubDag>)
    requires |inputs| == 2 && IsFirst(inputs[0].certificates) && IsSecond(inputs[1].certificates)
    ensures Listed(inputs) == inputs && inputs[0].certificates != []
    ensures Listed(inputs[..1]) == inputs[..1]
  {
    Exists67();
    assert Cert(67) in inputs[0].certificates && Cert(82) in inputs[1].certificates;
    assert inputs[..1][..0] == [];
    assert Listed(inputs[..1]) == [] + [inputs[0]];
  }

  /** The state in which the first slice was released. */
  lemma ReleasedFirst(inputs: seq<CommittedSubDag>) returns (n: nat, e: Exec)
    requires TwoBatches(inputs)
    ensures n < 2 == |inputs| && |Run(PARAMS, inputs).released| >= 1
    ensures Draining(PARAMS, Undrained(PARAMS, inputs, n), e, Listed(inputs[..n + 1]), 0)
    ensures ReleasesNext(PARAMS, e, Run(PARAMS, inputs).released[0])
    ensures |Listed(inputs[..n + 1])| > 0 && Listed(inputs[..n + 1])[0] == inputs[0]
  {
    hide Legal, Run, IsFirst, IsSecond, Undrained, ReleasesNext, Draining, Listed;
    FirstIsReleased(inputs);
    n, e := SliceOrigin(PARAMS, inputs, 0);
    ListedTwo(inputs);
    assert inputs[..2] == inputs;
  }

  lemma ReleaseState(inputs: seq<CommittedSubDag>, n: nat, e: Exec, bs: seq<CommittedSubDag>, members: set<Digest>)
    requires TwoBatches(inputs) && n < 2 && Draining(PARAMS, Undrained(PARAMS, inputs, n), e, bs, 0)
    requires members == Elements(ExecutorRun.Members(inputs[0])) && members <= e.aufs.Keys && members <= e.store.Keys
    ensures AtRelease(e, members)
  {
    hide Legal, Run, IsFirst, IsSecond, Good, Undrained, Observed, Accounted, ExecutorRun.Members;
    StoreAt(inputs, n);
    FirstFrozen(inputs);
    FrozenUntilRelease(PARAMS, inputs, 0, n, e, bs, 0);
    forall d
      ensures d in members <==> Early(d) || d == 67
    {
      FirstMembers(inputs[0], d);
    }
    Exists67();
  }

  lemma RunOrder(inputs: seq<CommittedSubDag>)
    requires TwoBatches(inputs)
    ensures var slices := Run(PARAMS, inputs).released;
      |slices| >= 1 && slices[0].index == inputs[0].batchIndex && Before(Digests(slices[0].order), 31, 21)
  {
    hide TwoBatches, Run, Undrained, Before, BatchOrder, Observed, Accounted, ReleasesNext, AtRelease, Listed;
    hide ExecutorRun.Members;
    var n, e := ReleasedFirst(inputs);
    SliceOrder(PARAMS, e, Listed(inputs[..n + 1]), Run(PARAMS, inputs).released[0]);
    var members := Elements(ExecutorRun.Members(inputs[0]));
    ReleaseState(inputs, n, e, Listed(inputs[..n + 1]), members);
    OrderAt(e, members);
  }

  /** Whatever node of this history has committed the leaders 67 and 82, the executor run
      on what it committed executes 31 before its parent 21. */
  lemma DescendantFirst(a: Consensus)
    requires Committed82(a)
    ensures |a.output| == 2 && Legal(PARAMS, a.output)
    ensures var slices := Run(PARAMS, a.output).released;
      |slices| >= 1 && slices[0].index == 1 && Before(Digests(slices[0].order), 31, 21)
    ensures 31 in Hist() && 21 in Hist()[31].parents
  {
    hide Legal, Run, Before, IsFirst, IsSecond, WellFormed, Ledger.ViewSound, Ledger.OutputSound, Batches;
    hide LeaderSequence;
    FirstBatch(a);
    SecondBatch(a);
    BatchesNumbered(a);
    ConsensusFeedsExecutor(a, PARAMS);
    RunOrder(a.output);
    ExampleHistory.Stored(31);
    assert 21 == ParentsOf(31)[0];
  }

  lemma {:induction false} FirstSliceFirst(slices: seq<Slice>)
    requires slices != []
    ensures slices[0].order <= Outputs(slices)
  {
    var init := slices[..|slices| - 1];
    if init != [] {
      FirstSliceFirst(init);
    } else {
      assert Outputs(slices) == [] + slices[0].order;
    }
  }

  lemma BeforeInLonger(xs: seq<Certificate>, ys: seq<Certificate>, a: Digest, b: Digest)
    requires xs <= ys && Before(Digests(xs), a, b)
    ensures Before(Digests(ys), a, b)
  {
    var i, j :| 0 <= i < j < |xs| && Digests(xs)[i] == a && Digests(xs)[j] == b;
    assert Digests(ys)[i] == a && Digests(ys)[j] == b;
  }

  lemma InputsFit(inputs: seq<CommittedSubDag>)
    requires Legal(PARAMS, inputs) && |inputs| == 2 && inputs[0].certificates != []
    ensures AllAdmissible(START.store, inputs[0].certificates) && AboveAll([], inputs[0].batchIndex)
    ensures var e := Deliver(PARAMS, START, inputs[0]);
      && AllAdmissible(e.store, inputs[1].certificates) && AboveAll([inputs[0]], inputs[1].batchIndex)
      && Run(PARAMS, inputs) == Deliver(PARAMS, e, inputs[1])
  {
    hide AllAdmissible, Deliver, AboveAll;
    LegalMeans(PARAMS, inputs, 0);
    LegalMeans(PARAMS, inputs, 1);
    assert inputs[..1] == [inputs[0]] && inputs[..0] == [] && inputs[..1][..0] == [];
    assert Run(PARAMS, inputs[..1]) == Deliver(PARAMS, Run(PARAMS, []), inputs[0]);
    assert Listed([]) == [] && Listed(inputs[..1]) == Listed([]) + [inputs[0]] == [inputs[0]];
  }

  lemma Finished(inputs: seq<CommittedSubDag>, x: MrvExecutor)
    requires x.Valid() && x.View() == Run(PARAMS, inputs)
    requires var slices := Run(PARAMS, inputs).released; |slices| >= 1 && Before(Digests(slices[0].order), 31, 21)
    ensures Before(Digests(x.output), 31, 21)
  {
    hide Before, Run, Digests, Observed, Accounted, CapsApplied, Blocked;
    FirstSliceFirst(x.released);
    BeforeInLonger(x.released[0].order, x.output, 31, 21);
  }

  lemma ViewParts(x: MrvExecutor)
    ensures x.View().store == x.store
  {
  }

  /** The executor of a committee of seven, with a window cap of 2. */
  method RunExecutor(inputs: seq<CommittedSubDag>) returns (x: MrvExecutor)
    requires Legal(PARAMS, inputs) && |inputs| == 2 && inputs[0].certificates != [] && inputs[1].certificates != []
    ensures fresh(x) && x.Valid() && x.received == inputs && x.View() == Run(PARAMS, inputs)
  {
    hide Legal, Deliver, Run, AllAdmissible, Observed, Accounted, AboveAll, CapsApplied, Blocked, Outputs, FloorIs;
    InputsFit(inputs);
    x := new MrvExecutor(7, 2);
    ViewParts(x);
    x.OnCommittedBatch(inputs[0]);
    ViewParts(x);
    assert x.received == [inputs[0]];
    x.OnCommittedBatch(inputs[1]);
    assert x.received == inputs;
  }

  /** A node that is delivered the history, and its executor. */
  method RunNode(gcDepth: Round) returns (a: Consensus, x: MrvExecutor)
    ensures Committed82(a) && x.Valid() && x.received == a.output
    ensures Before(Digests(x.output), 31, 21) && 21 in Hist()[31].parents
  {
    hide *;
    a := RunConsensus(gcDepth);
    IsCommitted82(a);
    BothKept(a);
    DescendantFirst(a);
    x := RunExecutor(a.output);
    Finished(a.output, x);
  }

  lemma BothKept(a: Consensus)
    requires Committed82(a)
    ensures |a.output| == 2 && a.output[0].certificates != [] && a.output[1].certificates != []
  {
    hide Committed82, IsFirst;
    FirstBatch(a);
    SecondBatch(a);
  }

  lemma IsCommitted82(a: Consensus)
    requires a.Valid() && a.Clean() && Follows(a) && a.leaders == [Cert(67), Cert(82)]
    ensures Committed82(a)
  {
  }
}
