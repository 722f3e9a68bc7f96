/** What a certificate can do that comes back after it was cleaned up: four authorities of
    equal stake, every certificate names all four of the round before, and the certificate
    of author `o` in round `r` has digest `10r + o`. 23 is the leader of round 2 and 41 that
    of round 4. 13 is committed with 23, comes back, and is committed again with 41. */
module Redelivery {
  import opened Basics
  import opened Config
  import opened Dag
  import opened TuskState
  import opened SubDag
  import opened Ledger
  import opened Consensus

  const NAMES: set<PublicKey> := {1, 2, 3, 4}
  const COMMITTEE := Committee(map name | name in NAMES :: Authority(1, {}))

  function RoundRobin(r: Round): PublicKey {
    r % 4 + 1
  }

  predicate Exists(d: Digest) {
    1 <= d % 10 <= 4 && d < 80
  }

  function ParentsOf(d: Digest): seq<Digest> {
    if d < 10 then [] else
      var r := 10 * (d / 10 - 1);
      [r + 1, r + 2, r + 3, r + 4]
  }

  function Cert(d: Digest): Certificate {
    Certificate(d, d % 10, d / 10, ParentsOf(d))
  }

  ghost function Hist(): History {
    map d: Digest | d < 80 && Exists(d) :: Cert(d)
  }

  lemma Stored(d: Digest)
    ensures d in Hist() <==> Exists(d)
    ensures Exists(d) ==> Hist()[d] == Cert(d)
  {
  }

  lemma ParentIs(d: Digest, p: Digest)
    requires Exists(d) && d >= 10
    ensures p in ParentsOf(d) <==> Exists(p) && p / 10 + 1 == d / 10
  {
    var ps := ParentsOf(d);
    assert ps[0] in ps && ps[1] in ps && ps[2] in ps && ps[3] in ps;
    assert p in ps <==> p == ps[0] || p == ps[1] || p == ps[2] || p == ps[3];
  }

  lemma {:induction false} UnitStake(names: set<PublicKey>)
    requires names <= NAMES
    ensures COMMITTEE.StakeOf(names) == |names|
  {
    if names != {} {
      var name := Least(names);
      UnitStake(names - {name});
      assert |names - {name}| == |names| - 1;
    }
  }

  lemma Thresholds()
    ensures COMMITTEE.authorities.Keys == NAMES
    ensures COMMITTEE.StakeOf(NAMES) == 4 && COMMITTEE.QuorumThreshold() == 3 && COMMITTEE.ValidityThreshold() == 2
  {
    assert COMMITTEE.authorities.Keys == NAMES;
    UnitStake(NAMES);
    assert |NAMES| == 4;
  }

  lemma AllAreParents(d: Digest)
    requires Exists(d) && d >= 10
    ensures WellParented(Hist(), COMMITTEE, Cert(d))
  {
    hide Hist, ParentsOf;
    forall p: Digest
      ensures p in ParentsOf(d) <==> Exists(p) && p / 10 + 1 == d / 10
      ensures p in Hist() <==> Exists(p)
      ensures Exists(p) ==> Hist()[p] == Cert(p)
    {
      ParentIs(d, p);
      Stored(p);
    }
    var origins := ParentOrigins(Hist(), Cert(d));
    forall name | name in NAMES
      ensures name in origins
    {
      var p := 10 * (d / 10 - 1) + name;
      assert p in ParentsOf(d) && Hist()[p].origin == name;
    }
    assert origins == NAMES;
    Thresholds();
  }

  lemma HistoryIsWellFormed()
    ensures WellFormed(Hist(), COMMITTEE)
  {
    hide Hist, ParentsOf, WellParented;
    Thresholds();
    forall d
      ensures d in Hist() <==> Exists(d)
      ensures Exists(d) ==> Hist()[d] == Cert(d)
    {
      Stored(d);
    }
    forall d | d in Hist() && Hist()[d].round > 0
      ensures WellParented(Hist(), COMMITTEE, Hist()[d])
    {
      AllAreParents(d);
    }
    forall d | d in Hist() && Hist()[d].round == 0
      ensures Hist()[d].parents == []
    {
      GenesisHasNoParents(d);
    }
  }

  lemma GenesisHasNoParents(d: Digest)
    requires d < 10
    ensures ParentsOf(d) == []
  {
  }

  // ---------------------------------------------------------------------
  // The leaders
  // ---------------------------------------------------------------------

  /** Each certificate reaches all of the round below. */
  lemma ReachesBelow(d: Digest, p: Digest)
    requires Exists(d) && Exists(p) && p / 10 + 1 == d / 10
    ensures Reaches(Hist(), Cert(d), Cert(p))
  {
    hide Hist, ParentsOf;
    Stored(p);
    ParentIs(d, p);
    ReachesItself(Hist(), Cert(p));
  }

  lemma LeaderIs(r: Round, x: Certificate)
    requires IsLeaderAt(Hist(), RoundRobin, r, x)
    ensures (r == 2 ==> x == Cert(23)) && (r == 4 ==> x == Cert(41))
  {
    Stored(x.digest);
  }

  lemma Leaders()
    ensures IsLeaderAt(Hist(), RoundRobin, 2, Cert(23)) && IsLeaderAt(Hist(), RoundRobin, 4, Cert(41))
  {
    Stored(23);
    Stored(41);
  }

  lemma LeaderSequences()
    ensures LeaderSequence(Hist(), RoundRobin, Cert(23)) == [Cert(23)]
    ensures LeaderSequence(Hist(), RoundRobin, Cert(41)) == [Cert(23), Cert(41)]
  {
    hide Reaches, Hist, WellFormed, Walk, IsLeaderAt, ParentsOf;
    HistoryIsWellFormed();
    Leaders();
    ReachesBelow(41, 31);
    ReachesBelow(31, 23);
    ReachesTransitive(Hist(), Cert(41), Cert(31), Cert(23));
    WalkPicks(Hist(), COMMITTEE, RoundRobin, Cert(41), 2, 2, Cert(23));
    WalkEnds(Cert(23));
  }

  lemma WalkEnds(x: Certificate)
    ensures Walk(Hist(), RoundRobin, x, 0, 2) == []
  {
  }

  // ---------------------------------------------------------------------
  // When a commit is due
  // ---------------------------------------------------------------------

  ghost function Below(d: Digest): set<Digest> {
    set x: Digest | x < d && x < 80 && Exists(x)
  }

  ghost predicate Follows(a: Consensus) {
    a.history == Hist() && a.committee == COMMITTEE && a.leaderOf == RoundRobin
  }

  lemma DeliveryFits(a: Consensus, d: Digest)
    requires Follows(a) && Exists(d) && 10 <= d && Below(d) <= a.delivered
    ensures Known(a.history, Cert(d)) && forall p :: p in Cert(d).parents ==> p in a.delivered
    ensures Below(d + 1) <= a.delivered + {Cert(d).digest}
  {
    hide Hist, ParentsOf;
    Stored(d);
    forall p | p in ParentsOf(d)
      ensures p in Below(d)
    {
      ParentIs(d, p);
    }
  }

  /** A leader is supported once the round above it is delivered. */
  lemma Supports(delivered: set<Digest>, leader: Digest)
    requires Exists(leader) && leader < 70 && Below(10 * (leader / 10) + 20) <= delivered
    ensures COMMITTEE.StakeOf(SupportersIn(Hist(), delivered, Cert(leader))) >= COMMITTEE.ValidityThreshold()
  {
    hide Hist, ParentsOf, Committee.StakeOf, Committee.ValidityThreshold;
    var supporters := SupportersIn(Hist(), delivered, Cert(leader));
    forall name | name in NAMES
      ensures name in supporters
    {
      var d := 10 * (leader / 10) + 10 + name;
      Stored(d);
      ParentIs(d, leader);
      assert d in Below(10 * (leader / 10) + 20) && Hist()[d].round == Cert(leader).round + 1;
    }
    forall d | d in Hist()
      ensures Hist()[d].origin in NAMES
    {
      Stored(d);
    }
    assert supporters == NAMES;
    Thresholds();
  }

  lemma NoneDue(a: Consensus, lastRound: Round, r: int)
    requires r < 2 || r % 2 != 0 || r <= lastRound
    ensures NoCommitDue(a.history, a.committee, a.leaderOf, a.delivered, lastRound, r)
  {
  }

  lemma IsDue(a: Consensus, lastRound: Round, leader: Digest)
    requires Follows(a) && leader in {23, 41} && lastRound < Cert(leader).round
    requires Below(10 * (leader / 10) + 20) <= a.delivered
    ensures CommitDue(a.history, a.committee, a.leaderOf, a.delivered, lastRound, Cert(leader).round, Cert(leader))
  {
    hide Hist, SupportersIn, Committee.StakeOf, Committee.ValidityThreshold;
    Supports(a.delivered, leader);
    Leaders();
    assert leader in Below(10 * (leader / 10) + 20);
  }

  // ---------------------------------------------------------------------
  // Memory
  // ---------------------------------------------------------------------

  /** 13 has been committed and cleaned up; its child 21 has not. */
  ghost predicate Committed23(v: View) {
    && v.lastCommittedRound == 2 && 3 in v.lastCommitted && v.lastCommitted[3] == 2
    && (1 in v.lastCommitted ==> v.lastCommitted[1] <= 1)
    && Holds(v.dag, Cert(21)) && Holds(v.dag, Cert(31))
  }

  lemma FirstCommit(v: View, w: View, delivered: set<Digest>, b: CommittedSubDag, gcDepth: Round)
    requires ViewSound(Hist(), delivered, v) && Below(51) <= delivered && v.lastCommittedRound == 0
    requires Turn(v, w, Cert(51), [Cert(23)], [b], gcDepth)
    ensures Committed23(w)
  {
    hide ViewSound, Hist, ParentsOf, CommitsAll, Flattened, Commits;
    HistoryIsWellFormed();
    Stored(51);
    var u :| Inserted(v, u, Cert(51)) && Commits(u, w, [Cert(23)], [b], gcDepth);
    CommitsOnce(u, w, Cert(23), b, gcDepth);
    forall p | p in Cert(51).parents
      ensures p in delivered
    {
      ParentIs(51, p);
      assert p in Below(51);
    }
    InsertKeepsView(Hist(), COMMITTEE, delivered, v, u, Cert(51));
    AfterFirst(u, w, delivered + {51}, b.certificates, gcDepth);
  }

  lemma CommitsOnce(u: View, w: View, leader: Certificate, b: CommittedSubDag, gcDepth: Round)
    requires Commits(u, w, [leader], [b], gcDepth)
    ensures Flattened(u, leader, gcDepth, b.certificates) && CommitsAll(u, w, b.certificates, gcDepth)
  {
    hide Flattened, CommitsAll;
    assert [leader][..0] == [] && [b][..0] == [];
  }

  lemma AfterFirst(u: View, w: View, delivered: set<Digest>, xs: seq<Certificate>, gcDepth: Round)
    requires ViewSound(Hist(), delivered, u) && Below(51) <= delivered && u.lastCommittedRound == 0
    requires Flattened(u, Cert(23), gcDepth, xs) && CommitsAll(u, w, xs, gcDepth)
    ensures Committed23(w)
  {
    hide ViewSound, Hist, ParentsOf, Flattened, CommitsAll, Batch, Holds, Cleaned, IsMaximum, RaiseAll;
    FirstBatchFits(u, delivered, xs, gcDepth);
    CommitRound(Hist(), delivered, u, w, Cert(23), gcDepth, xs);
    RoundsAfter(u, w, delivered, xs, gcDepth);
    Survivor(u, w, gcDepth, 21);
    Survivor(u, w, gcDepth, 31);
  }

  lemma FirstBatchFits(u: View, delivered: set<Digest>, xs: seq<Certificate>, gcDepth: Round)
    requires ViewSound(Hist(), delivered, u) && Below(51) <= delivered && u.lastCommittedRound == 0
    requires Flattened(u, Cert(23), gcDepth, xs)
    ensures Batch(Hist(), delivered, u, Cert(23), gcDepth, xs)
    ensures Holds(u.dag, Cert(21)) && Holds(u.dag, Cert(31))
  {
    hide Hist, ParentsOf, Closed, Faithful, RoundsBounded, Flattened;
    Stored(23);
    Stored(21);
    Stored(31);
    assert {21, 23, 31} <= Below(51);
  }

  lemma RoundsAfter(u: View, w: View, delivered: set<Digest>, xs: seq<Certificate>, gcDepth: Round)
    requires ViewSound(Hist(), delivered, u) && u.lastCommittedRound == 0
    requires Batch(Hist(), delivered, u, Cert(23), gcDepth, xs) && CommitsAll(u, w, xs, gcDepth)
    requires RoundsBounded(w) && w.lastCommittedRound == 2
    ensures 3 in w.lastCommitted && w.lastCommitted[3] == 2 && (1 in w.lastCommitted ==> w.lastCommitted[1] <= 1)
  {
    hide Hist, ParentsOf, Flattened, RaiseAll, Closed, Faithful, FrontierKept, Cleaned, IsMaximum;
    BatchLeader(u, Cert(23), gcDepth, xs);
    RaiseAllBounds(u.lastCommitted, xs);
    forall x | x in xs && x.origin == 1
      ensures x.round <= 1
    {
      BatchMember(Hist(), delivered, u, Cert(23), gcDepth, xs, x);
    }
  }

  lemma Survivor(u: View, w: View, gcDepth: Round, d: Digest)
    requires d in {21, 31} && Holds(u.dag, Cert(d)) && Cleaned(u, w, gcDepth) && w.lastCommittedRound == 2
    requires 1 in w.lastCommitted ==> w.lastCommitted[1] <= 1
    ensures Holds(w.dag, Cert(d))
  {
    hide ParentsOf;
    assert Survives(w, Cert(d).round, Cert(d).origin, gcDepth);
  }

  /** Another delivery leaves all this in memory, and 13 once it is back. */
  lemma StaysInMemory(v: View, w: View, x: Certificate, gcDepth: Round)
    requires Committed23(v) && Turn(v, w, x, [], [], gcDepth)
    requires x.round != 2 && x.round != 3 && (x.round == 1 ==> x == Cert(13))
    ensures Committed23(w) && (Holds(v.dag, Cert(13)) || x == Cert(13) ==> Holds(w.dag, Cert(13)))
  {
    hide ParentsOf, Commits;
    var u :| Inserted(v, u, x) && Commits(u, w, [], [], gcDepth);
    assert w == u by {
      CommitsNothing(u, w, gcDepth);
    }
  }

  lemma CommitsNothing(u: View, w: View, gcDepth: Round)
    requires Commits(u, w, [], [], gcDepth)
    ensures w == u
  {
  }

  /** Then the traversal from the next leader goes down to 13 again. */
  lemma StepsDown(v: View, u: View)
    requires Committed23(v) && Holds(v.dag, Cert(13)) && Inserted(v, u, Cert(71))
    ensures Step(u, Cert(41), Cert(31)) && Step(u, Cert(31), Cert(21)) && Step(u, Cert(21), Cert(13))
    ensures u.lastCommittedRound == 2
  {
    hide ParentsOf;
    ParentIs(41, 31);
    ParentIs(31, 21);
    ParentIs(21, 13);
  }

  lemma CommittedAgain(v: View, w: View, b: CommittedSubDag, gcDepth: Round)
    requires Committed23(v) && Holds(v.dag, Cert(13)) && gcDepth >= 1
    requires Turn(v, w, Cert(71), [Cert(41)], [b], gcDepth)
    ensures Cert(13) in b.certificates
  {
    hide ParentsOf, CommitsAll, Commits, Committed23, Holds, Inserted, Step, Flows;
    var u :| Inserted(v, u, Cert(71)) && Commits(u, w, [Cert(41)], [b], gcDepth);
    CommitsOnce(u, w, Cert(41), b, gcDepth);
    StepsDown(v, u);
    FlowsItself(u, Cert(41));
    FlowsSnoc(u, Cert(41), Cert(41), Cert(31));
    FlowsSnoc(u, Cert(41), Cert(31), Cert(21));
    FlowsSnoc(u, Cert(41), Cert(21), Cert(13));
  }

  lemma FlowsItself(v: View, a: Certificate)
    ensures Flows(v, a, a)
  {
  }

  // ---------------------------------------------------------------------
  // The run
  // ---------------------------------------------------------------------

  function GenesisOf(): map<PublicKey, Certificate> {
    map name | name in NAMES :: Cert(name)
  }

  lemma StartFits()
    ensures WellFormed(Hist(), COMMITTEE) && GenesisOf().Keys == COMMITTEE.authorities.Keys
    ensures forall name :: name in GenesisOf() ==>
      Known(Hist(), GenesisOf()[name]) && GenesisOf()[name].round == 0 && GenesisOf()[name].origin == name
  {
    hide WellFormed, Hist, ParentsOf;
    HistoryIsWellFormed();
    Thresholds();
    forall name | name in NAMES
      ensures name in Hist() && Hist()[name] == Cert(name) && Cert(name).round == 0 && Cert(name).origin == name
    {
      Stored(name);
    }
  }

  lemma Started(a: Consensus)
    requires a.history == Hist() && a.committee == COMMITTEE && a.leaderOf == RoundRobin
    requires a.delivered == set name | name in GenesisOf() :: GenesisOf()[name].digest
    ensures Follows(a) && Below(10) <= a.delivered
  {
    forall d | d in Below(10)
      ensures d in a.delivered
    {
      assert GenesisOf()[d].digest == d;
    }
  }

  lemma NextBelow(d: Digest)
    ensures !Exists(d) ==> Below(d + 1) == Below(d)
  {
  }

  lemma Place(d: Digest)
    requires 10 <= d < 80
    ensures Cert(d).digest == d && (Exists(d) && d < 51 ==> Cert(d).round <= 4)
    ensures Exists(d) && 51 < d <= 70 ==> Cert(d).round == 5 || Cert(d).round == 6
    ensures Exists(51) && Exists(13) && Exists(71) && Cert(51).round == 5 && Cert(13).round == 1 && Cert(71).round == 7
  {
  }

  /** Rounds 1 to 4. */
  method DeliverFour(gcDepth: Round) returns (a: Consensus)
    ensures fresh(a) && fresh(a.state) && a.Valid() && Follows(a) && a.gcDepth == gcDepth
    ensures Below(51) <= a.delivered && a.leaders == [] && a.output == []
  {
    hide *;
    StartFits();
    a := new Consensus(COMMITTEE, gcDepth, RoundRobin, GenesisOf(), Hist());
    Started(a);
    var d := 10;
    while d < 51
      invariant 10 <= d <= 51 && fresh(a) && fresh(a.state) && a.Valid() && Follows(a) && a.gcDepth == gcDepth
      invariant Below(d) <= a.delivered && a.leaders == [] && a.output == []
      modifies a, a.state
    {
      Place(d);
      NextBelow(d);
      if Exists(d) {
        DeliveryFits(a, d);
        ghost var lastRound := a.state.lastCommittedRound;
        a.Process(Cert(d));
        NoneDue(a, lastRound, Cert(d).round - 3);
      }
      d := d + 1;
    }
  }

  /** What a node has that committed 23 and got 13 back. */
  ghost predicate GotBack(a: Consensus)
    reads a, a.state
  {
    && a.Valid() && Follows(a) && a.leaders == [Cert(23)]
    && Committed23(a.state.Snapshot()) && Holds(a.state.dag, Cert(13))
  }

  lemma NothingCommitted(a: Consensus)
    requires a.Valid() && Follows(a) && a.leaders == []
    ensures ViewSound(Hist(), a.delivered, a.state.Snapshot()) && a.state.lastCommittedRound == 0
  {
    hide WellFormed, ViewSound, Batches;
    a.FloorIsLast();
  }

  lemma FirstCommitted(a: Consensus, before: View, delivered: set<Digest>, leaders: seq<Certificate>,
      output: seq<CommittedSubDag>)
    requires a.Valid() && Follows(a) && leaders == [] && output == []
    requires ViewSound(Hist(), delivered, before) && before.lastCommittedRound == 0 && Below(51) <= delivered
    requires delivered <= a.delivered
    requires forall x :: CommitDue(a.history, a.committee, a.leaderOf, a.delivered, before.lastCommittedRound,
      Cert(51).round - 3, x) ==>
      a.leaders == LeaderSequence(a.history, a.leaderOf, x)
    requires Turn(before, a.state.Snapshot(), Cert(51), a.leaders[|leaders|..], a.output[|output|..], a.gcDepth)
    ensures a.leaders == [Cert(23)] && |a.output| == 1 && Committed23(a.state.Snapshot())
  {
    hide WellFormed, ViewSound, LeaderSequence, CommitDue, Turn, Committed23, ParentsOf, Hist, Batches;
    IsDue(a, before.lastCommittedRound, 23);
    LeaderSequences();
    BatchesNumbered(a);
    assert a.leaders[0..] == [Cert(23)] && a.output[0..] == [a.output[0]];
    FirstCommit(before, a.state.Snapshot(), delivered, a.output[0], a.gcDepth);
  }

  lemma FitsAgain(a: Consensus)
    requires Follows(a) && Below(51) <= a.delivered
    ensures Known(a.history, Cert(13)) && forall p :: p in Cert(13).parents ==> p in a.delivered
  {
    DeliveryFits(a, 13);
  }

  /** A delivery that commits nothing. */
  lemma StillThere(a: Consensus, before: View, leaders: seq<Certificate>, output: seq<CommittedSubDag>, x: Certificate)
    requires a.Valid() && Follows(a) && a.leaders == leaders == [Cert(23)] && a.output == output
    requires Committed23(before) && (x == Cert(13) || Holds(before.dag, Cert(13)))
    requires x.round != 2 && x.round != 3 && (x.round == 1 ==> x == Cert(13))
    requires Turn(before, a.state.Snapshot(), x, a.leaders[|leaders|..], a.output[|output|..], a.gcDepth)
    ensures GotBack(a)
  {
    hide WellFormed, Turn, Committed23, ParentsOf, Hist, Batches, Holds, ViewSound;
    assert a.leaders[|leaders|..] == [] && a.output[|output|..] == [];
    StaysInMemory(before, a.state.Snapshot(), x, a.gcDepth);
  }

  /** Round 5 commits 23 and with it 13; then 13 is delivered again. */
  method DeliverAgain(a: Consensus)
    requires a.Valid() && Follows(a) && Below(51) <= a.delivered && a.leaders == [] && a.output == []
    modifies a, a.state
    ensures GotBack(a) && Below(52) <= a.delivered && |a.output| == 1
  {
    hide *;
    Place(51);
    DeliveryFits(a, 51);
    NothingCommitted(a);
    SnapshotRound(a);
    ghost var v, delivered, leaders, output := a.state.Snapshot(), a.delivered, a.leaders, a.output;
    a.Process(Cert(51));
    FirstCommitted(a, v, delivered, leaders, output);
    FitsAgain(a);
    Place(13);
    SnapshotRound(a);
    v, leaders, output := a.state.Snapshot(), a.leaders, a.output;
    a.Process(Cert(13));
    NoneDue(a, v.lastCommittedRound, Cert(13).round - 3);
    StillThere(a, v, leaders, output, Cert(13));
  }

  lemma SnapshotRound(a: Consensus)
    ensures a.state.Snapshot().lastCommittedRound == a.state.lastCommittedRound
    ensures Committed23(a.state.Snapshot()) ==> a.state.lastCommittedRound == 2
  {
  }

  lemma GotBackMeans(a: Consensus)
    requires GotBack(a)
    ensures a.Valid() && Follows(a) && a.leaders == [Cert(23)] && Committed23(a.state.Snapshot())
    ensures Holds(a.state.Snapshot().dag, Cert(13)) && a.state.lastCommittedRound == 2
  {
  }

  /** The rest of round 5, and round 6. */
  method DeliverRest(a: Consensus)
    requires GotBack(a) && Below(52) <= a.delivered && |a.output| == 1
    modifies a, a.state
    ensures GotBack(a) && Below(71) <= a.delivered && |a.output| == 1
  {
    hide *;
    var d := 52;
    while d < 71
      invariant 52 <= d <= 71 && GotBack(a) && Below(d) <= a.delivered && |a.output| == 1
      modifies a, a.state
    {
      Place(d);
      NextBelow(d);
      if Exists(d) {
        GotBackMeans(a);
        DeliveryFits(a, d);
        SnapshotRound(a);
        ghost var v, leaders, output := a.state.Snapshot(), a.leaders, a.output;
        a.Process(Cert(d));
        NoneDue(a, v.lastCommittedRound, Cert(d).round - 3);
        StillThere(a, v, leaders, output, Cert(d));
      }
      d := d + 1;
    }
  }

  lemma SecondCommitted(a: Consensus, before: View, leaders: seq<Certificate>, output: seq<CommittedSubDag>)
    requires a.Valid() && Follows(a) && leaders == [Cert(23)] && |output| == 1 && a.gcDepth >= 1
    requires leaders <= a.leaders && output <= a.output
    requires Committed23(before) && Holds(before.dag, Cert(13)) && Below(71) <= a.delivered
    requires forall x :: CommitDue(a.history, a.committee, a.leaderOf, a.delivered, before.lastCommittedRound,
      Cert(71).round - 3, x) ==>
      a.leaders == LeaderSequence(a.history, a.leaderOf, x)
    requires Turn(before, a.state.Snapshot(), Cert(71), a.leaders[|leaders|..], a.output[|output|..], a.gcDepth)
    ensures |a.output| == 2 && Cert(13) in a.output[0].certificates && Cert(13) in a.output[1].certificates
  {
    hide WellFormed, ViewSound, LeaderSequence, CommitDue, Turn, ParentsOf, Hist, Batches, Holds;
    IsDue(a, before.lastCommittedRound, 41);
    LeaderSequences();
    BatchesNumbered(a);
    assert a.leaders[1..] == [Cert(41)] && a.output[1..] == [a.output[1]];
    CommittedAgain(before, a.state.Snapshot(), a.output[1], a.gcDepth);
    CommittedFirst(a);
  }

  lemma CommittedFirst(a: Consensus)
    requires a.Valid() && Follows(a) && a.leaders != [] && a.leaders[0] == Cert(23)
    ensures a.output != [] && Cert(13) in a.output[0].certificates
  {
    hide WellFormed, ViewSound, LeaderSequence, ParentsOf, Hist, SortedByRound, Reaches;
    assert BatchAt(a.history, a.output, a.leaders, 0);
    ReachesBelow(23, 13);
  }

  /** With any depth of at least 1: a certificate that was committed, cleaned up and
      delivered again is output twice. */
  method OutputTwice(gcDepth: Round) returns (a: Consensus)
    requires gcDepth >= 1
    ensures a.Valid() && Follows(a) && a.gcDepth == gcDepth && |a.output| == 2
    ensures Cert(13) in a.output[0].certificates && Cert(13) in a.output[1].certificates
    ensures !Distinct(Flatten(a.output)) && !a.Clean()
  {
    hide *;
    a := DeliverFour(gcDepth);
    DeliverAgain(a);
    DeliverRest(a);
    GotBackMeans(a);
    SnapshotRound(a);
    Place(71);
    DeliveryFits(a, 71);
    ghost var v, leaders, output := a.state.Snapshot(), a.leaders, a.output;
    a.Process(Cert(71));
    SecondCommitted(a, v, leaders, output);
    NotClean(a);
  }

  lemma NotClean(a: Consensus)
    requires a.Valid() && |a.output| == 2
    requires Cert(13) in a.output[0].certificates && Cert(13) in a.output[1].certificates
    ensures !Distinct(Flatten(a.output)) && !a.Clean()
  {
    hide WellFormed, ViewSound, Batches, ParentsOf;
    var xs, ys := a.output[0].certificates, a.output[1].certificates;
    FlattenTwo(a.output);
    var i :| 0 <= i < |xs| && xs[i] == Cert(13);
    var j :| 0 <= j < |ys| && ys[j] == Cert(13);
    assert (xs + ys)[i] == (xs + ys)[|xs| + j];
    if a.Clean() {
      NoDoubleCommit(a);
      assert false;
    }
  }
}
