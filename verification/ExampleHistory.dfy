/** A history of seven authorities of equal stake, and a node that commits two leaders of
    it. The certificate of author `o` in round `r` has digest `10r + o`. */
module ExampleHistory {
  import opened Basics
  import opened Config
  import opened Dag
  import SubDag
  import Ledger
  import Pipeline
  import CommitRule
  import opened Consensus

  const NAMES: set<PublicKey> := {1, 2, 3, 4, 5, 6, 7}
  const COMMITTEE := Committee(map name | name in NAMES :: Authority(1, {}))

  /** Round-robin over the sorted names. */
  function RoundRobin(r: Round): PublicKey {
    r % 7 + 1
  }

  /** Who has a certificate in which round. */
  predicate Proposes(o: PublicKey, r: Round) {
    if r == 0 || r == 3 then 1 <= o <= 7
    else if r == 2 then o in {1, 2, 4, 5, 6, 7}
    else if r == 4 then o in {1, 2, 3, 4, 6, 7}
    else if r == 6 then o in {1, 2, 3, 4, 7}
    else if r == 11 then o == 1
    else r <= 10 && 1 <= o <= 5
  }

  predicate Exists(d: Digest) {
    Proposes(d % 10, d / 10)
  }

  /** 21 has only the children 31 and 32; 31 has only the child 41, and 41 only 51. */
  function ParentsOf(d: Digest): seq<Digest> {
    if d < 10 then []
    else if d < 20 then [1, 2, 3, 4, 5]
    else if d < 30 then [11, 12, 13, 14, 15]
    else if d < 33 then [21, 22, 24, 25, 26]
    else if d < 40 then [22, 24, 25, 26, 27]
    else if d == 41 then [31, 34, 35, 36, 37]
    else if d == 42 then [32, 34, 35, 36, 37]
    else if d < 50 then [33, 34, 35, 36, 37]
    else if d == 51 then [41, 43, 44, 46, 47]
    else if d < 60 then [42, 43, 44, 46, 47]
    else if d < 70 then [51, 52, 53, 54, 55]
    else if d < 80 then [61, 62, 63, 64, 67]
    else if d < 90 then [71, 72, 73, 74, 75]
    else if d < 100 then [81, 82, 83, 84, 85]
    else if d < 110 then [91, 92, 93, 94, 95]
    else [101, 102, 103, 104, 105]
  }

  function Cert(d: Digest): Certificate {
    Certificate(d, d % 10, d / 10, ParentsOf(d))
  }

  ghost function Hist(): History {
    map d: Digest | d <= 111 && Exists(d) :: Cert(d)
  }

  lemma Stored(d: Digest)
    ensures d in Hist() <==> Exists(d)
    ensures Exists(d) ==> Hist()[d] == Cert(d) && d <= 111
  {
  }

  lemma ParentsExist(d: Digest, p: Digest)
    requires Exists(d) && p in ParentsOf(d)
    ensures Exists(p) && p / 10 + 1 == d / 10
  {
  }

  lemma FiveParents(d: Digest)
    requires Exists(d) && d >= 10
    ensures |ParentsOf(d)| == 5
    ensures forall i, j :: 0 <= i < j < 5 ==> ParentsOf(d)[i] % 10 != ParentsOf(d)[j] % 10
  {
  }

  // ---------------------------------------------------------------------
  // The history is well-formed
  // ---------------------------------------------------------------------

  lemma {:induction false} UnitStake(names: set<PublicKey>)
    requires names <= NAMES
    ensures COMMITTEE.StakeOf(names) == |names|
  {
    if names != {} {
      var name := Least(names);
      UnitStake(names - {name});
      assert |names - {name}| == |names| - 1;
    }
  }

  lemma Thresholds()
    ensures COMMITTEE.authorities.Keys == NAMES
    ensures COMMITTEE.QuorumThreshold() == 5 && COMMITTEE.ValidityThreshold() == 3
  {
    assert COMMITTEE.authorities.Keys == NAMES;
    UnitStake(NAMES);
    assert |NAMES| == 7;
  }

  lemma QuorumOfParents(d: Digest)
    requires Exists(d) && d >= 10
    ensures WellParented(Hist(), COMMITTEE, Cert(d))
  {
    hide Hist, ParentsOf, Committee.QuorumThreshold;
    var ps := ParentsOf(d);
    FiveParents(d);
    forall p | p in ps
      ensures p in Hist() && Hist()[p] == Cert(p) && p / 10 + 1 == d / 10 && p % 10 in NAMES
    {
      ParentsExist(d, p);
      Stored(p);
    }
    var origins := ParentOrigins(Hist(), Cert(d));
    forall i | 0 <= i < 5
      ensures ps[i] % 10 in origins
    {
      assert ps[i] in Cert(d).parents;
    }
    AtLeastFive(ps, origins);
    UnitStake(origins);
    Thresholds();
  }

  lemma AtLeastFive(ps: seq<Digest>, origins: set<PublicKey>)
    requires |ps| == 5 && forall i, j :: 0 <= i < j < 5 ==> ps[i] % 10 != ps[j] % 10
    requires forall i :: 0 <= i < 5 ==> ps[i] % 10 in origins
    ensures |origins| >= 5
  {
    var a, b, c, d, e := ps[0] % 10, ps[1] % 10, ps[2] % 10, ps[3] % 10, ps[4] % 10;
    FiveDistinct(a, b, c, d, e);
    SubsetSize({a, b, c, d, e}, origins);
  }

  lemma FiveDistinct(a: nat, b: nat, c: nat, d: nat, e: nat)
    requires a != b && a != c && a != d && a != e && b != c && b != d && b != e && c != d && c != e && d != e
    ensures |{a, b, c, d, e}| == 5
  {
    assert |{a, b, c, d, e} - {e}| == 4 by {
      assert {a, b, c, d, e} - {e} == {a, b, c, d};
    }
  }

  lemma HistoryIsWellFormed()
    ensures WellFormed(Hist(), COMMITTEE)
  {
    hide Hist, ParentsOf, WellParented;
    Thresholds();
    forall d
      ensures d in Hist() <==> Exists(d)
      ensures Exists(d) ==> Hist()[d] == Cert(d)
    {
      Stored(d);
    }
    forall d | d in Hist() && Hist()[d].round > 0
      ensures WellParented(Hist(), COMMITTEE, Hist()[d])
    {
      QuorumOfParents(d);
    }
    forall d | d in Hist() && Hist()[d].round == 0
      ensures Hist()[d].parents == []
    {
      GenesisHasNoParents(d);
    }
  }

  lemma GenesisHasNoParents(d: Digest)
    requires d < 10
    ensures ParentsOf(d) == []
  {
  }

  // ---------------------------------------------------------------------
  // The leaders
  // ---------------------------------------------------------------------

  predicate Early(d: Digest) {
    Exists(d) && 10 <= d < 60
  }

  /** Some child, up to the leader of round 6. */
  function Child(d: Digest): Digest {
    if d < 20 then 21
    else if d == 27 then 33 else if d < 30 then 31
    else if d == 31 then 41 else if d == 32 then 42 else if d < 40 then 43
    else if d == 42 then 52 else if d < 50 then 51
    else 67
  }

  lemma ChildLists(d: Digest)
    requires Early(d)
    ensures d in ParentsOf(Child(d)) && Exists(Child(d)) && Child(d) / 10 == d / 10 + 1
    ensures Early(Child(d)) || Child(d) == 67
  {
    var ps := ParentsOf(Child(d));
    assert |ps| == 5 && ps[0] in ps && ps[1] in ps && ps[2] in ps && ps[3] in ps && ps[4] in ps;
  }

  /** The leader of round 6 reaches everything from round 1 to 5. */
  lemma {:induction false} EarlyReached(d: Digest)
    requires Early(d)
    ensures Reaches(Hist(), Cert(67), Cert(d))
    decreases 60 - d
  {
    hide Reaches, Hist, ParentsOf;
    ChildLists(d);
    var y := Child(d);
    Stored(d);
    if y == 67 {
      ReachesItself(Hist(), Cert(67));
    } else {
      EarlyReached(y);
    }
    LinkExtends(Hist(), Cert(67), Cert(y), Cert(d));
  }

  lemma LeaderLinked()
    ensures Reaches(Hist(), Cert(82), Cert(67))
  {
    hide Reaches, Hist;
    Stored(71);
    Stored(67);
    ReachesItself(Hist(), Cert(82));
    assert 71 == ParentsOf(82)[0] && 67 == ParentsOf(71)[4];
    LinkExtends(Hist(), Cert(82), Cert(82), Cert(71));
    LinkExtends(Hist(), Cert(82), Cert(71), Cert(67));
  }

  lemma LeaderIs(r: Round, x: Certificate)
    requires IsLeaderAt(Hist(), RoundRobin, r, x)
    ensures r != 2 && r != 4 && (r == 6 ==> x == Cert(67)) && (r == 8 ==> x == Cert(82))
  {
    Stored(x.digest);
  }

  lemma Leaders()
    ensures IsLeaderAt(Hist(), RoundRobin, 6, Cert(67)) && IsLeaderAt(Hist(), RoundRobin, 8, Cert(82))
  {
    Stored(67);
    Stored(82);
  }

  lemma LeadersOf82()
    ensures LeaderSequence(Hist(), RoundRobin, Cert(82)) == [Cert(67), Cert(82)]
  {
    hide Reaches, Hist, WellFormed, Walk, IsLeaderAt;
    HistoryIsWellFormed();
    Leaders();
    LeaderLinked();
    WalkPicks(Hist(), COMMITTEE, RoundRobin, Cert(82), 6, 2, Cert(67));
    forall r: Round, x | IsLeaderAt(Hist(), RoundRobin, r, x)
      ensures r != 2 && r != 4
    {
      LeaderIs(r, x);
    }
    CommitRule.WalkSkips(Hist(), COMMITTEE, RoundRobin, Cert(67), 4, 2);
    CommitRule.WalkSkips(Hist(), COMMITTEE, RoundRobin, Cert(67), 2, 2);
    WalkEnds(Cert(67));
  }

  lemma WalkEnds(x: Certificate)
    ensures Walk(Hist(), RoundRobin, x, 0, 2) == []
  {
  }

  // ---------------------------------------------------------------------
  // A node that is delivered the whole history
  // ---------------------------------------------------------------------

  ghost function Below(d: Digest): set<Digest> {
    set x: Digest | x < d && x <= 111 && Exists(x)
  }

  ghost predicate Follows(a: Consensus) {
    a.history == Hist() && a.committee == COMMITTEE && a.leaderOf == RoundRobin
  }

  /** The committed leaders end below the given round. */
  ghost predicate EndBelow(leaders: seq<Certificate>, r: Round) {
    leaders != [] ==> leaders[|leaders| - 1].round < r
  }

  lemma SequenceEnds(x: Certificate)
    ensures var s := LeaderSequence(Hist(), RoundRobin, x); s != [] && s[|s| - 1] == x
  {
    hide Walk;
  }

  lemma Supports82(delivered: set<Digest>, d: Digest)
    requires Below(111) <= delivered && 91 <= d <= 93
    ensures d % 10 in SupportersIn(Hist(), delivered, Cert(82))
  {
    hide Hist;
    Stored(d);
    assert d in Below(111) && 82 == ParentsOf(d)[1];
    assert Hist()[d].round == Cert(82).round + 1 && Cert(82).digest in Hist()[d].parents;
  }

  lemma SupportFor82(delivered: set<Digest>)
    requires Below(111) <= delivered
    ensures COMMITTEE.StakeOf(SupportersIn(Hist(), delivered, Cert(82))) >= COMMITTEE.ValidityThreshold()
  {
    hide Hist, ParentsOf, Committee.StakeOf, Committee.ValidityThreshold;
    var supporters := SupportersIn(Hist(), delivered, Cert(82));
    Supports82(delivered, 91);
    Supports82(delivered, 92);
    Supports82(delivered, 93);
    SubsetSize({1, 2, 3}, supporters);
    forall d | d in Hist()
      ensures Hist()[d].origin in NAMES
    {
      Stored(d);
    }
    UnitStake(supporters);
    Thresholds();
  }

  /** Certificates arrive by ascending digest, parents first. */
  lemma DeliveryFits(a: Consensus, d: Digest)
    requires Follows(a) && Exists(d) && 10 <= d <= 111 && a.delivered == Below(d)
    ensures Known(a.history, Cert(d)) && Cert(d).digest !in a.delivered && Cert(d).round > 0
    ensures forall p :: p in Cert(d).parents ==> p in a.delivered
  {
    hide Hist, ParentsOf;
    Stored(d);
    forall p | p in ParentsOf(d)
      ensures p in Below(d)
    {
      ParentsExist(d, p);
      Stored(p);
    }
  }

  /** What a delivery of round `r + 3` commits ends with a leader of round `r`. */
  lemma CommitsEarly(a: Consensus, lastRound: Round, r: int, before: seq<Certificate>)
    requires Follows(a) && r < 8 && EndBelow(before, 8)
    requires forall x :: CommitDue(a.history, a.committee, a.leaderOf, a.delivered, lastRound, r, x) ==>
      a.leaders == LeaderSequence(a.history, a.leaderOf, x)
    requires NoCommitDue(a.history, a.committee, a.leaderOf, a.delivered, lastRound, r) ==> a.leaders == before
    ensures EndBelow(a.leaders, 8)
  {
    hide LeaderSequence, WellFormed;
    if x :| CommitDue(a.history, a.committee, a.leaderOf, a.delivered, lastRound, r, x) {
      SequenceEnds(x);
    }
  }

  lemma CommitsLast(a: Consensus, lastRound: Round)
    requires Follows(a) && lastRound < 8 && Below(111) <= a.delivered
    requires forall x :: CommitDue(a.history, a.committee, a.leaderOf, a.delivered, lastRound, 8, x) ==>
      a.leaders == LeaderSequence(a.history, a.leaderOf, x)
    ensures a.leaders == [Cert(67), Cert(82)]
  {
    hide LeaderSequence, WellFormed, SupportersIn, IsLeaderAt, Committee.StakeOf, Committee.ValidityThreshold;
    Leaders();
    SupportFor82(a.delivered);
    assert 82 in Below(111);
    assert CommitDue(a.history, a.committee, a.leaderOf, a.delivered, lastRound, 8, Cert(82));
    LeadersOf82();
  }

  lemma LastRound(a: Consensus)
    requires a.Valid() && EndBelow(a.leaders, 8)
    ensures a.state.lastCommittedRound < 8
  {
    hide WellFormed, Ledger.ViewSound, Ledger.OutputSound, Batches, Supported, LeaderSequence;
    a.FloorIsLast();
  }

  lemma Place(d: Digest)
    requires 10 <= d <= 111
    ensures Cert(d).digest == d && (d < 111 && Exists(d) ==> Cert(d).round <= 10) && Exists(111)
    ensures Cert(111).round == 11
  {
  }

  lemma Started(a: Consensus)
    requires a.history == Hist() && a.committee == COMMITTEE && a.leaderOf == RoundRobin && a.leaders == []
    requires a.delivered == set name | name in GenesisOf() :: GenesisOf()[name].digest
    ensures Follows(a) && EndBelow(a.leaders, 8) && a.delivered == Below(10)
  {
    forall d | d in Below(10)
      ensures d in a.delivered
    {
      assert GenesisOf()[d].digest == d;
    }
  }

  method RunConsensus(gcDepth: Round) returns (a: Consensus)
    ensures fresh(a) && a.Valid() && a.Clean() && Follows(a) && a.leaders == [Cert(67), Cert(82)]
  {
    hide *;
    StartFits();
    a := new Consensus(COMMITTEE, gcDepth, RoundRobin, GenesisOf(), Hist());
    Started(a);
    var d := 10;
    while d < 111
      invariant 10 <= d <= 111 && fresh(a) && fresh(a.state) && a.Valid() && Follows(a) && a.delivered == Below(d)
      invariant a.Clean() && EndBelow(a.leaders, 8)
      modifies a, a.state
    {
      if Exists(d) {
        Place(d);
        DeliveryFits(a, d);
        FirstDelivery(a, Cert(d));
        ghost var before, lastRound := a.leaders, a.state.lastCommittedRound;
        a.Process(Cert(d));
        CommitsEarly(a, lastRound, Cert(d).round - 3, before);
      }
      NextBelow(d);
      d := d + 1;
    }
    Place(111);
    DeliveryFits(a, 111);
    FirstDelivery(a, Cert(111));
    LastRound(a);
    ghost var lastRound := a.state.lastCommittedRound;
    a.Process(Cert(111));
    CommitsLast(a, lastRound);
  }

  function GenesisOf(): map<PublicKey, Certificate> {
    map name | name in NAMES :: Cert(name)
  }

  lemma StartFits()
    ensures WellFormed(Hist(), COMMITTEE) && GenesisOf().Keys == COMMITTEE.authorities.Keys
    ensures forall name :: name in GenesisOf() ==>
      Known(Hist(), GenesisOf()[name]) && GenesisOf()[name].round == 0 && GenesisOf()[name].origin == name
  {
    hide WellFormed, Hist, ParentsOf;
    HistoryIsWellFormed();
    Thresholds();
    forall name | name in NAMES
      ensures name in Hist() && Hist()[name] == Cert(name) && Cert(name).round == 0 && Cert(name).origin == name
    {
      Stored(name);
    }
  }

  lemma NextBelow(d: Digest)
    requires d <= 111
    ensures Below(d + 1) == Below(d) + if Exists(d) then {d} else {}
  {
  }

  // ---------------------------------------------------------------------
  // What that node outputs
  // ---------------------------------------------------------------------

  ghost predicate Committed82(a: Consensus)
    reads a, a.state
  {
    a.Valid() && a.Clean() && Follows(a) && a.leaders == [Cert(67), Cert(82)]
  }

  /** The first batch is everything of rounds 1 to 5, and 67. */
  ghost predicate IsFirst(xs: seq<Certificate>) {
    && (forall x :: x in xs ==> x == Cert(x.digest) && (Early(x.digest) || x.digest == 67))
    && (forall d :: Early(d) || d == 67 ==> Cert(d) in xs)
  }

  /** The second one has later rounds only, and ends with 82. */
  ghost predicate IsSecond(xs: seq<Certificate>) {
    (forall x :: x in xs ==> x == Cert(x.digest) && Exists(x.digest) && 60 <= x.digest) && Cert(82) in xs
  }

  lemma FirstBatch(a: Consensus)
    requires Committed82(a)
    ensures |a.output| == 2 && a.output[0].certificates != [] && IsFirst(a.output[0].certificates)
  {
    hide Ledger.ViewSound, Ledger.OutputSound, Supported, LeaderSequence, Reaches, Hist, WellFormed;
    hide SubDag.SortedByRound, ParentsOf;
    BatchesNumbered(a);
    assert BatchAt(a.history, a.output, a.leaders, 0);
    var xs := a.output[0].certificates;
    forall x | x in xs
      ensures x == Cert(x.digest) && (Early(x.digest) || x.digest == 67)
    {
      KnownOutput(a, x);
      ReachesRound(Hist(), Cert(67), x);
      PlaceOf(x);
    }
    forall d | Early(d)
      ensures Cert(d) in xs
    {
      EarlyReached(d);
    }
    assert Cert(67) in xs by {
      ReachesItself(Hist(), Cert(67));
    }
  }

  lemma PlaceOf(x: Certificate)
    requires Known(Hist(), x) && x.round > 0
    ensures Exists(x.digest) && x == Cert(x.digest) && x.digest >= 10
    ensures x.round < 6 ==> x.digest < 60
  {
    Stored(x.digest);
  }

  lemma OutputsOf(a: Consensus)
    requires Committed82(a)
    ensures a.Valid() && a.Clean() && a.history == Hist()
  {
  }

  lemma KnownOutput(a: Consensus, x: Certificate)
    requires Committed82(a) && |a.output| == 2 && (x in a.output[0].certificates || x in a.output[1].certificates)
    ensures Known(Hist(), x) && x.round > 0 && x in Flatten(a.output)
  {
    hide *;
    OutputsOf(a);
    FlattenTwo(a.output);
    Pipeline.CommittedIsKnown(a);
  }

  lemma SecondBatch(a: Consensus)
    requires Committed82(a)
    ensures |a.output| == 2 && IsSecond(a.output[1].certificates)
  {
    hide Ledger.ViewSound, Ledger.OutputSound, Supported, LeaderSequence, Reaches, Hist, WellFormed;
    hide SubDag.SortedByRound, ParentsOf, IsFirst;
    FirstBatch(a);
    assert BatchAt(a.history, a.output, a.leaders, 1);
    NoDoubleCommit(a);
    FlattenTwo(a.output);
    var first, second := a.output[0].certificates, a.output[1].certificates;
    forall x | x in second
      ensures x == Cert(x.digest) && Exists(x.digest) && 60 <= x.digest
    {
      KnownOutput(a, x);
      PlaceOf(x);
      if x.digest < 60 {
        IsTwice(first, second, x);
        assert false;
      }
    }
  }

  lemma IsTwice(xs: seq<Certificate>, ys: seq<Certificate>, x: Certificate)
    requires IsFirst(xs) && x in ys && x == Cert(x.digest) && Early(x.digest)
    ensures !Distinct(xs + ys)
  {
    assert x in xs;
    var i :| 0 <= i < |xs| && xs[i] == x;
    var j :| 0 <= j < |ys| && ys[j] == x;
    assert (xs + ys)[i] == (xs + ys)[|xs| + j];
  }
}
