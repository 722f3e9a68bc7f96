/** From the cores of the honest primaries to the DAG that consensus relies on:
    certificates are unique per author and round, parents are a quorum, and nothing
    is missing below a stored certificate. */
module CertifiedDag {
  import opened Basics
  import opened Config
  import opened Messages
  import opened CoreState
  import Dag

  /** The honest authorities and what their cores have reached. */
  datatype System = System(committee: Committee, hash: Hasher, genesis: map<Digest, Certificate>,
    cores: map<PublicKey, CoreView>) {
    function EnvOf(name: PublicKey): Env {
      Env(name, committee, hash, genesis)
    }

    function Faulty(): set<PublicKey> {
      committee.authorities.Keys - cores.Keys
    }

    /** `name` voted for what this digest stands for. */
    ghost predicate VotedFor(name: PublicKey, d: Digest)
      requires name in cores
    {
      exists k :: 0 <= k < |cores[name].votes| && hash.VoteDigest(cores[name].votes[k].vote) == d
    }

    /** A signature of an honest authority on a certificate comes from its core. */
    ghost predicate Unforgeable() {
      forall n, d {:trigger VotesAreCast(n, d)} :: n in cores && d in cores[n].store ==> VotesAreCast(n, d)
    }

    ghost predicate VotesAreCast(n: PublicKey, d: Digest)
      requires n in cores && d in cores[n].store
    {
      forall v :: v in cores[n].store[d].votes && v.0 in cores && Signed(v.1, d, v.0) ==> VotedFor(v.0, d)
    }

    /** A core keeps its invariant and votes only for headers it has not outlived. */
    ghost predicate Honest(n: PublicKey)
      requires n in cores
    {
      && EnvOk(EnvOf(n)) && CoreOk(EnvOf(n), cores[n])
      && (forall k :: 0 <= k < |cores[n].votes| ==> cores[n].votes[k].gcAt <= cores[n].votes[k].header.round)
    }

    /** All cores are honest; the other authorities hold less stake than the validity
        threshold. */
    ghost predicate Sound() {
      && committee.StakeOf(Faulty()) < committee.ValidityThreshold()
      && (forall n {:trigger Honest(n)} :: n in cores ==> Honest(n))
      && Unforgeable()
    }

    ghost predicate Stores(n: PublicKey, d: Digest) {
      n in cores && d in cores[n].store && d !in genesis
    }
  }

  /** The voters of a stored certificate. */
  ghost function VotersOf(s: System, n: PublicKey, d: Digest): set<PublicKey>
    requires s.Stores(n, d)
  {
    Voters(s.cores[n].store[d].votes)
  }

  lemma StoredFacts(s: System, n: PublicKey, d: Digest)
    requires s.Sound() && s.Stores(n, d)
    ensures var c := s.cores[n].store[d];
      && s.hash.CertificateDigest(c) == d && Certified(c, s.committee, s.hash)
      && (HeaderOk(c.header, s.committee, s.hash) || c.header == DEFAULT_HEADER)
  {
    var env := s.EnvOf(n);
    var c := s.cores[n].store[d];
    assert s.Honest(n) && StoredOk(env, s.cores[n].store, d);
    hide CoreOk;
    if IsGenesis(c, s.committee) {
      SameCertificateIsSameDigest(s.hash, c, Genesis(c.Origin()));
      assert false;
    }
  }

  /** An honest voter behind a stored certificate, with its record of the vote. */
  lemma HonestRecord(s: System, n: PublicKey, d: Digest, m: PublicKey) returns (k: nat)
    requires s.Sound() && s.Stores(n, d) && m in VotersOf(s, n, d) && m in s.cores
    ensures k < |s.cores[m].votes|
    ensures var r, c := s.cores[m].votes[k], s.cores[n].store[d];
      && VoteOk(s.EnvOf(m), s.cores[m].store, r)
      && r.header.id == c.header.id && r.header.round == c.header.round && r.header.author == c.header.author
  {
    hide CoreOk, EnvOk, Justified, HeaderOk, Quorate;
    StoredFacts(s, n, d);
    var c := s.cores[n].store[d];
    var v :| v in c.votes && v.0 == m;
    assert s.VotesAreCast(n, d);
    k :| 0 <= k < |s.cores[m].votes| && s.hash.VoteDigest(s.cores[m].votes[k].vote) == d;
    RecordFacts(s, m, k);
    SameTriple(s.hash, s.cores[m].votes[k].header, c.header);
  }

  lemma RecordFacts(s: System, m: PublicKey, k: nat)
    requires s.Sound() && m in s.cores && k < |s.cores[m].votes|
    ensures VoteOk(s.EnvOf(m), s.cores[m].store, s.cores[m].votes[k]) && s.hash.Ideal()
  {
    hide Accepted, Justified, HeaderOk;
    assert s.Honest(m);
  }

  lemma SameTriple(hash: Hasher, a: Header, b: Header)
    requires hash.Ideal() && hash.triple(a.id, a.round, a.author) == hash.triple(b.id, b.round, b.author)
    ensures a.id == b.id && a.round == b.round && a.author == b.author
  {
  }

  lemma VotersAreQuorum(s: System, n: PublicKey, d: Digest)
    requires s.Sound() && s.Stores(n, d)
    ensures s.committee.StakeOf(VotersOf(s, n, d)) >= s.committee.QuorumThreshold()
    ensures forall m :: m in VotersOf(s, n, d) && m !in s.Faulty() ==> m in s.cores
  {
    StoredFacts(s, n, d);
  }

  /** No two certificates with a quorum of votes exist for one author and round. */
  lemma CertificateUnique(s: System, n1: PublicKey, d1: Digest, n2: PublicKey, d2: Digest)
    requires s.Sound() && s.Stores(n1, d1) && s.Stores(n2, d2)
    requires SameSlot(s.cores[n1].store[d1].header, s.cores[n2].store[d2].header)
    ensures d1 == d2 && s.cores[n1].store[d1].header.id == s.cores[n2].store[d2].header.id
  {
    hide CoreOk, EnvOk, VoteOk;
    VotersAreQuorum(s, n1, d1);
    VotersAreQuorum(s, n2, d2);
    QuorumsShareHonest(s.committee, VotersOf(s, n1, d1), VotersOf(s, n2, d2), s.Faulty());
    var m :| m in VotersOf(s, n1, d1) && m in VotersOf(s, n2, d2) && m !in s.Faulty();
    var k1 := HonestRecord(s, n1, d1, m);
    var k2 := HonestRecord(s, n2, d2, m);
    assert s.Honest(m);
    VotesAtMostOnce(s.EnvOf(m), s.cores[m], k1, k2);
    StoredFacts(s, n1, d1);
    StoredFacts(s, n2, d2);
  }

  /** A certificate stored by an honest node was justified to some honest voter. */
  lemma CertificateJustified(s: System, n: PublicKey, d: Digest) returns (m: PublicKey)
    requires s.Sound() && s.Stores(n, d)
    ensures m in s.cores && s.cores[n].store[d].header.round > 0
    ensures HeaderOk(s.cores[n].store[d].header, s.committee, s.hash)
    ensures Justified(s.EnvOf(m), s.cores[m].store, s.cores[n].store[d].header)
  {
    VotersAreQuorum(s, n, d);
    QuorumHasHonest(s.committee, VotersOf(s, n, d), s.Faulty());
    m :| m in VotersOf(s, n, d) && m !in s.Faulty();
    var k := HonestRecord(s, n, d, m);
    StoredFacts(s, n, d);
    var voted, header := s.cores[m].votes[k].header, s.cores[n].store[d].header;
    assert s.Honest(m);
    hide CoreOk;
    RoundPositive(s.EnvOf(m), s.cores[m].store, voted);
    SameIdSameHeader(s, voted, header);
    JustifiedBySameContent(s.EnvOf(m), s.cores[m].store, voted, header);
  }

  lemma RoundPositive(env: Env, store: map<Digest, Certificate>, h: Header)
    requires Justified(env, store, h)
    ensures h.round > 0
  {
    var d :| d in h.parents;
  }

  lemma SameIdSameHeader(s: System, a: Header, b: Header)
    requires s.hash.Ideal() && HeaderOk(a, s.committee, s.hash) && a.id == b.id && a.round == b.round && a.round > 0
    requires HeaderOk(b, s.committee, s.hash) || b == DEFAULT_HEADER
    ensures HeaderOk(b, s.committee, s.hash) && a.author == b.author && a.parents == b.parents
  {
  }

  lemma JustifiedBySameContent(env: Env, store: map<Digest, Certificate>, a: Header, b: Header)
    requires Justified(env, store, a) && a.parents == b.parents && a.round == b.round
    ensures Justified(env, store, b)
  {
  }

  // ---------------------------------------------------------------------
  // The history
  // ---------------------------------------------------------------------

  function Listing(ds: set<Digest>): seq<Digest> {
    if ds == {} then [] else
      var d := Least(ds);
      [d] + Listing(ds - {d})
  }

  lemma {:induction false} ListingIsSet(ds: set<Digest>)
    ensures forall d :: d in Listing(ds) <==> d in ds
  {
    if ds != {} {
      ListingIsSet(ds - {Least(ds)});
    }
  }

  /** A certificate as consensus reads it. */
  function AsVertex(hash: Hasher, c: Certificate): Dag.Certificate {
    Dag.Certificate(hash.CertificateDigest(c), c.Origin(), c.Round(), Listing(c.header.parents))
  }

  ghost function AllDigests(s: System): set<Digest> {
    s.genesis.Keys + set n, d | n in s.cores && d in s.cores[n].store :: d
  }

  ghost function Find(s: System, d: Digest): Certificate
    requires d in AllDigests(s)
  {
    if d in s.genesis then s.genesis[d]
    else
      var n :| n in s.cores && d in s.cores[n].store;
      s.cores[n].store[d]
  }

  /** Everything the honest nodes stored, and genesis. */
  ghost function HistoryOf(s: System): Dag.History {
    map d | d in AllDigests(s) :: AsVertex(s.hash, Find(s, d))
  }

  lemma GenesisVertex(s: System, n: PublicKey, d: Digest)
    requires s.Sound() && n in s.cores && d in s.genesis
    ensures d in HistoryOf(s) && HistoryOf(s)[d].digest == d && HistoryOf(s)[d].round == 0
    ensures HistoryOf(s)[d].parents == []
    ensures HistoryOf(s)[d].origin == s.genesis[d].Origin() && s.genesis[d].Origin() in s.committee.authorities
    ensures s.hash.CertificateDigest(Genesis(s.genesis[d].Origin())) == d
  {
    assert s.Honest(n);
    hide CoreOk;
  }

  /** Whichever core's copy is looked at, a stored digest stands for the same vertex. */
  lemma StoredVertex(s: System, n: PublicKey, d: Digest)
    requires s.Sound() && s.Stores(n, d)
    ensures d in HistoryOf(s) && HistoryOf(s)[d] == AsVertex(s.hash, s.cores[n].store[d]) && HistoryOf(s)[d].digest == d
    ensures HistoryOf(s)[d].round > 0 && HistoryOf(s)[d].origin in s.committee.authorities
  {
    hide CoreOk, EnvOk, Justified, Listing;
    var m :| m in s.cores && d in s.cores[m].store && Find(s, d) == s.cores[m].store[d];
    assert s.Stores(m, d);
    var k1 := CertificateJustified(s, n, d);
    var k2 := CertificateJustified(s, m, d);
    StoredFacts(s, n, d);
    StoredFacts(s, m, d);
    var a, b := s.cores[n].store[d].header, s.cores[m].store[d].header;
    IdealHash(s, n);
    SameTriple(s.hash, a, b);
    SameIdSameHeader(s, a, b);
  }

  lemma IdealHash(s: System, n: PublicKey)
    requires s.Sound() && n in s.cores
    ensures s.hash.Ideal() && EnvOk(s.EnvOf(n))
  {
    assert s.Honest(n);
    hide CoreOk;
  }

  /** A parent as its voter resolved it is the parent in the history. */
  lemma ResolvedVertex(s: System, m: PublicKey, d: Digest)
    requires s.Sound() && m in s.cores && Resolve(s.EnvOf(m), s.cores[m].store, d).Some?
    ensures d in HistoryOf(s)
    ensures HistoryOf(s)[d].round == Resolve(s.EnvOf(m), s.cores[m].store, d).value.Round()
    ensures HistoryOf(s)[d].origin == Resolve(s.EnvOf(m), s.cores[m].store, d).value.Origin()
  {
    if d in s.genesis {
      GenesisVertex(s, m, d);
      IdealHash(s, m);
    } else {
      assert s.Stores(m, d);
      StoredVertex(s, m, d);
    }
  }

  /** One certificate per author and round in the whole history. */
  lemma HistoryUnique(s: System, d: Digest, e: Digest, n: PublicKey)
    requires s.Sound() && n in s.cores && d in HistoryOf(s) && e in HistoryOf(s)
    requires HistoryOf(s)[d].origin == HistoryOf(s)[e].origin && HistoryOf(s)[d].round == HistoryOf(s)[e].round
    ensures d == e
  {
    hide CoreOk, EnvOk;
    if d in s.genesis && e in s.genesis {
      GenesisVertex(s, n, d);
      GenesisVertex(s, n, e);
    } else if d !in s.genesis && e !in s.genesis {
      var n1 :| n1 in s.cores && d in s.cores[n1].store;
      var n2 :| n2 in s.cores && e in s.cores[n2].store;
      assert s.Stores(n1, d) && s.Stores(n2, e);
      StoredVertex(s, n1, d);
      StoredVertex(s, n2, e);
      CertificateUnique(s, n1, d, n2, e);
    } else {
      var g, c := if d in s.genesis then d else e, if d in s.genesis then e else d;
      var n1 :| n1 in s.cores && c in s.cores[n1].store;
      assert s.Stores(n1, c);
      GenesisVertex(s, n, g);
      StoredVertex(s, n1, c);
      assert false;
    }
  }

  ghost function OriginsOf(h: Dag.History, ds: set<Digest>): set<PublicKey> {
    set d | d in ds && d in h :: h[d].origin
  }

  /** Counting parent by parent is counting author by author, since authors differ. */
  lemma {:induction false} ParentStakeIsStake(s: System, m: PublicKey, r: Round, ds: set<Digest>)
    requires s.Sound() && m in s.cores
    requires forall d :: d in ds ==>
      Resolve(s.EnvOf(m), s.cores[m].store, d).Some? && Resolve(s.EnvOf(m), s.cores[m].store, d).value.Round() == r
    ensures ParentStake(s.EnvOf(m), s.cores[m].store, ds) == s.committee.StakeOf(OriginsOf(HistoryOf(s), ds))
  {
    hide Resolve, HistoryOf, OriginsOf, System.Sound;
    var env, store, h := s.EnvOf(m), s.cores[m].store, HistoryOf(s);
    if ds != {} {
      var d := Least(ds);
      var rest := ds - {d};
      ParentStakeIsStake(s, m, r, rest);
      forall e | e in ds
        ensures e in h && h[e].round == r && h[e].origin == Resolve(env, store, e).value.Origin()
      {
        ResolvedVertex(s, m, e);
      }
      forall e | e in rest
        ensures h[e].origin != h[d].origin
      {
        if h[e].origin == h[d].origin {
          HistoryUnique(s, d, e, m);
          assert false;
        }
      }
      OriginsGrow(h, ds, d);
      StakeAdd(s.committee, OriginsOf(h, rest), h[d].origin);
    } else {
      NoOrigins(h);
    }
  }

  lemma NoOrigins(h: Dag.History)
    ensures OriginsOf(h, {}) == {}
  {
  }

  lemma OriginsGrow(h: Dag.History, ds: set<Digest>, d: Digest)
    requires d in ds && d in h && forall e :: e in ds - {d} && e in h ==> h[e].origin != h[d].origin
    ensures OriginsOf(h, ds) == OriginsOf(h, ds - {d}) + {h[d].origin} && h[d].origin !in OriginsOf(h, ds - {d})
  {
  }

  /** The parents of a certificate in the history are in it, one round below, and carry
      a quorum. */
  lemma HistoryWellParented(s: System, n: PublicKey, d: Digest)
    requires s.Sound() && s.Stores(n, d)
    ensures d in HistoryOf(s) && Dag.WellParented(HistoryOf(s), s.committee, HistoryOf(s)[d])
  {
    hide CoreOk, EnvOk, HistoryOf, Resolve;
    var h := HistoryOf(s);
    StoredVertex(s, n, d);
    var header := s.cores[n].store[d].header;
    var m := CertificateJustified(s, n, d);
    ListingIsSet(header.parents);
    forall p | p in header.parents
      ensures p in h && h[p].round + 1 == header.round
    {
      ResolvedVertex(s, m, p);
    }
    ParentStakeIsStake(s, m, header.round - 1, header.parents);
    assert Dag.ParentOrigins(h, h[d]) == OriginsOf(h, header.parents);
  }

  /** What the cores of the honest primaries jointly store is a well-formed DAG. */
  lemma CertifiedDagIsWellFormed(s: System)
    requires s.Sound() && s.cores != map[]
    ensures Dag.WellFormed(HistoryOf(s), s.committee)
  {
    hide CoreOk, EnvOk, HistoryOf;
    var h := HistoryOf(s);
    var n :| n in s.cores;
    forall d | d in h
      ensures h[d].digest == d && h[d].origin in s.committee.authorities
      ensures h[d].round == 0 ==> h[d].parents == []
      ensures h[d].round > 0 ==> Dag.WellParented(h, s.committee, h[d])
    {
      HistoryMember(s, d);
      if d in s.genesis {
        GenesisVertex(s, n, d);
      } else {
        var m :| s.Stores(m, d);
        StoredVertex(s, m, d);
        HistoryWellParented(s, m, d);
      }
    }
    forall d, e | d in h && e in h && h[d].origin == h[e].origin && h[d].round == h[e].round
      ensures d == e
    {
      HistoryUnique(s, d, e, n);
    }
  }

  lemma HistoryMember(s: System, d: Digest)
    requires d in HistoryOf(s)
    ensures d in s.genesis || exists m :: s.Stores(m, d)
  {
    if d !in s.genesis {
      var m :| m in s.cores && d in s.cores[m].store;
      assert s.Stores(m, d);
    }
  }

  /** What an honest core sends to consensus is that history, ancestors first. */
  lemma DeliveriesFollowHistory(s: System, n: PublicKey, i: nat)
    requires s.Sound() && n in s.cores && i < |s.cores[n].toConsensus|
    requires s.hash.CertificateDigest(s.cores[n].toConsensus[i]) !in s.genesis
    ensures var x := AsVertex(s.hash, s.cores[n].toConsensus[i]);
      && Dag.Known(HistoryOf(s), x) && x.round > 0
      && forall p :: p in x.parents ==>
        p in s.genesis || exists k :: 0 <= k < i && AsVertex(s.hash, s.cores[n].toConsensus[k]).digest == p
  {
    hide EnvOk, HistoryOf;
    var env, v := s.EnvOf(n), s.cores[n];
    assert s.Honest(n);
    var c := v.toConsensus[i];
    var d := s.hash.CertificateDigest(c);
    hide StoreOk, VotesOk, Remembered, VotesOnce;
    assert s.Stores(n, d);
    StoredVertex(s, n, d);
    StoredFacts(s, n, d);
    var m := CertificateJustified(s, n, d);
    IdealHash(s, n);
    SameTriple(s.hash, c.header, v.store[d].header);
    DeliveredHeader(s, n, c, v.store[d]);
    ListingIsSet(c.header.parents);
    forall p | p in c.header.parents
      ensures p in s.genesis || exists k :: 0 <= k < i && AsVertex(s.hash, v.toConsensus[k]).digest == p
    {
      assert DeliveredBefore(env, v.toConsensus, i, p);
      if p !in s.genesis {
        var k :| 0 <= k < i && s.hash.CertificateDigest(v.toConsensus[k]) == p;
        assert AsVertex(s.hash, v.toConsensus[k]).digest == p;
      }
    }
  }

  lemma DeliveredHeader(s: System, n: PublicKey, c: Certificate, stored: Certificate)
    requires s.Sound() && n in s.cores && Accepted(s.EnvOf(n), c) && s.hash.CertificateDigest(c) !in s.genesis
    requires HeaderOk(stored.header, s.committee, s.hash) && stored.header.round > 0 && s.hash.Ideal()
    requires SameCertificate(c, stored)
    ensures c.header.parents == stored.header.parents && c.header.round == stored.header.round
    ensures c.header.author == stored.header.author
  {
    IdealHash(s, n);
    if IsGenesis(c, s.committee) {
      SameCertificateIsSameDigest(s.hash, c, Genesis(c.Origin()));
      assert false;
    }
    SameIdSameHeader(s, stored.header, c.header);
  }
}
