/** From the cores of the honest primaries to agreement on leaders: what each core
    delivers is fed to that node's consensus. */
module Agreement {
  import opened Basics
  import opened Messages
  import opened CoreState
  import opened CertifiedDag
  import Dag
  import Consensus

  /** What consensus is given when a node starts. */
  function GenesisVertices(s: System): map<PublicKey, Dag.Certificate> {
    map name | name in s.committee.authorities :: AsVertex(s.hash, Genesis(name))
  }

  /** Genesis certificates, should the node send any, name no parents. Equality of
      certificates does not look at parents, so the checks on arrival let others through. */
  ghost predicate PlainGenesis(s: System, n: PublicKey)
    requires n in s.cores
  {
    var out := s.cores[n].toConsensus;
    forall i :: 0 <= i < |out| && s.hash.CertificateDigest(out[i]) in s.genesis ==> out[i].header.parents == {}
  }

  /** The node sends each certificate once, and genesis never. */
  ghost predicate SendsOnce(s: System, n: PublicKey)
    requires n in s.cores
  {
    var out := s.cores[n].toConsensus;
    && (forall i :: 0 <= i < |out| ==> s.hash.CertificateDigest(out[i]) !in s.genesis)
    && (forall i, j :: 0 <= i < j < |out| ==> s.hash.CertificateDigest(out[i]) != s.hash.CertificateDigest(out[j]))
  }

  ghost function Sent(s: System, n: PublicKey, i: nat): set<Digest>
    requires n in s.cores && i <= |s.cores[n].toConsensus|
  {
    s.genesis.Keys + set k | 0 <= k < i :: s.hash.CertificateDigest(s.cores[n].toConsensus[k])
  }

  lemma GenesisKnown(s: System, n: PublicKey, name: PublicKey)
    requires s.Sound() && n in s.cores && name in s.committee.authorities
    ensures var x := AsVertex(s.hash, Genesis(name));
      Dag.Known(HistoryOf(s), x) && x.round == 0 && x.origin == name && x.digest in s.genesis
  {
    hide HistoryOf, System.Unforgeable, Messages.Hasher.Ideal;
    IdealHash(s, n);
    var d := s.hash.CertificateDigest(Genesis(name));
    assert d in s.genesis;
    GenesisVertex(s, n, d);
    SameTriple(s.hash, s.genesis[d].header, Genesis(name).header);
    NoParents();
  }

  lemma NoParents()
    ensures Listing({}) == []
  {
  }

  lemma GenesisDigests(s: System, n: PublicKey)
    requires s.Sound() && n in s.cores
    ensures (set name | name in GenesisVertices(s) :: GenesisVertices(s)[name].digest) == s.genesis.Keys
  {
    hide HistoryOf, System.Sound, Messages.Hasher.Ideal;
    IdealHash(s, n);
    EveryGenesis(s.EnvOf(n));
    forall name | name in s.committee.authorities
      ensures GenesisVertices(s)[name].digest == s.hash.CertificateDigest(Genesis(name))
    {
    }
    forall d | d in s.genesis
      ensures exists name :: name in GenesisVertices(s) && GenesisVertices(s)[name].digest == d
    {
      assert s.genesis[d].Origin() in GenesisVertices(s);
    }
  }

  lemma EveryGenesis(env: Env)
    requires EnvOk(env)
    ensures forall name :: name in env.committee.authorities ==>
      env.hash.CertificateDigest(Genesis(name)) in env.genesis
    ensures forall d :: d in env.genesis ==>
      env.genesis[d].Origin() in env.committee.authorities
        && d == env.hash.CertificateDigest(Genesis(env.genesis[d].Origin()))
  {
    hide Messages.Hasher.Ideal;
  }

  /** What a node starts with is what the constructor of consensus asks for. */
  lemma StartFits(s: System, n: PublicKey)
    requires s.Sound() && n in s.cores
    ensures Dag.WellFormed(HistoryOf(s), s.committee) && GenesisVertices(s).Keys == s.committee.authorities.Keys
    ensures forall name :: name in GenesisVertices(s) ==>
      Dag.Known(HistoryOf(s), GenesisVertices(s)[name])
      && GenesisVertices(s)[name].round == 0 && GenesisVertices(s)[name].origin == name
    ensures (set name | name in GenesisVertices(s) :: GenesisVertices(s)[name].digest) == Sent(s, n, 0)
  {
    hide System.Sound, HistoryOf, Dag.WellFormed, Dag.Known;
    CertifiedDagIsWellFormed(s);
    forall name | name in s.committee.authorities
      ensures Dag.Known(HistoryOf(s), GenesisVertices(s)[name])
      ensures GenesisVertices(s)[name].round == 0 && GenesisVertices(s)[name].origin == name
    {
      GenesisKnown(s, n, name);
    }
    GenesisDigests(s, n);
    assert Sent(s, n, 0) == s.genesis.Keys;
  }

  /** Each delivery of a core, the first or a later one, is one that consensus may be
      given. */
  lemma DeliveryFits(s: System, n: PublicKey, i: nat)
    requires s.Sound() && n in s.cores && PlainGenesis(s, n) && i < |s.cores[n].toConsensus|
    ensures var x := AsVertex(s.hash, s.cores[n].toConsensus[i]);
      && Dag.Known(HistoryOf(s), x)
      && (forall p :: p in x.parents ==> p in Sent(s, n, i))
      && Sent(s, n, i + 1) == Sent(s, n, i) + {x.digest}
  {
    hide HistoryOf, System.Sound, AsVertex;
    var c := s.cores[n].toConsensus[i];
    SentOneMore(s, n, i);
    if s.hash.CertificateDigest(c) in s.genesis {
      GenesisDelivered(s, n, c);
    } else {
      DeliveriesFollowHistory(s, n, i);
    }
  }

  lemma DeliveryIsNew(s: System, n: PublicKey, i: nat)
    requires s.Sound() && n in s.cores && SendsOnce(s, n) && i < |s.cores[n].toConsensus|
    ensures var x := AsVertex(s.hash, s.cores[n].toConsensus[i]); x.digest !in Sent(s, n, i) && x.round > 0
  {
    hide HistoryOf, System.Sound;
    DeliveriesFollowHistory(s, n, i);
  }

  lemma SentOneMore(s: System, n: PublicKey, i: nat)
    requires n in s.cores && i < |s.cores[n].toConsensus|
    ensures Sent(s, n, i + 1) == Sent(s, n, i) + {AsVertex(s.hash, s.cores[n].toConsensus[i]).digest}
    ensures forall k :: 0 <= k < i ==> AsVertex(s.hash, s.cores[n].toConsensus[k]).digest in Sent(s, n, i)
  {
  }

  lemma GenesisDelivered(s: System, n: PublicKey, c: Certificate)
    requires s.Sound() && n in s.cores && s.hash.CertificateDigest(c) in s.genesis && c.header.parents == {}
    ensures Dag.Known(HistoryOf(s), AsVertex(s.hash, c)) && AsVertex(s.hash, c).parents == []
  {
    hide HistoryOf, System.Unforgeable, Messages.Hasher.Ideal;
    IdealHash(s, n);
    var d := s.hash.CertificateDigest(c);
    GenesisVertex(s, n, d);
    SameTriple(s.hash, s.genesis[d].header, c.header);
    EveryGenesis(s.EnvOf(n));
    SameTriple(s.hash, c.header, Genesis(s.genesis[d].Origin()).header);
    NoParents();
  }

  /** Feed one node's deliveries to its consensus. */
  method FeedConsensus(s: System, n: PublicKey, gcDepth: Round, leaderOf: Dag.Schedule) returns (a: Consensus.Consensus)
    requires s.Sound() && n in s.cores && PlainGenesis(s, n)
    ensures fresh(a) && fresh(a.state) && a.Valid() && a.delivered == Sent(s, n, |s.cores[n].toConsensus|)
    ensures a.history == HistoryOf(s) && a.committee == s.committee && a.leaderOf == leaderOf
    ensures SendsOnce(s, n) ==> a.Clean()
  {
    hide *;
    StartFits(s, n);
    a := new Consensus.Consensus(s.committee, gcDepth, leaderOf, GenesisVertices(s), HistoryOf(s));
    var i := 0;
    while i < |s.cores[n].toConsensus|
      invariant 0 <= i <= |s.cores[n].toConsensus| && fresh(a) && fresh(a.state) && a.Valid()
      invariant a.delivered == Sent(s, n, i) && (SendsOnce(s, n) ==> a.Clean())
      invariant a.history == HistoryOf(s) && a.committee == s.committee && a.leaderOf == leaderOf
      modifies a, a.state
    {
      DeliveryFits(s, n, i);
      if SendsOnce(s, n) {
        DeliveryIsNew(s, n, i);
        Consensus.FirstDelivery(a, AsVertex(s.hash, s.cores[n].toConsensus[i]));
      }
      a.Process(AsVertex(s.hash, s.cores[n].toConsensus[i]));
      i := i + 1;
    }
  }

  /** Whatever the cores of two honest nodes have delivered so far, the leaders one of
      them has committed are a prefix of those the other has. */
  method AgreeFromCores(s: System, n1: PublicKey, n2: PublicKey, gc1: Round, gc2: Round, leaderOf: Dag.Schedule)
    returns (a: Consensus.Consensus, b: Consensus.Consensus)
    requires s.Sound() && n1 in s.cores && n2 in s.cores && PlainGenesis(s, n1) && PlainGenesis(s, n2)
    ensures a.Valid() && b.Valid()
    ensures a.delivered == Sent(s, n1, |s.cores[n1].toConsensus|)
    ensures b.delivered == Sent(s, n2, |s.cores[n2].toConsensus|)
    ensures Consensus.LeaderLog(a.output) <= Consensus.LeaderLog(b.output)
      || Consensus.LeaderLog(b.output) <= Consensus.LeaderLog(a.output)
  {
    hide System.Sound, PlainGenesis, HistoryOf, Sent;
    a := FeedConsensus(s, n1, gc1, leaderOf);
    b := FeedConsensus(s, n2, gc2, leaderOf);
    Consensus.LeaderAgreement(a, b);
  }
}
