/** What the primary's core has stored, voted for and delivered, as one value, and
    the invariants every event keeps. */
module CoreState {
  import opened Basics
  import opened Config
  import opened Messages

  /** The fixed surroundings of a core: its key, the committee, the hash functions and
      the genesis certificates by digest. */
  datatype Env = Env(name: PublicKey, committee: Committee, hash: Hasher, genesis: map<Digest, Certificate>)

  ghost predicate EnvOk(env: Env) {
    && env.hash.Ideal() && env.committee.Stake(env.name) > 0
    && (forall d :: d in env.genesis ==>
      env.genesis[d].Origin() in env.committee.authorities
      && env.genesis[d] == Genesis(env.genesis[d].Origin()) && env.hash.CertificateDigest(env.genesis[d]) == d)
    && (forall name :: name in env.committee.authorities ==> env.hash.CertificateDigest(Genesis(name)) in env.genesis)
  }

  /** A vote, the header it was cast for, and the garbage-collected round at that time. */
  datatype VoteRecord = VoteRecord(vote: Vote, header: Header, gcAt: Round)

  datatype CoreView = CoreView(
    store: map<Digest, Certificate>,
    lastVoted: map<Round, set<PublicKey>>,
    gcRound: Round,
    votes: seq<VoteRecord>,
    toConsensus: seq<Certificate>)

  function Resolve(env: Env, store: map<Digest, Certificate>, d: Digest): Option<Certificate> {
    if d in env.genesis then Some(env.genesis[d])
    else if d in store then Some(store[d])
    else None
  }

  function StakeBehind(env: Env, store: map<Digest, Certificate>, d: Digest): nat {
    match Resolve(env, store, d)
    case None => 0
    case Some(c) => env.committee.Stake(c.Origin())
  }

  /** The stake of all parents, counted parent by parent. */
  ghost function ParentStake(env: Env, store: map<Digest, Certificate>, ds: set<Digest>): nat {
    if ds == {} then 0 else
      var d := Least(ds);
      StakeBehind(env, store, d) + ParentStake(env, store, ds - {d})
  }

  /** The parents are known, one round below, and carry a quorum. */
  ghost predicate Justified(env: Env, store: map<Digest, Certificate>, h: Header) {
    && h.parents != {}
    && (forall d :: d in h.parents ==>
      Resolve(env, store, d).Some? && Resolve(env, store, d).value.Round() + 1 == h.round)
    && ParentStake(env, store, h.parents) >= env.committee.QuorumThreshold()
  }

  /** Certificates a core may hold: genesis, or backed by a quorum of signed votes. */
  ghost predicate Accepted(env: Env, c: Certificate) {
    IsGenesis(c, env.committee)
    || (Certified(c, env.committee, env.hash)
        && (HeaderOk(c.header, env.committee, env.hash) || c.header == DEFAULT_HEADER))
  }

  ghost predicate AllParentsKnown(env: Env, store: map<Digest, Certificate>, c: Certificate) {
    forall d :: d in c.header.parents ==> d in env.genesis || d in store
  }

  /** The store is closed under parents and holds accepted certificates only. */
  ghost predicate StoreOk(env: Env, store: map<Digest, Certificate>) {
    forall d {:trigger StoredOk(env, store, d)} :: d in store ==> StoredOk(env, store, d)
  }

  ghost predicate StoredOk(env: Env, store: map<Digest, Certificate>, d: Digest)
    requires d in store
  {
    env.hash.CertificateDigest(store[d]) == d && Accepted(env, store[d]) && AllParentsKnown(env, store, store[d])
  }

  ghost predicate VoteOk(env: Env, store: map<Digest, Certificate>, r: VoteRecord) {
    && r.vote == MakeVote(env, r.header)
    && HeaderOk(r.header, env.committee, env.hash) && Justified(env, store, r.header)
  }

  function MakeVote(env: Env, h: Header): Vote {
    Vote(h.id, h.round, h.author, env.name, Signature(env.name, env.hash.triple(h.id, h.round, h.author)))
  }

  ghost predicate VotesOk(env: Env, v: CoreView) {
    forall i :: 0 <= i < |v.votes| ==> VoteOk(env, v.store, v.votes[i])
  }

  /** Every vote of a round not garbage-collected is remembered. */
  ghost predicate Remembered(v: CoreView) {
    forall i :: 0 <= i < |v.votes| && v.votes[i].header.round >= v.gcRound ==>
      v.votes[i].header.round in v.lastVoted && v.votes[i].header.author in v.lastVoted[v.votes[i].header.round]
  }

  predicate SameSlot(a: Header, b: Header) {
    a.round == b.round && a.author == b.author
  }

  /** A second vote for the same author and round was cast, if ever, for a header that
      was older than the garbage-collected round at that moment. */
  ghost predicate VotesOnce(v: CoreView) {
    && (forall i :: 0 <= i < |v.votes| ==> v.votes[i].gcAt <= v.gcRound)
    && (forall i, j :: 0 <= i < j < |v.votes| && SameSlot(v.votes[i].header, v.votes[j].header) ==>
      v.votes[j].gcAt > v.votes[j].header.round)
  }

  ghost predicate DeliveredBefore(env: Env, out: seq<Certificate>, n: nat, d: Digest)
    requires n <= |out|
  {
    d in env.genesis || exists k :: 0 <= k < n && env.hash.CertificateDigest(out[k]) == d
  }

  /** Consensus gets every certificate after all its parents, and gets all that is stored. */
  ghost predicate CausallyDelivered(env: Env, v: CoreView) {
    && (forall d :: d in v.store ==> DeliveredBefore(env, v.toConsensus, |v.toConsensus|, d))
    && (forall i, d :: 0 <= i < |v.toConsensus| && d in v.toConsensus[i].header.parents ==>
      DeliveredBefore(env, v.toConsensus, i, d))
    && (forall i :: 0 <= i < |v.toConsensus| ==> env.hash.CertificateDigest(v.toConsensus[i]) in v.store)
  }

  ghost predicate DeliveriesAccepted(env: Env, v: CoreView) {
    forall i :: 0 <= i < |v.toConsensus| ==> Accepted(env, v.toConsensus[i])
  }

  ghost predicate CoreOk(env: Env, v: CoreView) {
    && StoreOk(env, v.store) && VotesOk(env, v) && Remembered(v) && VotesOnce(v)
    && CausallyDelivered(env, v) && DeliveriesAccepted(env, v)
  }

  /** What one event may change: logs are appended to, nothing is forgotten. */
  ghost predicate Grows(v: CoreView, w: CoreView) {
    && v.store.Keys <= w.store.Keys && w.gcRound == v.gcRound
    && v.votes <= w.votes && v.toConsensus <= w.toConsensus
    && forall r, name :: r in v.lastVoted && name in v.lastVoted[r] ==> r in w.lastVoted && name in w.lastVoted[r]
  }

  lemma GrowsTransitive(u: CoreView, v: CoreView, w: CoreView)
    requires Grows(u, v) && Grows(v, w)
    ensures Grows(u, w)
  {
  }

  /** Accepted are exactly the votes that a core makes, whoever checks them. */
  lemma AcceptedVotesAreMade(env: Env, v: Vote, h: Header)
    requires EnvOk(env) && v.author == env.name && v.id == h.id && v.round == h.round && v.origin == h.author
    ensures VerifyVote(v, env.committee, env.hash).Ok? <==> v == MakeVote(env, h)
  {
    hide EnvOk;
    assert env.committee.Stake(env.name) > 0 by {
      VoterHasStake(env);
    }
  }

  lemma VoterHasStake(env: Env)
    requires EnvOk(env)
    ensures env.committee.Stake(env.name) > 0
  {
  }

  /** Known parents of the round before whose authors, each counted once, make up a quorum
      justify a header: it is voted for, not refused. */
  lemma QuorumJustifies(env: Env, store: map<Digest, Certificate>, h: Header, names: set<PublicKey>)
    requires forall d :: d in h.parents ==>
      Resolve(env, store, d).Some? && Resolve(env, store, d).value.Round() + 1 == h.round
    requires forall name :: name in names ==>
      exists d :: d in h.parents && Resolve(env, store, d).value.Origin() == name
    requires env.committee.StakeOf(names) >= env.committee.QuorumThreshold()
    ensures Justified(env, store, h)
  {
    ParentsCoverStake(env, store, h.parents, names);
    assert h.parents == {} ==> names == {};
  }

  lemma {:induction false} ParentsCoverStake(env: Env, store: map<Digest, Certificate>, ds: set<Digest>,
      names: set<PublicKey>)
    requires forall d :: d in ds ==> Resolve(env, store, d).Some?
    requires forall name :: name in names ==> exists d :: d in ds && Resolve(env, store, d).value.Origin() == name
    ensures env.committee.StakeOf(names) <= ParentStake(env, store, ds)
  {
    hide Resolve;
    if ds == {} {
      assert names == {};
    } else {
      var d := Least(ds);
      var name := Resolve(env, store, d).value.Origin();
      ParentsCoverStake(env, store, ds - {d}, names - {name});
      if name in names {
        StakeRemove(env.committee, names, name);
      } else {
        assert names - {name} == names;
      }
    }
  }

  // ---------------------------------------------------------------------
  // Storing a certificate
  // ---------------------------------------------------------------------

  /** Overwriting a stored certificate can only change its votes: what it says about
      author and round is fixed by the digest. */
  lemma ResolveStable(env: Env, store: map<Digest, Certificate>, c: Certificate, d: Digest)
    requires EnvOk(env) && StoreOk(env, store)
    requires Resolve(env, store, d).Some?
    ensures var store' := store[env.hash.CertificateDigest(c) := c];
      Resolve(env, store', d).Some?
      && Resolve(env, store', d).value.Round() == Resolve(env, store, d).value.Round()
      && Resolve(env, store', d).value.Origin() == Resolve(env, store, d).value.Origin()
  {
    hide Accepted, AllParentsKnown;
    if d !in env.genesis && d == env.hash.CertificateDigest(c) {
      assert StoredOk(env, store, d);
      SameCertificateIsSameDigest(env.hash, c, store[d]);
    }
  }

  lemma {:induction false} ParentStakeStable(env: Env, store: map<Digest, Certificate>, c: Certificate, ds: set<Digest>)
    requires EnvOk(env) && StoreOk(env, store)
    requires forall d :: d in ds ==> Resolve(env, store, d).Some?
    ensures ParentStake(env, store[env.hash.CertificateDigest(c) := c], ds) == ParentStake(env, store, ds)
  {
    hide EnvOk, StoreOk;
    if ds != {} {
      ResolveStable(env, store, c, Least(ds));
      ParentStakeStable(env, store, c, ds - {Least(ds)});
    }
  }

  lemma JustifiedStable(env: Env, store: map<Digest, Certificate>, c: Certificate, h: Header)
    requires EnvOk(env) && StoreOk(env, store) && Justified(env, store, h)
    ensures Justified(env, store[env.hash.CertificateDigest(c) := c], h)
  {
    hide EnvOk, StoreOk, ParentStake, Resolve;
    ParentStakeStable(env, store, c, h.parents);
    forall d | d in h.parents
      ensures var store' := store[env.hash.CertificateDigest(c) := c];
        Resolve(env, store', d).Some? && Resolve(env, store', d).value.Round() + 1 == h.round
    {
      ResolveStable(env, store, c, d);
    }
  }

  function Deliver(env: Env, v: CoreView, c: Certificate): CoreView {
    v.(store := v.store[env.hash.CertificateDigest(c) := c], toConsensus := v.toConsensus + [c])
  }

  lemma DeliverKeepsCausal(env: Env, v: CoreView, c: Certificate)
    requires CausallyDelivered(env, v) && AllParentsKnown(env, v.store, c)
    ensures CausallyDelivered(env, Deliver(env, v, c))
  {
    var w := Deliver(env, v, c);
    var n := |v.toConsensus|;
    forall d | d in w.store
      ensures DeliveredBefore(env, w.toConsensus, n + 1, d)
    {
      if d in v.store {
        assert DeliveredBefore(env, v.toConsensus, n, d);
        if d !in env.genesis {
          var k :| 0 <= k < n && env.hash.CertificateDigest(v.toConsensus[k]) == d;
          assert w.toConsensus[k] == v.toConsensus[k];
        }
      } else {
        assert w.toConsensus[n] == c;
      }
    }
    forall i, d | 0 <= i < |w.toConsensus| && d in w.toConsensus[i].header.parents
      ensures DeliveredBefore(env, w.toConsensus, i, d)
    {
      assert DeliveredBefore(env, v.toConsensus, i, d);
      if d !in env.genesis {
        var k :| 0 <= k < i && env.hash.CertificateDigest(v.toConsensus[k]) == d;
        assert w.toConsensus[k] == v.toConsensus[k];
      }
    }
  }

  lemma DeliverKeeps(env: Env, v: CoreView, c: Certificate)
    requires EnvOk(env) && CoreOk(env, v) && Accepted(env, c) && AllParentsKnown(env, v.store, c)
    ensures CoreOk(env, Deliver(env, v, c)) && Grows(v, Deliver(env, v, c))
  {
    hide EnvOk, Accepted, Justified, CausallyDelivered;
    var w := Deliver(env, v, c);
    DeliverKeepsCausal(env, v, c);
    forall d | d in w.store
      ensures StoredOk(env, w.store, d)
    {
      assert d in v.store ==> StoredOk(env, v.store, d);
    }
    forall i | 0 <= i < |w.votes|
      ensures VoteOk(env, w.store, w.votes[i])
    {
      assert VoteOk(env, v.store, v.votes[i]);
      JustifiedStable(env, v.store, c, v.votes[i].header);
    }
  }

  // ---------------------------------------------------------------------
  // What the proposer is handed
  // ---------------------------------------------------------------------

  /** The digests are of known certificates of the round, one at least of each of the names. */
  ghost predicate Collects(env: Env, store: map<Digest, Certificate>, r: Round, ds: seq<Digest>,
      names: set<PublicKey>)
  {
    && (forall d :: d in ds ==> Resolve(env, store, d).Some? && Resolve(env, store, d).value.Round() == r)
    && (forall name :: name in names ==> exists d :: d in ds && Resolve(env, store, d).value.Origin() == name)
  }

  /** Parents for the next round: certificates of a quorum of one round. */
  ghost predicate ProposalOk(env: Env, store: map<Digest, Certificate>, ds: seq<Digest>, r: Round) {
    exists names: set<PublicKey> ::
      env.committee.StakeOf(names) >= env.committee.QuorumThreshold() && Collects(env, store, r, ds, names)
  }

  lemma NothingCollected(env: Env, store: map<Digest, Certificate>, r: Round)
    ensures Collects(env, store, r, [], {})
  {
  }

  lemma CollectsSnoc(env: Env, store: map<Digest, Certificate>, r: Round, ds: seq<Digest>, names: set<PublicKey>,
      c: Certificate)
    requires Collects(env, store, r, ds, names) && StandsFor(env, store, c) && c.Round() == r
    ensures Collects(env, store, r, ds + [env.hash.CertificateDigest(c)], names + {c.Origin()})
  {
    hide Resolve;
    var ds' := ds + [env.hash.CertificateDigest(c)];
    forall name | name in names + {c.Origin()}
      ensures exists d :: d in ds' && Resolve(env, store, d).value.Origin() == name
    {
      if name == c.Origin() {
        assert env.hash.CertificateDigest(c) in ds';
      } else {
        var d :| d in ds && Resolve(env, store, d).value.Origin() == name;
        assert d in ds';
      }
    }
  }

  lemma QuorumCollected(env: Env, store: map<Digest, Certificate>, r: Round, ds: seq<Digest>, names: set<PublicKey>)
    requires Collects(env, store, r, ds, names)
    requires env.committee.StakeOf(names) >= env.committee.QuorumThreshold()
    ensures ProposalOk(env, store, ds, r)
  {
  }

  /** The certificate's digest is known, as one of its round and author. */
  ghost predicate StandsFor(env: Env, store: map<Digest, Certificate>, c: Certificate) {
    var known := Resolve(env, store, env.hash.CertificateDigest(c));
    known.Some? && known.value.Round() == c.Round() && known.value.Origin() == c.Origin()
  }

  lemma StoredStandsFor(env: Env, store: map<Digest, Certificate>, c: Certificate)
    requires EnvOk(env)
    ensures StandsFor(env, store[env.hash.CertificateDigest(c) := c], c)
  {
    var d := env.hash.CertificateDigest(c);
    if d in env.genesis {
      SameCertificateIsSameDigest(env.hash, c, env.genesis[d]);
    }
  }

  lemma CollectsStable(env: Env, store: map<Digest, Certificate>, c: Certificate, r: Round, ds: seq<Digest>,
      names: set<PublicKey>)
    requires EnvOk(env) && StoreOk(env, store) && Collects(env, store, r, ds, names)
    ensures Collects(env, store[env.hash.CertificateDigest(c) := c], r, ds, names)
  {
    hide EnvOk, StoreOk, Resolve;
    var store' := store[env.hash.CertificateDigest(c) := c];
    forall d | d in ds
      ensures Resolve(env, store', d).Some? && Resolve(env, store', d).value.Round() == r
      ensures Resolve(env, store', d).value.Origin() == Resolve(env, store, d).value.Origin()
    {
      ResolveStable(env, store, c, d);
    }
  }

  lemma ProposalStable(env: Env, store: map<Digest, Certificate>, c: Certificate, ds: seq<Digest>, r: Round)
    requires EnvOk(env) && StoreOk(env, store) && ProposalOk(env, store, ds, r)
    ensures ProposalOk(env, store[env.hash.CertificateDigest(c) := c], ds, r)
  {
    hide EnvOk, StoreOk, Collects;
    var names: set<PublicKey> :|
      env.committee.StakeOf(names) >= env.committee.QuorumThreshold() && Collects(env, store, r, ds, names);
    CollectsStable(env, store, c, r, ds, names);
  }

  lemma ProposalJustifies(env: Env, store: map<Digest, Certificate>, ds: seq<Digest>, r: Round, h: Header)
    requires ProposalOk(env, store, ds, r) && h.round == r + 1 && h.parents == set d | d in ds
    ensures Justified(env, store, h)
  {
    hide Justified, Resolve;
    var names: set<PublicKey> :|
      env.committee.StakeOf(names) >= env.committee.QuorumThreshold() && Collects(env, store, r, ds, names);
    QuorumJustifies(env, store, h, names);
  }

  // ---------------------------------------------------------------------
  // Voting and garbage collection
  // ---------------------------------------------------------------------

  predicate HasVoted(v: CoreView, r: Round, name: PublicKey) {
    r in v.lastVoted && name in v.lastVoted[r]
  }

  function CastVote(env: Env, v: CoreView, h: Header): CoreView {
    v.(lastVoted := v.lastVoted[h.round := (if h.round in v.lastVoted then v.lastVoted[h.round] else {}) + {h.author}],
       votes := v.votes + [VoteRecord(MakeVote(env, h), h, v.gcRound)])
  }

  lemma CastVoteKeeps(env: Env, v: CoreView, h: Header)
    requires CoreOk(env, v) && !HasVoted(v, h.round, h.author)
    requires HeaderOk(h, env.committee, env.hash) && Justified(env, v.store, h)
    ensures CoreOk(env, CastVote(env, v, h)) && Grows(v, CastVote(env, v, h))
  {
    hide HeaderOk, Justified, StoreOk, CausallyDelivered;
    var w := CastVote(env, v, h);
    assert CausallyDelivered(env, w) by {
      SameDeliveries(env, v, w);
    }
    forall i | 0 <= i < |w.votes|
      ensures VoteOk(env, w.store, w.votes[i])
    {
      assert i < |v.votes| ==> VoteOk(env, v.store, v.votes[i]);
    }
  }

  lemma SameDeliveries(env: Env, v: CoreView, w: CoreView)
    requires CausallyDelivered(env, v) && w.store == v.store && w.toConsensus == v.toConsensus
    ensures CausallyDelivered(env, w)
  {
  }

  function Collected(v: CoreView, gcRound: Round): CoreView {
    v.(lastVoted := map r | r in v.lastVoted && r >= gcRound :: v.lastVoted[r], gcRound := gcRound)
  }

  lemma CollectKeeps(env: Env, v: CoreView, gcRound: Round)
    requires CoreOk(env, v) && gcRound >= v.gcRound
    ensures CoreOk(env, Collected(v, gcRound))
  {
    hide VoteOk, StoreOk;
    SameDeliveries(env, v, Collected(v, gcRound));
  }

  /** Over its whole run a core votes at most once per author and round, for headers that
      were not older than the garbage-collected round when it voted. */
  lemma VotesAtMostOnce(env: Env, v: CoreView, i: nat, j: nat)
    requires CoreOk(env, v) && i < |v.votes| && j < |v.votes|
    requires v.votes[i].gcAt <= v.votes[i].header.round && v.votes[j].gcAt <= v.votes[j].header.round
    requires SameSlot(v.votes[i].header, v.votes[j].header)
    ensures i == j
  {
    hide VotesOk, StoreOk, CausallyDelivered;
  }

  /** The precondition cannot be dropped. A core that voted in a slot can vote there again,
      for a conflicting header, once the garbage-collected round has passed the slot, and
      not before; its whole invariant holds with both votes on record. */
  lemma SecondVote(env: Env, v: CoreView, i: nat, gcRound: Round, h: Header)
    requires CoreOk(env, v) && gcRound >= v.gcRound && i < |v.votes|
    requires SameSlot(v.votes[i].header, h) && v.votes[i].header.id != h.id && h.round >= v.gcRound
    requires HeaderOk(h, env.committee, env.hash) && Justified(env, v.store, h)
    ensures !HasVoted(Collected(v, gcRound), h.round, h.author) <==> h.round < gcRound
    ensures h.round < gcRound ==>
      var w := CastVote(env, Collected(v, gcRound), h);
      var j := |v.votes|;
      CoreOk(env, w) && |w.votes| == j + 1 && w.votes[i] == v.votes[i] && w.votes[j].header == h
      && SameSlot(w.votes[i].header, w.votes[j].header) && w.votes[i].vote.id != w.votes[j].vote.id
      && w.votes[i].vote.author == w.votes[j].vote.author == env.name
  {
    hide StoreOk, CausallyDelivered, DeliveriesAccepted, Justified, HeaderOk, VotesOnce;
    assert VoteOk(env, v.store, v.votes[i]);
    if h.round < gcRound {
      CollectKeeps(env, v, gcRound);
      CastVoteKeeps(env, Collected(v, gcRound), h);
    }
  }
}
