/** Headers, votes and certificates, and when a node accepts them. */
module Messages {
  import opened Basics
  import opened Config

  type WorkerId = nat

  /** An ideal signature: only `signer` can produce it, and it covers `message`. */
  datatype Signature = Signature(signer: PublicKey, message: Digest)

  datatype Header = Header(
    author: PublicKey,
    round: Round,
    payload: map<Digest, WorkerId>,
    parents: set<Digest>,
    id: Digest,
    signature: Signature)

  datatype Vote = Vote(id: Digest, round: Round, origin: PublicKey, author: PublicKey, signature: Signature)

  datatype Certificate = Certificate(header: Header, votes: seq<(PublicKey, Signature)>) {
    function Round(): Round { header.round }
    function Origin(): PublicKey { header.author }
  }

  datatype DagError =
    | InvalidHeaderId
    | InvalidSignature
    | UnknownAuthority
    | MalformedHeader
    | AuthorityReuse
    | HeaderRequiresQuorum
    | CertificateRequiresQuorum
    | UnexpectedVote
    | TooOld

  /** `Panic` stands for an `expect` that fails and ends the task. */
  datatype DagResult = Ok | Err(error: DagError) | Panic

  /** The hash functions: of a header's content, and of the triple of header id, round
      and author that both votes and certificates hash to. */
  datatype Hasher = Hasher(
    header: (PublicKey, Round, map<Digest, WorkerId>, set<Digest>) -> Digest,
    triple: (Digest, Round, PublicKey) -> Digest)
  {
    ghost predicate Ideal() {
      && (forall a1, r1, p1, s1, a2, r2, p2, s2 :: header(a1, r1, p1, s1) == header(a2, r2, p2, s2) ==>
        a1 == a2 && r1 == r2 && p1 == p2 && s1 == s2)
      && (forall i1, r1, o1, i2, r2, o2 :: triple(i1, r1, o1) == triple(i2, r2, o2) ==>
        i1 == i2 && r1 == r2 && o1 == o2)
    }

    function HeaderDigest(h: Header): Digest {
      header(h.author, h.round, h.payload, h.parents)
    }

    function VoteDigest(v: Vote): Digest {
      triple(v.id, v.round, v.origin)
    }

    function CertificateDigest(c: Certificate): Digest {
      triple(c.header.id, c.header.round, c.header.author)
    }
  }

  /** The digest and key of all zero bytes. */
  const ZERO: nat := 0

  const DEFAULT_HEADER := Header(ZERO, 0, map[], {}, ZERO, Signature(ZERO, ZERO))

  function Genesis(name: PublicKey): Certificate {
    Certificate(DEFAULT_HEADER.(author := name), [])
  }

  /** Equality of certificates compares header id, round and author only. */
  predicate SameCertificate(a: Certificate, b: Certificate) {
    a.header.id == b.header.id && a.Round() == b.Round() && a.Origin() == b.Origin()
  }

  /** With ideal hashing, equality is equality of digests. */
  lemma SameCertificateIsSameDigest(hash: Hasher, a: Certificate, b: Certificate)
    requires hash.Ideal()
    ensures SameCertificate(a, b) <==> hash.CertificateDigest(a) == hash.CertificateDigest(b)
  {
  }

  predicate IsGenesis(c: Certificate, committee: Committee) {
    c.Origin() in committee.authorities && SameCertificate(c, Genesis(c.Origin()))
  }

  predicate Signed(s: Signature, message: Digest, name: PublicKey) {
    s == Signature(name, message)
  }

  /** The workers a header names all belong to its author. */
  predicate KnownWorkers(h: Header, committee: Committee) {
    h.author in committee.authorities && forall d :: d in h.payload ==>
      h.payload[d] in committee.authorities[h.author].workers
  }

  function VerifyHeader(h: Header, committee: Committee, hash: Hasher): (r: DagResult)
    ensures r.Ok? <==> HeaderOk(h, committee, hash)
    ensures !r.Panic?
  {
    if hash.HeaderDigest(h) != h.id then Err(InvalidHeaderId)
    else if committee.Stake(h.author) == 0 then Err(UnknownAuthority)
    else if !KnownWorkers(h, committee) then Err(MalformedHeader)
    else if !Signed(h.signature, h.id, h.author) then Err(InvalidSignature)
    else Ok
  }

  predicate HeaderOk(h: Header, committee: Committee, hash: Hasher) {
    && hash.HeaderDigest(h) == h.id
    && committee.Stake(h.author) > 0
    && KnownWorkers(h, committee)
    && Signed(h.signature, h.id, h.author)
  }

  function VerifyVote(v: Vote, committee: Committee, hash: Hasher): (r: DagResult)
    ensures r.Ok? <==> committee.Stake(v.author) > 0 && Signed(v.signature, hash.VoteDigest(v), v.author)
  {
    if committee.Stake(v.author) == 0 then Err(UnknownAuthority)
    else if !Signed(v.signature, hash.VoteDigest(v), v.author) then Err(InvalidSignature)
    else Ok
  }

  /** A header as its author makes it. */
  function MakeHeader(author: PublicKey, round: Round, payload: map<Digest, WorkerId>, parents: set<Digest>,
      hash: Hasher): Header {
    var id := hash.header(author, round, payload, parents);
    Header(author, round, payload, parents, id, Signature(author, id))
  }

  /** Accepted are exactly the headers that an authority with stake makes and whose payload
      names workers of its own: what an honest author makes passes, and nothing else. */
  lemma AcceptedHeadersAreMade(h: Header, committee: Committee, hash: Hasher)
    ensures VerifyHeader(h, committee, hash).Ok? <==>
      h == MakeHeader(h.author, h.round, h.payload, h.parents, hash)
      && h.author in committee.authorities && committee.authorities[h.author].stake > 0
      && forall d :: d in h.payload ==> h.payload[d] in committee.authorities[h.author].workers
  {
  }

  /** Two accepted headers of one id are the same header, signature included. */
  lemma AcceptedHeadersAgree(a: Header, b: Header, committee: Committee, hash: Hasher)
    requires hash.Ideal() && a.id == b.id
    requires VerifyHeader(a, committee, hash).Ok? && VerifyHeader(b, committee, hash).Ok?
    ensures a == b
  {
    assert hash.header(a.author, a.round, a.payload, a.parents) == hash.header(b.author, b.round, b.payload, b.parents);
  }

  /** An accepted vote is determined by its author and by what it is cast for. */
  lemma AcceptedVotesAgree(u: Vote, v: Vote, committee: Committee, hash: Hasher)
    requires hash.Ideal() && u.author == v.author && hash.VoteDigest(u) == hash.VoteDigest(v)
    requires VerifyVote(u, committee, hash).Ok? && VerifyVote(v, committee, hash).Ok?
    ensures u == v
  {
  }

  // ---------------------------------------------------------------------
  // Certificate::verify
  // ---------------------------------------------------------------------

  function Voters(votes: seq<(PublicKey, Signature)>): set<PublicKey> {
    set v | v in votes :: v.0
  }

  ghost predicate DistinctVoters(votes: seq<(PublicKey, Signature)>) {
    forall i, j :: 0 <= i < j < |votes| ==> votes[i].0 != votes[j].0
  }

  /** Distinct voters of positive stake that together reach the quorum. */
  ghost predicate Quorate(votes: seq<(PublicKey, Signature)>, committee: Committee) {
    && DistinctVoters(votes)
    && (forall v :: v in votes ==> committee.Stake(v.0) > 0)
    && committee.StakeOf(Voters(votes)) >= committee.QuorumThreshold()
  }

  ghost predicate AllSigned(votes: seq<(PublicKey, Signature)>, message: Digest) {
    forall v :: v in votes ==> Signed(v.1, message, v.0)
  }

  ghost predicate Certified(c: Certificate, committee: Committee, hash: Hasher) {
    Quorate(c.votes, committee) && AllSigned(c.votes, hash.CertificateDigest(c))
  }

  lemma VotersSnoc(votes: seq<(PublicKey, Signature)>, v: (PublicKey, Signature))
    ensures Voters(votes + [v]) == Voters(votes) + {v.0}
  {
    forall name
      ensures name in Voters(votes + [v]) <==> name in Voters(votes) + {v.0}
    {
      if name in Voters(votes) {
        var u :| u in votes && u.0 == name;
        assert u in votes + [v];
      }
      if name == v.0 {
        assert v in votes + [v];
      }
    }
  }

  ghost predicate KnownVoters(votes: seq<(PublicKey, Signature)>, committee: Committee) {
    DistinctVoters(votes) && forall v :: v in votes ==> committee.Stake(v.0) > 0
  }

  lemma KnownSnoc(votes: seq<(PublicKey, Signature)>, committee: Committee, v: (PublicKey, Signature))
    requires KnownVoters(votes, committee) && v.0 !in Voters(votes) && committee.Stake(v.0) > 0
    ensures KnownVoters(votes + [v], committee)
  {
    assert forall k :: 0 <= k < |votes| ==> votes[k].0 in Voters(votes);
  }

  method VerifyVotes(votes: seq<(PublicKey, Signature)>, committee: Committee) returns (r: DagResult)
    ensures r.Ok? <==> Quorate(votes, committee)
    ensures r == Err(CertificateRequiresQuorum) ==> KnownVoters(votes, committee)
    ensures !r.Panic?
  {
    hide Voters, KnownVoters, DistinctVoters, Quorate;
    var weight := 0;
    var used: set<PublicKey> := {};
    var i := 0;
    assert votes[..0] == [];
    NoVoters(committee);
    while i < |votes|
      invariant 0 <= i <= |votes|
      invariant used == Voters(votes[..i]) && weight == committee.StakeOf(used)
      invariant KnownVoters(votes[..i], committee)
    {
      var name := votes[i].0;
      assert votes[..i + 1] == votes[..i] + [votes[i]];
      VotersSnoc(votes[..i], votes[i]);
      if name in used {
        NotQuorate(votes, committee, i);
        return Err(AuthorityReuse);
      }
      var votingRights := committee.Stake(name);
      if votingRights == 0 {
        NotQuorate(votes, committee, i);
        return Err(UnknownAuthority);
      }
      KnownSnoc(votes[..i], committee, votes[i]);
      StakeAdd(committee, used, name);
      used := used + {name};
      weight := weight + votingRights;
      i := i + 1;
    }
    assert votes[..i] == votes;
    QuorateMeans(votes, committee);
    if weight < committee.QuorumThreshold() {
      return Err(CertificateRequiresQuorum);
    }
    r := Ok;
  }

  lemma NoVoters(committee: Committee)
    ensures Voters([]) == {} && KnownVoters([], committee)
  {
  }

  lemma QuorateMeans(votes: seq<(PublicKey, Signature)>, committee: Committee)
    ensures Quorate(votes, committee) <==>
      KnownVoters(votes, committee) && committee.StakeOf(Voters(votes)) >= committee.QuorumThreshold()
  {
  }

  lemma NotQuorate(votes: seq<(PublicKey, Signature)>, committee: Committee, i: nat)
    requires i < |votes| && (votes[i].0 in Voters(votes[..i]) || committee.Stake(votes[i].0) == 0)
    ensures !Quorate(votes, committee)
  {
    assert votes[i] in votes;
    if votes[i].0 in Voters(votes[..i]) {
      var u :| u in votes[..i] && u.0 == votes[i].0;
      var k :| 0 <= k < i && votes[k] == u;
    }
  }

  method VerifySignatures(votes: seq<(PublicKey, Signature)>, message: Digest) returns (valid: bool)
    ensures valid <==> AllSigned(votes, message)
  {
    var i := 0;
    while i < |votes|
      invariant 0 <= i <= |votes| && forall k :: 0 <= k < i ==> Signed(votes[k].1, message, votes[k].0)
    {
      if !Signed(votes[i].1, message, votes[i].0) {
        assert votes[i] in votes;
        return false;
      }
      i := i + 1;
    }
    valid := true;
  }

  /** Accepts exactly genesis and the certificates with a sound header and a quorum of
      distinct, known voters who all signed this certificate's digest. */
  method VerifyCertificate(c: Certificate, committee: Committee, hash: Hasher) returns (r: DagResult)
    ensures r.Ok? <==> IsGenesis(c, committee) || (HeaderOk(c.header, committee, hash) && Certified(c, committee, hash))
    ensures !r.Panic?
  {
    if IsGenesis(c, committee) {
      return Ok;
    }
    r := VerifyHeader(c.header, committee, hash);
    if !r.Ok? {
      return;
    }
    r := VerifyVotes(c.votes, committee);
    if !r.Ok? {
      return;
    }
    var valid := VerifySignatures(c.votes, hash.CertificateDigest(c));
    r := if valid then Ok else Err(InvalidSignature);
  }
}
