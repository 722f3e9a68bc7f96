/** Collecting votes into a certificate, and certificates into a set of parents. */
module Aggregators {
  import opened Basics
  import opened Config
  import opened Messages

  /** After a quorum is reached the counter restarts; what is left to collect is too
      little to reach it again. */
  lemma LeftoverBelowQuorum(c: Committee, first: set<PublicKey>, later: set<PublicKey>)
    requires c.StakeOf(first) >= c.QuorumThreshold() && first <= later
    ensures c.StakeOf(later - first) < c.QuorumThreshold()
  {
    StakeDisjointUnion(c, first, later - first);
    assert first + (later - first) == later;
    StakeBounded(c, later);
  }

  /** The counter holds the stake collected since it last restarted. */
  ghost predicate Counts(c: Committee, weight: nat, used: set<PublicKey>, reached: Option<set<PublicKey>>) {
    match reached
    case None => weight == c.StakeOf(used) && weight < c.QuorumThreshold()
    case Some(first) => first <= used && c.StakeOf(first) >= c.QuorumThreshold() && weight == c.StakeOf(used - first)
  }

  /** Counting one more name reaches the quorum exactly when it is the first time that
      the stake of all names does. */
  lemma CountOne(c: Committee, weight: nat, used: set<PublicKey>, reached: Option<set<PublicKey>>, name: PublicKey)
    requires Counts(c, weight, used, reached) && name !in used
    ensures weight + c.Stake(name) >= c.QuorumThreshold() <==>
      reached.None? && c.StakeOf(used + {name}) >= c.QuorumThreshold()
    ensures weight + c.Stake(name) >= c.QuorumThreshold() ==> Counts(c, 0, used + {name}, Some(used + {name}))
    ensures weight + c.Stake(name) < c.QuorumThreshold() ==> Counts(c, weight + c.Stake(name), used + {name}, reached)
  {
    match reached {
      case None =>
        StakeAdd(c, used, name);
        assert used + {name} - (used + {name}) == {};
      case Some(first) =>
        StakeAdd(c, used - first, name);
        assert used + {name} - first == used - first + {name};
        LeftoverBelowQuorum(c, first, used + {name});
    }
  }

  class VotesAggregator {
    var weight: nat
    var votes: seq<(PublicKey, Signature)>
    var used: set<PublicKey>

    /** The voters of the certificate already made, if any. */
    ghost var reached: Option<set<PublicKey>>

    ghost predicate Valid(committee: Committee)
      reads this
    {
      used == Voters(votes) && DistinctVoters(votes) && Counts(committee, weight, used, reached)
    }

    constructor ()
      ensures votes == [] && used == {} && reached == None
      ensures forall committee: Committee :: Valid(committee)
    {
      weight, votes, used, reached := 0, [], {}, None;
    }

    /** Yields a certificate the first time the collected stake reaches the quorum, and
        never again. */
    method Append(vote: Vote, committee: Committee, header: Header)
        returns (r: DagResult, certificate: Option<Certificate>)
      requires Valid(committee)
      modifies this
      ensures Valid(committee) && !r.Panic?
      ensures vote.author in old(used) ==>
        r == Err(AuthorityReuse) && certificate.None? && votes == old(votes) && used == old(used)
          && reached == old(reached)
      ensures vote.author !in old(used) ==>
        && r.Ok? && votes == old(votes) + [(vote.author, vote.signature)] && used == old(used) + {vote.author}
        && (certificate.Some? <==> old(reached).None? && committee.StakeOf(used) >= committee.QuorumThreshold())
        && reached == (if certificate.Some? then Some(used) else old(reached))
      ensures certificate.Some? ==> certificate.value == Certificate(header, votes)
    {
      var author := vote.author;
      if author in used {
        return Err(AuthorityReuse), None;
      }
      CountOne(committee, weight, used, reached, author);
      VotersSnoc(votes, (author, vote.signature));
      NewVoter(votes, author);
      used := used + {author};
      votes := votes + [(author, vote.signature)];
      weight := weight + committee.Stake(author);
      if weight >= committee.QuorumThreshold() {
        weight := 0;
        reached := Some(used);
        return Ok, Some(Certificate(header, votes));
      }
      return Ok, None;
    }
  }

  lemma NewVoter(votes: seq<(PublicKey, Signature)>, name: PublicKey)
    requires name !in Voters(votes)
    ensures forall k :: 0 <= k < |votes| ==> votes[k].0 != name
  {
    assert forall k :: 0 <= k < |votes| ==> votes[k] in votes;
  }

  /** A certificate yielded from votes that all verify for its header passes the voter
      and signature checks of every other node. */
  lemma YieldedPasses(c: Certificate, committee: Committee, hash: Hasher)
    requires DistinctVoters(c.votes) && committee.StakeOf(Voters(c.votes)) >= committee.QuorumThreshold()
    requires forall v :: v in c.votes ==>
      VerifyVote(Vote(c.header.id, c.header.round, c.header.author, v.0, v.1), committee, hash).Ok?
    ensures Certified(c, committee, hash)
  {
  }

  class CertificatesAggregator {
    var weight: nat
    var certificates: seq<Digest>
    var used: set<PublicKey>
    ghost var reached: Option<set<PublicKey>>

    ghost predicate Valid(committee: Committee)
      reads this
    {
      Counts(committee, weight, used, reached)
    }

    constructor ()
      ensures certificates == [] && used == {} && reached == None
      ensures forall committee: Committee :: Valid(committee)
    {
      weight, certificates, used, reached := 0, [], {}, None;
    }

    /** Yields all digests collected so far the first time their authors' stake reaches
        the quorum, and never again; a second certificate of an author is ignored. */
    method Append(certificate: Certificate, committee: Committee, hash: Hasher) returns (parents: Option<seq<Digest>>)
      requires Valid(committee)
      modifies this
      ensures Valid(committee)
      ensures certificate.Origin() in old(used) ==>
        parents.None? && certificates == old(certificates) && used == old(used) && reached == old(reached)
      ensures certificate.Origin() !in old(used) ==>
        && used == old(used) + {certificate.Origin()}
        && (parents.Some? <==> old(reached).None? && committee.StakeOf(used) >= committee.QuorumThreshold())
        && reached == (if parents.Some? then Some(used) else old(reached))
        && certificates == (if parents.Some? then [] else old(certificates) + [hash.CertificateDigest(certificate)])
      ensures parents.Some? ==> parents.value == old(certificates) + [hash.CertificateDigest(certificate)]
    {
      var origin := certificate.Origin();
      if origin in used {
        return None;
      }
      CountOne(committee, weight, used, reached, origin);
      used := used + {origin};
      certificates := certificates + [hash.CertificateDigest(certificate)];
      weight := weight + committee.Stake(origin);
      if weight >= committee.QuorumThreshold() {
        weight := 0;
        reached := Some(used);
        parents := Some(certificates);
        certificates := [];
        return;
      }
      parents := None;
    }
  }
}
