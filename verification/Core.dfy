/** The primary's core: processing headers, votes and certificates. */
module Core {
  import opened Basics
  import opened Messages
  import opened Aggregators
  import opened CoreState

  /** The entries of the given round and later ones. */
  function Since<T>(entries: map<Round, T>, round: Round): map<Round, T> {
    map r | r in entries && r >= round :: entries[r]
  }

  function Marked(processing: map<Round, set<Digest>>, header: Header): map<Round, set<Digest>> {
    processing[header.round := (if header.round in processing then processing[header.round] else {}) + {header.id}]
  }

  predicate IsMarked(processing: map<Round, set<Digest>>, header: Header) {
    header.round in processing && header.id in processing[header.round]
  }

  ghost predicate MarksKept(before: map<Round, set<Digest>>, after: map<Round, set<Digest>>) {
    forall r :: r in before ==> r in after && before[r] <= after[r]
  }

  /** The header goes to the waiter: a parent is missing, or the payload of a header that
      is otherwise in order. */
  ghost predicate Suspends(env: Env, store: map<Digest, Certificate>, header: Header, missingPayload: bool) {
    || (exists d :: d in header.parents && Resolve(env, store, d).None?)
    || (Justified(env, store, header) && missingPayload && header.author != env.name)
  }

  /** The author gets a vote, unless it had one: parents in order and payload here. */
  ghost predicate VoteDue(env: Env, store: map<Digest, Certificate>, header: Header, missingPayload: bool) {
    Justified(env, store, header) && !(missingPayload && header.author != env.name)
  }

  ghost predicate NewVoteDue(env: Env, v: CoreView, header: Header, missingPayload: bool) {
    VoteDue(env, v.store, header, missingPayload) && !HasVoted(v, header.round, header.author)
  }

  /** Our own vote is collected as soon as it is made. */
  ghost function OwnVoter(env: Env, v: CoreView, header: Header): set<PublicKey> {
    if header.author == env.name && NewVoteDue(env, v, header, false) then {env.name} else {}
  }

  /** The parents are all known, and are not a quorum of the round before. */
  ghost predicate Refused(env: Env, store: map<Digest, Certificate>, header: Header) {
    && header.parents != {} && (forall d :: d in header.parents ==> Resolve(env, store, d).Some?)
    && !Justified(env, store, header)
  }

  /** A vote for our own header is due once more although ours is already collected:
      then collecting it fails, which the source does not expect. */
  ghost predicate VotesTwice(env: Env, v: CoreView, used: set<PublicKey>, header: Header) {
    && header.author == env.name && Justified(env, v.store, header)
    && !HasVoted(v, header.round, header.author) && env.name in used
  }

  class Core {
    const env: Env
    const gcDepth: Round

    var store: map<Digest, Certificate>
    var gcRound: Round
    var consensusRound: Round
    var lastVoted: map<Round, set<PublicKey>>
    var processing: map<Round, set<Digest>>
    var currentHeader: Header
    var votesAggregator: VotesAggregator
    var certificatesAggregators: map<Round, CertificatesAggregator>

    /** What was sent to consensus, the proposer and the two waiters, and every vote made. */
    var toConsensus: seq<Certificate>
    var toProposer: seq<(seq<Digest>, Round)>
    var headerWaiter: set<Header>
    var certificateWaiter: set<Certificate>
    ghost var votes: seq<VoteRecord>

    ghost function View(): CoreView
      reads this`store, this`lastVoted, this`gcRound, this`votes, this`toConsensus
    {
      CoreView(store, lastVoted, gcRound, votes, toConsensus)
    }

    ghost predicate AggregatorsOk()
      reads this`votesAggregator, this`currentHeader, this`certificatesAggregators
      reads votesAggregator, certificatesAggregators.Values
    {
      && votesAggregator.Valid(env.committee)
      && (forall v :: v in votesAggregator.votes ==>
        VerifyVote(Vote(currentHeader.id, currentHeader.round, currentHeader.author, v.0, v.1), env.committee,
          env.hash).Ok?)
      && (forall r :: r in certificatesAggregators ==> certificatesAggregators[r].Valid(env.committee))
      && (forall r, s :: r in certificatesAggregators && s in certificatesAggregators && r != s ==>
        certificatesAggregators[r] != certificatesAggregators[s])
    }

    /** What is collected for the proposer, and what it was sent, are certificates of one
        round each, and a quorum of them in what it was sent. */
    ghost predicate ProposalsOk()
      reads this`store, this`toProposer, this`certificatesAggregators, certificatesAggregators.Values
    {
      && (forall r :: r in certificatesAggregators && certificatesAggregators[r].reached.None? ==>
        Collects(env, store, r, certificatesAggregators[r].certificates, certificatesAggregators[r].used))
      && (forall i :: 0 <= i < |toProposer| ==> ProposalOk(env, store, toProposer[i].0, toProposer[i].1))
    }

    /** Headers and certificates come back from the waiters as they were checked before. */
    ghost predicate WaitersOk()
      reads this`headerWaiter, this`certificateWaiter
    {
      && (forall h :: h in headerWaiter ==> Processable(h))
      && (forall c :: c in certificateWaiter ==> Accepted(env, c))
    }

    ghost predicate Processable(h: Header) {
      HeaderOk(h, env.committee, env.hash) || h.round == 0
    }

    ghost predicate Consistent()
      reads this, votesAggregator, certificatesAggregators.Values
    {
      && EnvOk(env) && CoreOk(env, View()) && AggregatorsOk() && ProposalsOk() && WaitersOk()
      && gcRound == (if consensusRound > gcDepth then consensusRound - gcDepth else 0)
      && (currentHeader == DEFAULT_HEADER || HeaderOk(currentHeader, env.committee, env.hash))
    }

    /** Between events the current header is also known to be processed, until its round
        is garbage-collected. */
    ghost predicate Valid()
      reads this, votesAggregator, certificatesAggregators.Values
    {
      Consistent()
        && (currentHeader == DEFAULT_HEADER || currentHeader.round < gcRound || IsMarked(processing, currentHeader))
    }

    /** Nobody else signs our headers: one that carries our name is genesis, the current
        one, or one we voted for when we made it. */
    ghost predicate OursIsKnown(h: Header)
      reads this
    {
      h.author == env.name && h.round > 0 ==> h == currentHeader || HasVoted(View(), h.round, h.author)
    }

    constructor (env: Env, gcDepth: Round)
      requires EnvOk(env)
      ensures Valid() && View() == CoreView(map[], map[], 0, [], []) && this.env == env
    {
      hide Counts, VerifyVote, Collects, ProposalOk;
      this.env, this.gcDepth := env, gcDepth;
      store, gcRound, consensusRound, lastVoted, processing := map[], 0, 0, map[], map[];
      currentHeader := DEFAULT_HEADER;
      certificatesAggregators := map[];
      toConsensus, toProposer, headerWaiter, certificateWaiter, votes := [], [], {}, {}, [];
      votesAggregator := new VotesAggregator();
    }

    // -------------------------------------------------------------------
    // Headers
    // -------------------------------------------------------------------

    /** The parents of a header, or none if one of them is missing. */
    method GetParents(header: Header) returns (parents: map<Digest, Certificate>)
      modifies this`headerWaiter
      ensures (forall d :: d in header.parents ==> Resolve(env, store, d).Some?) ==>
        headerWaiter == old(headerWaiter) && parents.Keys == header.parents
        && forall d :: d in parents ==> Resolve(env, store, d) == Some(parents[d])
      ensures !(forall d :: d in header.parents ==> Resolve(env, store, d).Some?) ==>
        headerWaiter == old(headerWaiter) + {header} && parents == map[]
    {
      parents := map[];
      var missing: set<Digest> := {};
      var left := header.parents;
      while left != {}
        invariant left <= header.parents && parents.Keys + missing == header.parents - left && parents.Keys !! missing
        invariant forall d :: d in parents ==> Resolve(env, store, d) == Some(parents[d])
        invariant forall d :: d in missing ==> Resolve(env, store, d).None?
        invariant headerWaiter == old(headerWaiter)
        decreases left
      {
        var d :| d in left;
        match Resolve(env, store, d) {
          case Some(c) => parents := parents[d := c];
          case None => missing := missing + {d};
        }
        left := left - {d};
      }
      if missing != {} {
        ghost var d :| d in missing;
        headerWaiter := headerWaiter + {header};
        parents := map[];
      }
    }

    /** The parents must all be of the round before and carry a quorum. */
    method CheckParents(header: Header, parents: map<Digest, Certificate>) returns (r: DagResult)
      requires parents.Keys == header.parents && parents != map[]
      requires forall d :: d in parents ==> Resolve(env, store, d) == Some(parents[d])
      ensures r.Ok? <==> Justified(env, store, header)
      ensures r == Ok || r == Err(MalformedHeader) || r == Err(HeaderRequiresQuorum)
    {
      var stake := 0;
      var left := parents.Keys;
      assert header.parents != {};
      while left != {}
        invariant left <= header.parents
        invariant stake + ParentStake(env, store, left) == ParentStake(env, store, header.parents)
        invariant forall d :: d in header.parents - left ==> parents[d].Round() + 1 == header.round
        decreases left
      {
        var d := Least(left);
        if parents[d].Round() + 1 != header.round {
          return Err(MalformedHeader);
        }
        stake := stake + env.committee.Stake(parents[d].Origin());
        left := left - {d};
      }
      if stake < env.committee.QuorumThreshold() {
        return Err(HeaderRequiresQuorum);
      }
      r := Ok;
    }

    /** What every event keeps, besides the invariant. */
    twostate predicate Stepped()
      reads this, votesAggregator, certificatesAggregators.Values
    {
      && Grows(old(View()), View())
      && votesAggregator == old(votesAggregator) && currentHeader == old(currentHeader)
      && old(votesAggregator.used) <= votesAggregator.used
      && fresh(certificatesAggregators.Values - old(certificatesAggregators.Values))
      && consensusRound == old(consensusRound)
      && old(toProposer) <= toProposer
      && MarksKept(old(processing), processing) && old(headerWaiter) <= headerWaiter
        && old(certificateWaiter) <= certificateWaiter
    }

    /** Suspend a header with missing parents or payload; refuse one whose parents are
        not a quorum of the round before; otherwise vote for it, once per author. */
    method ProcessHeader(header: Header, missingPayload: bool, ghost universe: set<PublicKey>) returns (r: DagResult)
      requires Consistent() && Processable(header) && OursIsKnown(header) && env.name in universe
      modifies this, votesAggregator, certificatesAggregators.Values
      ensures Consistent() && Stepped()
      ensures HasVoted(old(View()), header.round, header.author) ==> View() == old(View())
      ensures !VoteDue(env, old(store), header, missingPayload) ==> View() == old(View())
      ensures VoteDue(env, old(store), header, missingPayload) ==> HasVoted(View(), header.round, header.author)
      ensures NewVoteDue(env, old(View()), header, missingPayload) ==>
        |votes| > old(|votes|) && votes[old(|votes|)].header == header
      ensures NewVoteDue(env, old(View()), header, missingPayload) && header.author != env.name ==>
        View() == CastVote(env, old(View()), header)
      ensures IsMarked(processing, header)
      ensures Suspends(env, old(store), header, missingPayload) ==> header in headerWaiter && r.Ok?
      ensures r.Err? <==> Refused(env, old(store), header)
      ensures r.Panic? <==> VotesTwice(env, old(View()), old(votesAggregator.used), header)
      ensures votesAggregator.used == old(votesAggregator.used) + OwnVoter(env, old(View()), header)
      ensures OwnVoter(env, old(View()), header) == {} ==> votesAggregator.reached == old(votesAggregator.reached)
      ensures (header.author == env.name && NewVoteDue(env, old(View()), header, missingPayload)
               && Completes(old(votesAggregator.reached), old(votesAggregator.used), env.name)) ==>
        |toConsensus| > old(|toConsensus|) && toConsensus[|toConsensus| - 1].header == header
      decreases universe - votesAggregator.used, 2
    {
      hide EnvOk, CoreOk, Justified, HeaderOk, AggregatorsOk, ProposalsOk, Grows, VerifyVote, WaitersOk, Suspends;
      hide Marked, IsMarked, MarksKept, Completes, Resolve, Refused;
      JustifiedMeans(env, store, header);
      ghost var before := View();
      GrowsItself(before);
      var ready;
      ghost var marks := processing;
      r, ready := CheckHeader(header, missingPayload);
      ghost var marked := processing;
      MarkedKeeps(marks, header);
      KeptItself(marked);
      if !ready {
        return;
      }
      r := VoteFor(header, universe);
      MarkStays(marks, marked, processing, header);
    }

    /** Vote for a header, and count the vote at once if the header is ours. */
    method VoteFor(header: Header, ghost universe: set<PublicKey>) returns (r: DagResult)
      requires Consistent() && Processable(header) && OursIsKnown(header) && env.name in universe
      requires Justified(env, store, header) && !HasVoted(View(), header.round, header.author)
      requires IsMarked(processing, header)
      modifies this, votesAggregator, certificatesAggregators.Values
      ensures Consistent() && Stepped() && !r.Err?
      ensures HasVoted(View(), header.round, header.author)
      ensures |votes| > old(|votes|) && votes[old(|votes|)].header == header
      ensures header.author != env.name ==>
        r.Ok? && View() == CastVote(env, old(View()), header) && votesAggregator.used == old(votesAggregator.used)
        && votesAggregator.reached == old(votesAggregator.reached)
      ensures header.author == env.name ==>
        (r.Panic? <==> env.name in old(votesAggregator.used))
        && votesAggregator.used == old(votesAggregator.used) + {env.name}
        && (Completes(old(votesAggregator.reached), old(votesAggregator.used), env.name) ==>
          |toConsensus| > old(|toConsensus|) && toConsensus[|toConsensus| - 1].header == header)
      decreases universe - votesAggregator.used, 1
    {
      hide EnvOk, CoreOk, Justified, HeaderOk, AggregatorsOk, ProposalsOk, Grows, VerifyVote, WaitersOk, MarksKept;
      hide Completes, Resolve, IsMarked;
      JustifiedMeans(env, store, header);
      KeptItself(processing);
      ghost var before := View();
      GrowsItself(before);
      var vote := CastVoteFor(header);
      if vote.origin == env.name {
        ghost var voted := View();
        CompletesMeans(votesAggregator.reached, votesAggregator.used, env.name);
        var own := ProcessVote(vote, universe);
        HasVotedGrows(voted, View(), header.round, header.author);
        GrowsTransitive(before, voted, View());
        FirstVoteStays(before, voted, View());
        if !own.Ok? {
          return Panic;
        }
      }
      r := Ok;
    }

    /** Everything up to the vote: it is due when the parents are a quorum of the round
        before, the payload is here, and the author has no vote from us yet. */
    method CheckHeader(header: Header, missingPayload: bool) returns (r: DagResult, ready: bool)
      requires Consistent() && Processable(header)
      modifies this`processing, this`headerWaiter
      ensures Consistent()
      ensures ready <==> VoteDue(env, store, header, missingPayload) && !HasVoted(View(), header.round, header.author)
      ensures processing == Marked(old(processing), header)
      ensures headerWaiter == old(headerWaiter) + if Suspends(env, store, header, missingPayload) then {header} else {}
      ensures Suspends(env, store, header, missingPayload) ==> r.Ok? && !ready
      ensures !r.Panic? && (r.Err? <==> Refused(env, store, header)) && (ready ==> r.Ok?)
    {
      hide EnvOk, CoreOk, Justified, HeaderOk, Accepted, AggregatorsOk, ProposalsOk, Marked, Suspends, Resolve;
      processing := Marked(processing, header);
      var parents := GetParents(header);
      SuspendsMeans(env, store, header, missingPayload);
      if parents == map[] {
        NoParentsNoVote(env, store, header);
        return Ok, false;
      }
      r := CheckParents(header, parents);
      if !r.Ok? {
        return r, false;
      }
      var missing := header.author != env.name && missingPayload;
      if missing {
        headerWaiter := headerWaiter + {header};
        return Ok, false;
      }
      ready := !(header.round in lastVoted && header.author in lastVoted[header.round]);
    }

    /** Remember the author and sign a vote for its header. */
    method CastVoteFor(header: Header) returns (vote: Vote)
      requires Consistent() && Processable(header) && Justified(env, store, header)
      requires !HasVoted(View(), header.round, header.author)
      modifies this`lastVoted, this`votes
      ensures Consistent() && View() == CastVote(env, old(View()), header) && Grows(old(View()), View())
      ensures vote == MakeVote(env, header) && VerifyVote(vote, env.committee, env.hash).Ok?
    {
      hide EnvOk, CoreOk, Justified, HeaderOk, AggregatorsOk, ProposalsOk, Grows, VerifyVote, WaitersOk;
      JustifiedIsLater(env, store, header);
      CastVoteKeeps(env, View(), header);
      OwnVoteVerifies(env, header);
      var names := if header.round in lastVoted then lastVoted[header.round] else {};
      lastVoted := lastVoted[header.round := names + {header.author}];
      vote := MakeVote(env, header);
      votes := votes + [VoteRecord(vote, header, gcRound)];
    }

    /** Whether all ancestors are stored; if not, the certificate waits for them. */
    method DeliverCertificate(certificate: Certificate) returns (complete: bool)
      requires WaitersOk() && Accepted(env, certificate)
      modifies this`certificateWaiter
      ensures WaitersOk()
      ensures complete <==> AllParentsKnown(env, store, certificate)
      ensures certificateWaiter == if complete then old(certificateWaiter) else old(certificateWaiter) + {certificate}
    {
      hide Accepted, Processable;
      var left := certificate.header.parents;
      while left != {}
        invariant left <= certificate.header.parents && certificateWaiter == old(certificateWaiter)
        invariant forall d :: d in certificate.header.parents - left ==> d in env.genesis || d in store
        decreases left
      {
        var d :| d in left;
        if d !in env.genesis && d !in store {
          certificateWaiter := certificateWaiter + {certificate};
          return false;
        }
        left := left - {d};
      }
      complete := true;
    }

    /** Authors, digests and quorum collected so far for a round. */
    ghost function UsedAt(r: Round): set<PublicKey>
      reads this`certificatesAggregators, certificatesAggregators.Values
    {
      if r in certificatesAggregators then certificatesAggregators[r].used else {}
    }

    ghost function DigestsAt(r: Round): seq<Digest>
      reads this`certificatesAggregators, certificatesAggregators.Values
    {
      if r in certificatesAggregators then certificatesAggregators[r].certificates else []
    }

    ghost function ReachedAt(r: Round): Option<set<PublicKey>>
      reads this`certificatesAggregators, certificatesAggregators.Values
    {
      if r in certificatesAggregators then certificatesAggregators[r].reached else None
    }

    /** The certificate that completes a quorum sends the proposer all digests of its round. */
    ghost function ParentsFor(c: Certificate, reached: Option<set<PublicKey>>, used: set<PublicKey>,
        digests: seq<Digest>): seq<(seq<Digest>, Round)> {
      if Completes(reached, used, c.Origin()) then [(digests + [env.hash.CertificateDigest(c)], c.Round())] else []
    }

    /** The certificate was counted for its round, and the proposer was sent the digests of
        the round if that completed a quorum. */
    twostate predicate Counted(c: Certificate)
      reads this`certificatesAggregators, this`toProposer, certificatesAggregators.Values
    {
      && UsedAt(c.Round()) == old(UsedAt(c.Round())) + {c.Origin()}
      && toProposer == old(toProposer) + ParentsFor(c, old(ReachedAt(c.Round())), old(UsedAt(c.Round())),
        old(DigestsAt(c.Round())))
    }

    /** Count the certificate towards the parents of the next round. */
    method AggregateCertificate(certificate: Certificate)
      requires AggregatorsOk() && ProposalsOk() && StandsFor(env, store, certificate)
      modifies this`certificatesAggregators, this`toProposer, certificatesAggregators.Values
      ensures AggregatorsOk() && ProposalsOk()
      ensures fresh(certificatesAggregators.Values - old(certificatesAggregators.Values))
      ensures Counted(certificate)
    {
      hide Collects, ProposalOk, StandsFor, AggregatorsOk;
      var round := certificate.Round();
      AddAggregator(round);
      var parents := AppendTo(round, certificate);
      if parents.Some? {
        toProposer := toProposer + [(parents.value, round)];
      }
    }

    method AppendTo(round: Round, certificate: Certificate) returns (parents: Option<seq<Digest>>)
      requires AggregatorsOk() && ProposalsOk() && StandsFor(env, store, certificate)
      requires round in certificatesAggregators && round == certificate.Round()
      modifies certificatesAggregators[round]
      ensures AggregatorsOk() && ProposalsOk()
      ensures UsedAt(round) == old(UsedAt(round)) + {certificate.Origin()}
      ensures parents.Some? <==> Completes(old(ReachedAt(round)), old(UsedAt(round)), certificate.Origin())
      ensures parents.Some? ==> parents.value == old(DigestsAt(round)) + [env.hash.CertificateDigest(certificate)]
      ensures parents.Some? ==> ProposalOk(env, store, parents.value, round)
    {
      hide Collects, ProposalOk, StandsFor, VerifyVote, Counts;
      hide CertificatesAggregator.Valid, VotesAggregator.Valid;
      var aggregator := certificatesAggregators[round];
      if aggregator.reached.None? {
        CollectsSnoc(env, store, round, aggregator.certificates, aggregator.used, certificate);
      }
      parents := aggregator.Append(certificate, env.committee, env.hash);
      if parents.Some? {
        QuorumCollected(env, store, round, parents.value, aggregator.used);
      }
    }

    /** The aggregator of a round is made when the first certificate of the round comes. */
    method AddAggregator(round: Round)
      requires AggregatorsOk() && ProposalsOk()
      modifies this`certificatesAggregators
      ensures AggregatorsOk() && ProposalsOk() && round in certificatesAggregators
      ensures fresh(certificatesAggregators.Values - old(certificatesAggregators.Values))
      ensures forall r :: UsedAt(r) == old(UsedAt(r)) && ReachedAt(r) == old(ReachedAt(r))
      ensures forall r :: DigestsAt(r) == old(DigestsAt(r))
    {
      hide Collects, ProposalOk, VerifyVote;
      if round !in certificatesAggregators {
        NothingCollected(env, store, round);
        var created := new CertificatesAggregator();
        certificatesAggregators := certificatesAggregators[round := created];
      }
    }

    /** The vote brings the stake of all voters to the quorum for the first time. */
    predicate Completes(reached: Option<set<PublicKey>>, used: set<PublicKey>, name: PublicKey) {
      name !in used && reached.None? && env.committee.StakeOf(used + {name}) >= env.committee.QuorumThreshold()
    }

    lemma CompletesMeans(reached: Option<set<PublicKey>>, used: set<PublicKey>, name: PublicKey)
      ensures Completes(reached, used, name) ==> name !in used
    {
    }

    /** Append a vote; the certificate this may yield passes every node's checks. */
    method CountVote(vote: Vote) returns (r: DagResult, certificate: Option<Certificate>)
      requires Consistent()
      requires vote.id == currentHeader.id && vote.round == currentHeader.round && vote.origin == currentHeader.author
      requires VerifyVote(vote, env.committee, env.hash).Ok?
      modifies votesAggregator
      ensures Consistent()
      ensures vote.author in old(votesAggregator.used) ==>
        r == Err(AuthorityReuse) && certificate.None? && votesAggregator.used == old(votesAggregator.used)
      ensures vote.author !in old(votesAggregator.used) ==>
        r.Ok? && votesAggregator.used == old(votesAggregator.used) + {vote.author}
      ensures certificate.Some? ==> Accepted(env, certificate.value) && certificate.value.header == currentHeader
      ensures certificate.Some? <==> Completes(old(votesAggregator.reached), old(votesAggregator.used), vote.author)
    {
      hide EnvOk, CoreOk, HeaderOk, WaitersOk, VerifyVote;
      r, certificate := votesAggregator.Append(vote, env.committee, currentHeader);
      if certificate.Some? {
        YieldedPasses(certificate.value, env.committee, env.hash);
        hide Certified;
      }
    }

    /** Count a vote for the current header; the vote that completes a quorum turns into a
        certificate, which is processed at once. */
    method ProcessVote(vote: Vote, ghost universe: set<PublicKey>) returns (r: DagResult)
      requires Consistent() && vote.author in universe && env.name in universe
      requires vote.id == currentHeader.id && vote.round == currentHeader.round && vote.origin == currentHeader.author
      requires VerifyVote(vote, env.committee, env.hash).Ok?
      modifies this, votesAggregator, certificatesAggregators.Values
      ensures Consistent() && Stepped()
      ensures vote.author in old(votesAggregator.used) ==> r == Err(AuthorityReuse) && View() == old(View())
      ensures vote.author in votesAggregator.used
      ensures IsMarked(old(processing), currentHeader) ==>
        votesAggregator.used == old(votesAggregator.used) + {vote.author}
      ensures r.Err? <==> vote.author in old(votesAggregator.used)
      ensures r.Panic? <==>
        Completes(old(votesAggregator.reached), old(votesAggregator.used), vote.author)
        && CertificateFails(old(processing), old(View()), old(votesAggregator.used) + {vote.author}, currentHeader)
      ensures r.Ok? && !Completes(old(votesAggregator.reached), old(votesAggregator.used), vote.author) ==>
        View() == old(View())
      ensures (r.Ok? && Completes(old(votesAggregator.reached), old(votesAggregator.used), vote.author)
               && forall d :: d in currentHeader.parents ==> d in env.genesis || d in old(store)) ==>
        |toConsensus| > old(|toConsensus|) && toConsensus[|toConsensus| - 1].header == currentHeader
      decreases universe - votesAggregator.used, 0
    {
      hide EnvOk, CoreOk, Grows, HeaderOk, WaitersOk, AggregatorsOk, ProposalsOk, Accepted, VerifyVote, MarksKept;
      hide Completes;
      GrowsItself(View());
      KeptItself(processing);
      var certificate;
      r, certificate := CountVote(vote);
      if !r.Ok? {
        return;
      }
      if certificate.Some? {
        var processed := ProcessCertificate(certificate.value, false, universe);
        if !processed.Ok? {
          return Panic;
        }
      }
      r := Ok;
    }

    /** The embedded header was not processed, or is no longer known to have been, and
        processing it now fails. */
    ghost predicate CertificateFails(marks: map<Round, set<Digest>>, v: CoreView, used: set<PublicKey>,
        header: Header) {
      (!IsMarked(marks, header) && Refused(env, v.store, header)) || FailsTwice(marks, v, used, header)
    }

    ghost predicate FailsTwice(marks: map<Round, set<Digest>>, v: CoreView, used: set<PublicKey>, header: Header) {
      !IsMarked(marks, header) && VotesTwice(env, v, used, header)
    }

    /** Process the embedded header if that was not done, then store the certificate and
        pass it on, unless one of its parents is missing. */
    method ProcessCertificate(certificate: Certificate, missingPayload: bool, ghost universe: set<PublicKey>)
      returns (r: DagResult)
      requires Consistent() && Accepted(env, certificate) && OursIsKnown(certificate.header) && env.name in universe
      modifies this, votesAggregator, certificatesAggregators.Values
      ensures Consistent() && Stepped()
      ensures r.Ok? && AllParentsKnown(env, old(store), certificate) ==>
        |toConsensus| > old(|toConsensus|) && toConsensus[|toConsensus| - 1] == certificate
      ensures r.Ok? && !AllParentsKnown(env, store, certificate) ==> certificate in certificateWaiter
      ensures r.Err? <==> !IsMarked(old(processing), certificate.header) && Refused(env, old(store), certificate.header)
      ensures r.Panic? <==> FailsTwice(old(processing), old(View()), old(votesAggregator.used), certificate.header)
      ensures IsMarked(old(processing), certificate.header) ==>
        votesAggregator.used == old(votesAggregator.used) && votesAggregator.reached == old(votesAggregator.reached)
      ensures IsMarked(old(processing), certificate.header) && AllParentsKnown(env, old(store), certificate) ==>
        Counted(certificate)
      ensures !IsMarked(old(processing), certificate.header) ==>
        IsMarked(processing, certificate.header)
        && (VoteDue(env, old(store), certificate.header, missingPayload) ==>
          HasVoted(View(), certificate.header.round, certificate.header.author))
      decreases universe - votesAggregator.used, 3
    {
      hide EnvOk, CoreOk, HeaderOk, Certified, AggregatorsOk, ProposalsOk, Grows, Accepted, AllParentsKnown, WaitersOk;
      hide MarksKept, Suspends, VoteDue, ParentsFor, Completes, UsedAt, DigestsAt, ReachedAt, IsMarked, Resolve;
      hide Justified, Refused, VotesTwice;
      KeptItself(processing);
      ghost var before := View();
      GrowsItself(before);
      var header := certificate.header;
      if !IsMarked(processing, header) {
        AcceptedIsProcessable(env, certificate);
        r := ProcessHeader(header, missingPayload, universe);
        if !r.Ok? {
          return;
        }
      }
      ghost var middle := View();
      ParentsStayKnown(env, before, middle, certificate);
      var delivered := DeliverOrWait(certificate);
      ParentsStayKnown(env, middle, View(), certificate);
      GrowsTransitive(before, middle, View());
      r := Ok;
    }

    /** With all parents known the certificate is delivered, otherwise it waits. */
    method DeliverOrWait(certificate: Certificate) returns (delivered: bool)
      requires Consistent() && Accepted(env, certificate)
      modifies this`store, this`toConsensus, this`toProposer, this`certificateWaiter
      modifies this`certificatesAggregators, certificatesAggregators.Values
      ensures Consistent() && Grows(old(View()), View())
      ensures delivered <==> AllParentsKnown(env, old(store), certificate)
      ensures View() == if delivered then Deliver(env, old(View()), certificate) else old(View())
      ensures certificateWaiter == if delivered then old(certificateWaiter) else old(certificateWaiter) + {certificate}
      ensures fresh(certificatesAggregators.Values - old(certificatesAggregators.Values))
      ensures delivered ==> Counted(certificate)
      ensures !delivered ==> toProposer == old(toProposer) && certificatesAggregators == old(certificatesAggregators)
    {
      hide EnvOk, CoreOk, HeaderOk, Certified, AggregatorsOk, ProposalsOk, Grows, Accepted, AllParentsKnown, WaitersOk;
      hide ParentsFor, Completes, UsedAt, DigestsAt, ReachedAt;
      GrowsItself(View());
      delivered := DeliverCertificate(certificate);
      if delivered {
        StoreAndSend(certificate);
      }
    }

    /** Storing a certificate changes nothing about what was collected. */
    lemma StoreStable(c: Certificate)
      requires EnvOk(env) && StoreOk(env, store) && ProposalsOk()
      ensures var store' := store[env.hash.CertificateDigest(c) := c];
        && (forall r :: r in certificatesAggregators && certificatesAggregators[r].reached.None? ==>
          Collects(env, store', r, certificatesAggregators[r].certificates, certificatesAggregators[r].used))
        && (forall i :: 0 <= i < |toProposer| ==> ProposalOk(env, store', toProposer[i].0, toProposer[i].1))
    {
      hide EnvOk, StoreOk, Collects, ProposalOk;
      forall r | r in certificatesAggregators && certificatesAggregators[r].reached.None?
        ensures Collects(env, store[env.hash.CertificateDigest(c) := c], r, certificatesAggregators[r].certificates,
          certificatesAggregators[r].used)
      {
        CollectsStable(env, store, c, r, certificatesAggregators[r].certificates, certificatesAggregators[r].used);
      }
      forall i | 0 <= i < |toProposer|
        ensures ProposalOk(env, store[env.hash.CertificateDigest(c) := c], toProposer[i].0, toProposer[i].1)
      {
        ProposalStable(env, store, c, toProposer[i].0, toProposer[i].1);
      }
    }

    lemma StoreIsOk()
      requires CoreOk(env, View())
      ensures StoreOk(env, store)
    {
      hide StoreOk, VotesOk, Remembered, VotesOnce, CausallyDelivered, DeliveriesAccepted;
    }

    /** Store a certificate with all its parents known, and send it to consensus. */
    method StoreAndSend(certificate: Certificate)
      requires Consistent() && Accepted(env, certificate) && AllParentsKnown(env, store, certificate)
      modifies this`store, this`toConsensus, this`toProposer, this`certificatesAggregators
      modifies certificatesAggregators.Values
      ensures Consistent() && View() == Deliver(env, old(View()), certificate) && Grows(old(View()), View())
      ensures fresh(certificatesAggregators.Values - old(certificatesAggregators.Values))
      ensures Counted(certificate)
    {
      hide EnvOk, CoreOk, HeaderOk, AggregatorsOk, Grows, Accepted, AllParentsKnown, WaitersOk, ParentsFor, Completes;
      hide Collects, ProposalOk, StandsFor, StoreOk;
      DeliverKeeps(env, View(), certificate);
      StoredStandsFor(env, store, certificate);
      StoreIsOk();
      StoreStable(certificate);
      store := store[env.hash.CertificateDigest(certificate) := certificate];
      AggregateCertificate(certificate);
      toConsensus := toConsensus + [certificate];
    }

    // -------------------------------------------------------------------
    // The events of the main loop
    // -------------------------------------------------------------------

    /** Header and votes were checked. */
    ghost predicate Verified(c: Certificate) {
      HeaderOk(c.header, env.committee, env.hash) && Certified(c, env.committee, env.hash)
    }

    /** A header from another primary. */
    method ReceiveHeader(header: Header, missingPayload: bool) returns (r: DagResult)
      requires Valid() && (header.round >= gcRound && HeaderOk(header, env.committee, env.hash) ==> OursIsKnown(header))
      modifies this, votesAggregator, certificatesAggregators.Values
      ensures Valid() && Stepped()
      ensures header.round < gcRound ==> r == Err(TooOld) && View() == old(View())
      ensures !HeaderOk(header, env.committee, env.hash) ==> r.Err? && View() == old(View())
      ensures header.round >= gcRound && HeaderOk(header, env.committee, env.hash) ==>
        IsMarked(processing, header) && (VoteDue(env, old(store), header, missingPayload) ==>
          HasVoted(View(), header.round, header.author))
        && (Suspends(env, old(store), header, missingPayload) ==> header in headerWaiter)
        && (r.Err? <==> Refused(env, old(store), header))
        && (r.Panic? <==> VotesTwice(env, old(View()), old(votesAggregator.used), header))
      ensures header.round >= gcRound && HeaderOk(header, env.committee, env.hash) ==>
        (NewVoteDue(env, old(View()), header, missingPayload) ==>
          |votes| > old(|votes|) && votes[old(|votes|)].header == header)
        && (!NewVoteDue(env, old(View()), header, missingPayload) ==> View() == old(View()))
        && (NewVoteDue(env, old(View()), header, missingPayload) && header.author != env.name ==>
          View() == CastVote(env, old(View()), header))
    {
      hide EnvOk, CoreOk, AggregatorsOk, ProposalsOk, Grows, HeaderOk, MarksKept, Suspends;
      GrowsItself(View());
      KeptItself(processing);
      ghost var marks := processing;
      if header.round < gcRound {
        return Err(TooOld);
      }
      r := VerifyHeader(header, env.committee, env.hash);
      if r.Ok? {
        r := ProcessHeader(header, missingPayload, {env.name});
      }
      MarkStays(marks, marks, processing, currentHeader);
    }

    predicate ForCurrent(vote: Vote)
      reads this
    {
      vote.id == currentHeader.id && vote.origin == currentHeader.author && vote.round == currentHeader.round
    }

    /** A vote from another primary. */
    method ReceiveVote(vote: Vote) returns (r: DagResult)
      requires Valid()
      modifies this, votesAggregator, certificatesAggregators.Values
      ensures Valid() && Stepped()
      ensures !ForCurrent(vote) ==> r.Err? && View() == old(View())
      ensures ForCurrent(vote) ==>
        (VerifyVote(vote, env.committee, env.hash).Ok? ==> vote.author in votesAggregator.used)
        && (!VerifyVote(vote, env.committee, env.hash).Ok? ==> r.Err? && View() == old(View()))
      ensures ForCurrent(vote) && VerifyVote(vote, env.committee, env.hash).Ok? ==>
        (r.Err? <==> vote.author in old(votesAggregator.used))
        && (r.Panic? <==>
          Completes(old(votesAggregator.reached), old(votesAggregator.used), vote.author)
          && CertificateFails(old(processing), old(View()), old(votesAggregator.used) + {vote.author}, currentHeader))
        && (r.Ok? && !Completes(old(votesAggregator.reached), old(votesAggregator.used), vote.author) ==>
          View() == old(View()))
        && (r.Ok? && Completes(old(votesAggregator.reached), old(votesAggregator.used), vote.author)
              && (forall d :: d in currentHeader.parents ==> d in env.genesis || d in old(store)) ==>
          |toConsensus| > old(|toConsensus|) && toConsensus[|toConsensus| - 1].header == currentHeader)
      ensures r.Panic? ==> currentHeader.round < gcRound
      ensures (ForCurrent(vote) && VerifyVote(vote, env.committee, env.hash).Ok?
            && IsMarked(old(processing), currentHeader)) ==>
        votesAggregator.used == old(votesAggregator.used) + {vote.author}
    {
      hide EnvOk, CoreOk, AggregatorsOk, ProposalsOk, Grows, MarksKept, Completes;
      GrowsItself(View());
      KeptItself(processing);
      ghost var marks := processing;
      if vote.round < currentHeader.round {
        return Err(TooOld);
      }
      if !(vote.id == currentHeader.id && vote.origin == currentHeader.author && vote.round == currentHeader.round) {
        return Err(UnexpectedVote);
      }
      r := VerifyVote(vote, env.committee, env.hash);
      if r.Ok? {
        r := ProcessVote(vote, {env.name, vote.author});
      }
      MarkStays(marks, marks, processing, currentHeader);
    }

    /** A certificate from another primary. */
    method ReceiveCertificate(certificate: Certificate, missingPayload: bool) returns (r: DagResult)
      requires Valid()
      requires certificate.Round() >= gcRound && Verified(certificate) ==> OursIsKnown(certificate.header)
      modifies this, votesAggregator, certificatesAggregators.Values
      ensures Valid() && Stepped()
      ensures certificate.Round() < gcRound ==> r == Err(TooOld) && View() == old(View())
      ensures !Accepted(env, certificate) ==> r.Err? && View() == old(View())
      ensures r.Ok? && AllParentsKnown(env, old(store), certificate) ==>
        |toConsensus| > old(|toConsensus|) && toConsensus[|toConsensus| - 1] == certificate
      ensures certificate.Round() >= gcRound && (IsGenesis(certificate, env.committee) || Verified(certificate)) ==>
        (r.Err? <==> !IsMarked(old(processing), certificate.header) && Refused(env, old(store), certificate.header))
        && (r.Panic? <==> FailsTwice(old(processing), old(View()), old(votesAggregator.used), certificate.header))
        && (IsMarked(old(processing), certificate.header) && AllParentsKnown(env, old(store), certificate) ==>
          Counted(certificate))
        && (!IsMarked(old(processing), certificate.header) ==>
          IsMarked(processing, certificate.header)
          && (VoteDue(env, old(store), certificate.header, missingPayload) ==>
            HasVoted(View(), certificate.header.round, certificate.header.author)))
      ensures r.Ok? && !AllParentsKnown(env, store, certificate) ==> certificate in certificateWaiter
    {
      hide EnvOk, CoreOk, AggregatorsOk, ProposalsOk, Grows, HeaderOk, Certified, MarksKept;
      GrowsItself(View());
      KeptItself(processing);
      ghost var marks := processing;
      if certificate.Round() < gcRound {
        return Err(TooOld);
      }
      r := VerifyCertificate(certificate, env.committee, env.hash);
      if r.Ok? {
        r := ProcessCertificate(certificate, missingPayload, {env.name});
      }
      MarkStays(marks, marks, processing, currentHeader);
    }

    /** A header returned by the header waiter; it is not checked again. */
    method ResumeHeader(header: Header, missingPayload: bool) returns (r: DagResult)
      requires Valid() && header in headerWaiter && OursIsKnown(header)
      modifies this, votesAggregator, certificatesAggregators.Values
      ensures Valid() && Stepped()
      ensures VoteDue(env, old(store), header, missingPayload) ==> HasVoted(View(), header.round, header.author)
      ensures NewVoteDue(env, old(View()), header, missingPayload) ==>
        |votes| > old(|votes|) && votes[old(|votes|)].header == header
      ensures NewVoteDue(env, old(View()), header, missingPayload) && header.author != env.name ==>
        View() == CastVote(env, old(View()), header)
      ensures !NewVoteDue(env, old(View()), header, missingPayload) ==> View() == old(View())
      ensures r.Err? <==> Refused(env, old(store), header)
      ensures r.Panic? <==> VotesTwice(env, old(View()), old(votesAggregator.used), header)
    {
      r := ProcessHeader(header, missingPayload, {env.name});
    }

    /** A certificate returned by the certificate waiter; it is not checked again. */
    method ResumeCertificate(certificate: Certificate, missingPayload: bool) returns (r: DagResult)
      requires Valid() && certificate in certificateWaiter && OursIsKnown(certificate.header)
      modifies this, votesAggregator, certificatesAggregators.Values
      ensures Valid() && Stepped()
      ensures r.Ok? && AllParentsKnown(env, old(store), certificate) ==>
        |toConsensus| > old(|toConsensus|) && toConsensus[|toConsensus| - 1] == certificate
      ensures r.Err? <==> !IsMarked(old(processing), certificate.header) && Refused(env, old(store), certificate.header)
      ensures r.Panic? <==> FailsTwice(old(processing), old(View()), old(votesAggregator.used), certificate.header)
    {
      r := ProcessCertificate(certificate, missingPayload, {env.name});
    }

    /** A new header of our own: start collecting votes for it. */
    method ProposeHeader(header: Header) returns (r: DagResult)
      requires Valid() && HeaderOk(header, env.committee, env.hash) && header.author == env.name
      modifies this, votesAggregator, certificatesAggregators.Values
      ensures Valid() && Grows(old(View()), View()) && currentHeader == header && fresh(votesAggregator)
      ensures Justified(env, old(store), header) ==> HasVoted(View(), header.round, header.author)
      ensures !r.Panic? && (r.Err? <==> Refused(env, old(store), header))
      ensures votesAggregator.used == OwnVoter(env, old(View()), header)
      ensures IsMarked(processing, header)
      ensures fresh(certificatesAggregators.Values - old(certificatesAggregators.Values))
      ensures NewVoteDue(env, old(View()), header, false) && Completes(None, {}, env.name) ==>
        |toConsensus| > old(|toConsensus|) && toConsensus[|toConsensus| - 1].header == header
    {
      hide EnvOk, CoreOk, Grows, HeaderOk, Justified, Collects, ProposalOk, Counts, Suspends, MarksKept, Refused;
      hide VerifyVote, WaitersOk;
      currentHeader := header;
      votesAggregator := new VotesAggregator();
      r := ProcessHeader(header, false, {env.name});
    }

    /** The cleanup at the end of every turn; consensus only moves forward. */
    method Cleanup(round: Round)
      requires Valid() && round >= consensusRound
      modifies this`consensusRound, this`gcRound, this`lastVoted, this`processing, this`certificatesAggregators
      ensures Valid() && consensusRound == round
      ensures View() == if round > gcDepth then Collected(old(View()), round - gcDepth) else old(View())
      ensures processing == Since(old(processing), if round > gcDepth then round - gcDepth else 0)
      ensures certificatesAggregators == Since(old(certificatesAggregators),
        if round > gcDepth then round - gcDepth else 0)
    {
      hide EnvOk, CoreOk, HeaderOk, AggregatorsOk, ProposalsOk, WaitersOk, VerifyVote;
      consensusRound := round;
      if round > gcDepth {
        hide Collected;
        CollectKeeps(env, View(), round - gcDepth);
        CollectVotes(round - gcDepth);
        CollectAggregators();
      }
    }

    method CollectVotes(round: Round)
      modifies this`gcRound, this`lastVoted, this`processing
      ensures View() == Collected(old(View()), round) && gcRound == round
      ensures processing == Since(old(processing), round)
    {
      gcRound := round;
      lastVoted := map r | r in lastVoted && r >= gcRound :: lastVoted[r];
      processing := map r | r in processing && r >= gcRound :: processing[r];
    }

    method CollectAggregators()
      requires AggregatorsOk()
      modifies this`certificatesAggregators
      ensures AggregatorsOk() && (old(ProposalsOk()) ==> ProposalsOk())
      ensures certificatesAggregators == Since(old(certificatesAggregators), gcRound)
    {
      hide VerifyVote, Collects, ProposalOk;
      certificatesAggregators := map r | r in certificatesAggregators && r >= gcRound :: certificatesAggregators[r];
    }
  }

  lemma MarkedKeeps(before: map<Round, set<Digest>>, header: Header)
    ensures MarksKept(before, Marked(before, header)) && IsMarked(Marked(before, header), header)
  {
  }

  lemma KeptItself(marks: map<Round, set<Digest>>)
    ensures MarksKept(marks, marks)
  {
  }

  lemma MarkStays(u: map<Round, set<Digest>>, v: map<Round, set<Digest>>, w: map<Round, set<Digest>>, header: Header)
    requires MarksKept(u, v) && MarksKept(v, w)
    ensures MarksKept(u, w) && (IsMarked(v, header) ==> IsMarked(w, header))
  {
  }

  lemma SuspendsMeans(env: Env, store: map<Digest, Certificate>, header: Header, missingPayload: bool)
    ensures (exists d :: d in header.parents && Resolve(env, store, d).None?) ==>
      Suspends(env, store, header, missingPayload) && !Justified(env, store, header)
    ensures (forall d :: d in header.parents ==> Resolve(env, store, d).Some?) ==>
      (Suspends(env, store, header, missingPayload) <==>
        Justified(env, store, header) && missingPayload && header.author != env.name)
  {
  }

  lemma HasVotedGrows(v: CoreView, w: CoreView, r: Round, name: PublicKey)
    requires Grows(v, w) && HasVoted(v, r, name)
    ensures HasVoted(w, r, name)
  {
  }

  lemma FirstVoteStays(u: CoreView, v: CoreView, w: CoreView)
    requires |v.votes| == |u.votes| + 1 && Grows(v, w)
    ensures |w.votes| > |u.votes| && w.votes[|u.votes|] == v.votes[|u.votes|]
  {
  }

  lemma ParentsStayKnown(env: Env, v: CoreView, w: CoreView, c: Certificate)
    requires Grows(v, w)
    ensures AllParentsKnown(env, v.store, c) ==> AllParentsKnown(env, w.store, c)
    ensures |v.toConsensus| <= |w.toConsensus|
  {
  }

  lemma GrowsItself(v: CoreView)
    ensures Grows(v, v)
  {
  }

  lemma NoParentsNoVote(env: Env, store: map<Digest, Certificate>, header: Header)
    requires header.parents == {} || exists d :: d in header.parents && Resolve(env, store, d).None?
    ensures !Justified(env, store, header)
  {
  }

  lemma JustifiedMeans(env: Env, store: map<Digest, Certificate>, header: Header)
    ensures Justified(env, store, header) ==> header.round > 0
    ensures Justified(env, store, header) ==> !Refused(env, store, header)
    ensures Justified(env, store, header) ==> forall d :: d in header.parents ==> d in env.genesis || d in store
  {
    if Justified(env, store, header) {
      JustifiedIsLater(env, store, header);
    }
  }

  lemma JustifiedIsLater(env: Env, store: map<Digest, Certificate>, header: Header)
    requires Justified(env, store, header)
    ensures header.round > 0
  {
    var d :| d in header.parents;
  }

  lemma OwnVoteVerifies(env: Env, header: Header)
    requires EnvOk(env)
    ensures VerifyVote(MakeVote(env, header), env.committee, env.hash).Ok?
  {
  }

  lemma AcceptedIsProcessable(env: Env, c: Certificate)
    requires Accepted(env, c)
    ensures HeaderOk(c.header, env.committee, env.hash) || c.header.round == 0
  {
  }
}
