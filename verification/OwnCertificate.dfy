/** A core turns its own header into a certificate once the others' votes and its own make
    up a quorum. */
module OwnCertificate {
  import opened Basics
  import opened Config
  import opened Messages
  import opened Aggregators
  import opened CoreState
  import opened Core

  /** What the core hands to its proposer are always parents that justify a header of the
      next round: the header is voted for, not refused. */
  lemma HandedParentsJustify(core: Core, i: nat, header: Header)
    requires core.Valid() && i < |core.toProposer|
    requires header.round == core.toProposer[i].1 + 1 && header.parents == set d | d in core.toProposer[i].0
    ensures Justified(core.env, core.store, header)
  {
    hide EnvOk, CoreOk, HeaderOk, Justified, ProposalOk;
    ProposalJustifies(core.env, core.store, core.toProposer[i].0, core.toProposer[i].1, header);
  }

  function Authors(votes: seq<Vote>): set<PublicKey> {
    set v | v in votes :: v.author
  }

  /** Verified votes for the header, by others and one each. */
  ghost predicate VotesFor(env: Env, header: Header, votes: seq<Vote>) {
    && (forall v :: v in votes ==>
      v.id == header.id && v.round == header.round && v.origin == header.author && v.author != env.name
      && VerifyVote(v, env.committee, env.hash).Ok?)
    && (forall i, j :: 0 <= i < j < |votes| ==> votes[i].author != votes[j].author)
  }

  ghost predicate HasCertificateFor(out: seq<Certificate>, header: Header) {
    exists c :: c in out && c.header == header
  }

  /** As long as no certificate was made, the votes are below a quorum, and the other way
      round. */
  lemma UnreachedIsBelow(c: Committee, a: VotesAggregator)
    requires a.Valid(c)
    ensures a.reached.None? <==> c.StakeOf(a.used) < c.QuorumThreshold()
  {
    if a.reached.Some? {
      StakeMonotone(c, a.reached.value, a.used);
    }
  }

  lemma ValidCounts(core: Core)
    requires core.Valid()
    ensures core.votesAggregator.Valid(core.env.committee)
  {
    hide EnvOk, CoreOk, HeaderOk;
  }

  lemma StillCertified(out: seq<Certificate>, more: seq<Certificate>, header: Header)
    requires out <= more
    ensures HasCertificateFor(out, header) ==> HasCertificateFor(more, header)
    ensures |more| > |out| && more[|more| - 1].header == header ==> HasCertificateFor(more, header)
  {
    assert forall c :: c in out ==> c in more;
  }

  lemma AuthorsSnoc(votes: seq<Vote>, i: nat)
    requires i < |votes|
    ensures Authors(votes[..i + 1]) == Authors(votes[..i]) + {votes[i].author}
  {
    assert votes[..i + 1] == votes[..i] + [votes[i]];
  }

  lemma NextIsNew(env: Env, header: Header, votes: seq<Vote>, i: nat)
    requires VotesFor(env, header, votes) && i < |votes|
    ensures votes[i].author !in {env.name} + Authors(votes[..i])
    ensures votes[i].id == header.id && votes[i].round == header.round && votes[i].origin == header.author
    ensures VerifyVote(votes[i], env.committee, env.hash).Ok?
  {
    assert votes[i] in votes;
  }

  /** The parents stay known. */
  lemma StillKnown(env: Env, v: CoreView, w: CoreView, header: Header)
    requires Grows(v, w) && forall d :: d in header.parents ==> d in env.genesis || d in v.store
    ensures forall d :: d in header.parents ==> d in env.genesis || d in w.store
    ensures v.toConsensus <= w.toConsensus && w.gcRound == v.gcRound
  {
  }

  /** The core collects votes for `header`, so far from `names`. */
  ghost predicate Collecting(core: Core, header: Header, names: set<PublicKey>)
    reads core, core.votesAggregator, core.certificatesAggregators.Values
  {
    && core.Valid() && core.currentHeader == header && core.gcRound <= header.round
    && IsMarked(core.processing, header) && core.votesAggregator.used == names
    && (forall d :: d in header.parents ==> d in core.env.genesis || d in core.store)
    && (HasCertificateFor(core.toConsensus, header)
        || core.env.committee.StakeOf(names) < core.env.committee.QuorumThreshold())
  }

  /** Propose the header: our own vote is the first. */
  method Start(core: Core, header: Header)
    requires core.Valid() && HeaderOk(header, core.env.committee, core.env.hash) && header.author == core.env.name
    requires header.round >= core.gcRound
    requires Justified(core.env, core.store, header) && !HasVoted(core.View(), header.round, header.author)
    modifies core, core.votesAggregator, core.certificatesAggregators.Values
    ensures Collecting(core, header, {core.env.name}) && fresh(core.votesAggregator)
    ensures fresh(core.certificatesAggregators.Values - old(core.certificatesAggregators.Values))
  {
    hide EnvOk, CoreOk, HeaderOk, Justified, HasCertificateFor, Resolve, Refused, VotesTwice;
    hide Committee.StakeOf, Committee.QuorumThreshold;
    ghost var before := core.View();
    JustifiedMeans(core.env, core.store, header);
    var r := core.ProposeHeader(header);
    StillKnown(core.env, before, core.View(), header);
    StillCertified(before.toConsensus, core.toConsensus, header);
    assert {} + {core.env.name} == {core.env.name};
  }

  /** Receive one more vote. */
  method Collect(core: Core, header: Header, vote: Vote, ghost names: set<PublicKey>)
    requires Collecting(core, header, names) && header != DEFAULT_HEADER && vote.author !in names
    requires vote.id == header.id && vote.round == header.round && vote.origin == header.author
    requires VerifyVote(vote, core.env.committee, core.env.hash).Ok?
    modifies core, core.votesAggregator, core.certificatesAggregators.Values
    ensures Collecting(core, header, names + {vote.author}) && core.votesAggregator == old(core.votesAggregator)
    ensures fresh(core.certificatesAggregators.Values - old(core.certificatesAggregators.Values))
  {
    hide EnvOk, CoreOk, HeaderOk, Justified, HasCertificateFor, Resolve, Refused, VotesTwice, VerifyVote;
    hide Committee.StakeOf, Committee.QuorumThreshold, MarksKept, IsMarked;
    ghost var before, marks := core.View(), core.processing;
    ValidCounts(core);
    UnreachedIsBelow(core.env.committee, core.votesAggregator);
    var r := core.ReceiveVote(vote);
    StillKnown(core.env, before, core.View(), header);
    StillCertified(before.toConsensus, core.toConsensus, header);
    KeptItself(marks);
    MarkStays(marks, marks, core.processing, header);
  }

  /** Propose a header, then receive the votes: with the core's own vote they are a quorum,
      so the certificate is made and sent to consensus. */
  method Certify(core: Core, header: Header, votes: seq<Vote>)
    requires core.Valid() && HeaderOk(header, core.env.committee, core.env.hash) && header.author == core.env.name
    requires header.round >= core.gcRound
    requires Justified(core.env, core.store, header) && !HasVoted(core.View(), header.round, header.author)
    requires VotesFor(core.env, header, votes)
    requires core.env.committee.StakeOf({core.env.name} + Authors(votes)) >= core.env.committee.QuorumThreshold()
    modifies core, core.votesAggregator, core.certificatesAggregators.Values
    ensures core.Valid() && HasCertificateFor(core.toConsensus, header)
  {
    hide Collecting, Authors, VotesFor, VerifyVote, Justified, HeaderOk, EnvOk, CoreOk, HasCertificateFor;
    hide Committee.StakeOf, Committee.QuorumThreshold;
    JustifiedMeans(core.env, core.store, header);
    Start(core, header);
    var i := 0;
    NoAuthors(core.env.name);
    while i < |votes|
      invariant 0 <= i <= |votes| && Collecting(core, header, {core.env.name} + Authors(votes[..i]))
      invariant fresh(core.votesAggregator)
      invariant fresh(core.certificatesAggregators.Values - old(core.certificatesAggregators.Values))
    {
      NextIsNew(core.env, header, votes, i);
      AuthorsSnoc(votes, i);
      Collect(core, header, votes[i], {core.env.name} + Authors(votes[..i]));
      assert {core.env.name} + Authors(votes[..i]) + {votes[i].author} == {core.env.name} + Authors(votes[..i + 1]);
      i := i + 1;
    }
    assert votes[..i] == votes;
    Collected(core, header, {core.env.name} + Authors(votes));
  }

  lemma NoAuthors(name: PublicKey)
    ensures forall votes: seq<Vote> :: {name} + Authors(votes[..0]) == {name}
  {
  }

  lemma Collected(core: Core, header: Header, names: set<PublicKey>)
    requires Collecting(core, header, names)
    requires core.env.committee.StakeOf(names) >= core.env.committee.QuorumThreshold()
    ensures core.Valid() && HasCertificateFor(core.toConsensus, header)
  {
  }
}
