/** A header that waits for its payload past garbage collection makes a core vote a second
    time in a slot. */
module LateVote {
  import opened Basics
  import opened Messages
  import opened CoreState
  import opened Core

  /** Both votes of the core are on record. */
  ghost predicate VotedForBoth(votes: seq<VoteRecord>, a: Header, b: Header) {
    exists i, j :: 0 <= i < j < |votes| && votes[i].header == a && votes[j].header == b
  }

  /** The core votes for `first`; `second`, of the same author and round, arrives and waits
      for its payload. */
  method VoteOnce(core: Core, first: Header, second: Header)
    requires core.Valid()
    requires HeaderOk(first, core.env.committee, core.env.hash) && HeaderOk(second, core.env.committee, core.env.hash)
    requires Justified(core.env, core.store, first) && Justified(core.env, core.store, second)
    requires first.author != core.env.name && second.author != core.env.name
    requires first.round >= core.gcRound && second.round >= core.gcRound
    requires !HasVoted(core.View(), first.round, first.author)
    modifies core, core.votesAggregator, core.certificatesAggregators.Values
    ensures core.Valid() && second in core.headerWaiter
    ensures core.View() == CastVote(core.env, old(core.View()), first)
    ensures core.votesAggregator == old(core.votesAggregator) && core.consensusRound == old(core.consensusRound)
    ensures fresh(core.certificatesAggregators.Values - old(core.certificatesAggregators.Values))
  {
    hide Justified, HeaderOk, EnvOk, CoreOk, Grows, Suspends, Refused, VotesTwice, IsMarked, MarksKept;
    VoteIsDue(core.env, core.store, first);
    var r := core.ReceiveHeader(first, false);
    WaitsForPayload(core.env, core.store, second);
    r := core.ReceiveHeader(second, true);
  }

  /** Then consensus moves on and the payload arrives: the core votes again. */
  method VoteAgain(core: Core, first: Header, second: Header, round: Round)
    requires core.Valid() && SameSlot(first, second) && first.id != second.id
    requires HeaderOk(first, core.env.committee, core.env.hash) && HeaderOk(second, core.env.committee, core.env.hash)
    requires Justified(core.env, core.store, first) && Justified(core.env, core.store, second)
    requires first.author != core.env.name && first.round >= core.gcRound
    requires !HasVoted(core.View(), first.round, first.author)
    requires round >= core.consensusRound && round > core.gcDepth + first.round
    modifies core, core.votesAggregator, core.certificatesAggregators.Values
    ensures core.Valid() && VotedForBoth(core.votes, first, second)
  {
    hide Justified, HeaderOk, EnvOk, CoreOk, Grows, Suspends, Refused, VotesTwice, IsMarked, MarksKept;
    ghost var n := |core.votes|;
    VoteOnce(core, first, second);
    assert core.votes[n].header == first;
    core.Cleanup(round);
    VoteIsDue(core.env, core.store, second);
    var r := core.ResumeHeader(second, false);
    assert core.votes[n].header == first && core.votes[n + 1].header == second;
  }

  lemma VoteIsDue(env: Env, store: map<Digest, Certificate>, header: Header)
    requires Justified(env, store, header)
    ensures VoteDue(env, store, header, false)
  {
  }

  lemma WaitsForPayload(env: Env, store: map<Digest, Certificate>, header: Header)
    requires Justified(env, store, header) && header.author != env.name
    ensures Suspends(env, store, header, true)
  {
  }
}
