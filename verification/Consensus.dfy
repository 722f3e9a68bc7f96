/** One node running the Tusk commit rule. */
module Consensus {
  import opened Basics
  import opened Config
  import opened Dag
  import opened TuskState
  import opened SubDag
  import opened Ledger
  import opened CommitRule

  /** Round and digest of each committed leader, in commit order. */
  function LeaderLog(batches: seq<CommittedSubDag>): seq<(Round, Digest)> {
    seq(|batches|, i requires 0 <= i < |batches| => (batches[i].leaderRound, batches[i].leaderDigest))
  }

  function NameLeaders(leaders: seq<Certificate>): seq<(Round, Digest)> {
    seq(|leaders|, i requires 0 <= i < |leaders| => (leaders[i].round, leaders[i].digest))
  }

  /** One output batch: numbered, named after its leader, ancestors first and the
      leader last, inside the leader's history and complete above `floor`. */
  ghost predicate BatchFor(h: History, b: CommittedSubDag, index: nat, leader: Certificate, floor: Round) {
    && b.batchIndex == index && b.leaderRound == leader.round && b.leaderDigest == leader.digest
    && |b.certificates| > 0 && b.certificates[|b.certificates| - 1] == leader
    && SortedByRound(b.certificates)
    && (forall x :: x in b.certificates ==> Reaches(h, leader, x))
    && (forall x :: Reaches(h, leader, x) && x.round > floor ==> x in b.certificates)
  }

  /** The round of the leader committed before the `i`-th one. */
  function FloorOf(leaders: seq<Certificate>, i: nat): Round
    requires i <= |leaders|
  {
    if i == 0 then 0 else leaders[i - 1].round
  }

  ghost predicate Batches(h: History, output: seq<CommittedSubDag>, leaders: seq<Certificate>) {
    |output| == |leaders| && forall i {:trigger BatchAt(h, output, leaders, i)} :: 0 <= i < |output| ==>
      BatchAt(h, output, leaders, i)
  }

  ghost predicate BatchAt(h: History, output: seq<CommittedSubDag>, leaders: seq<Certificate>, i: nat)
    requires i < |output| && i < |leaders|
  {
    BatchFor(h, output[i], i + 1, leaders[i], FloorOf(leaders, i))
  }

  lemma BatchesSnoc(h: History, output: seq<CommittedSubDag>, leaders: seq<Certificate>, b: CommittedSubDag,
      leader: Certificate)
    requires Batches(h, output, leaders) && BatchFor(h, b, |output| + 1, leader, FloorOf(leaders, |leaders|))
    ensures Batches(h, output + [b], leaders + [leader])
  {
    hide BatchFor;
    var output', leaders' := output + [b], leaders + [leader];
    forall i | 0 <= i < |output'|
      ensures BatchAt(h, output', leaders', i)
    {
      assert i < |output| ==> BatchAt(h, output, leaders, i);
      assert FloorOf(leaders', i) == FloorOf(leaders, i);
    }
  }

  /** A commit is due on a delivery at `r + 3`: `x` is the delivered leader of the
      even round `r`, not yet committed, and enough delivered children name it. */
  ghost predicate CommitDue(h: History, c: Committee, leaderOf: Schedule, delivered: set<Digest>,
      lastRound: Round, r: int, x: Certificate) {
    && r >= 2 && r % 2 == 0 && r > lastRound
    && IsLeaderAt(h, leaderOf, r, x) && x.digest in delivered
    && c.StakeOf(SupportersIn(h, delivered, x)) >= c.ValidityThreshold()
  }

  ghost predicate NoCommitDue(h: History, c: Committee, leaderOf: Schedule, delivered: set<Digest>,
      lastRound: Round, r: int) {
    !exists x :: CommitDue(h, c, leaderOf, delivered, lastRound, r, x)
  }

  ghost function SupportersIn(h: History, delivered: set<Digest>, x: Certificate): set<PublicKey> {
    set d | d in delivered && d in h && h[d].round == x.round + 1 && x.digest in h[d].parents :: h[d].origin
  }

  lemma GenesisIsSound(h: History, c: Committee, genesis: map<PublicKey, Certificate>, delivered: set<Digest>,
      gcDepth: Round)
    requires WellFormed(h, c) && genesis.Keys == c.authorities.Keys
    requires forall name :: name in genesis ==>
      Known(h, genesis[name]) && genesis[name].round == 0 && genesis[name].origin == name
    requires delivered == set name | name in genesis :: genesis[name].digest
    ensures var v := View(map[0 := genesis], map name | name in genesis :: genesis[name].round, 0);
      && ViewSound(h, delivered, v) && Remembers(h, delivered, v, gcDepth)
      && OutputSound(h, delivered, v, [], gcDepth)
  {
    var v := View(map[0 := genesis], map name | name in genesis :: genesis[name].round, 0);
    hide WellFormed, Faithful, NoRepeats, Closed, FrontierKept, Remembers;
    assert NoRepeats(h, delivered, v, [], gcDepth) && Faithful(h, delivered, v) by {
      GenesisIsFaithful(h, genesis, delivered, gcDepth);
    }
    assert Remembers(h, delivered, v, gcDepth) by {
      GenesisIsFaithful(h, genesis, delivered, gcDepth);
    }
    GenesisIsClosed(h, c, delivered, v);
  }

  lemma GenesisIsFaithful(h: History, genesis: map<PublicKey, Certificate>, delivered: set<Digest>, gcDepth: Round)
    requires forall name :: name in genesis ==>
      Known(h, genesis[name]) && genesis[name].round == 0 && genesis[name].origin == name
    requires delivered == set name | name in genesis :: genesis[name].digest
    ensures var v := View(map[0 := genesis], map name | name in genesis :: genesis[name].round, 0);
      Faithful(h, delivered, v) && NoRepeats(h, delivered, v, [], gcDepth) && Remembers(h, delivered, v, gcDepth)
  {
  }

  lemma GenesisIsClosed(h: History, c: Committee, delivered: set<Digest>, v: View)
    requires WellFormed(h, c) && v.lastCommittedRound == 0
    requires forall d :: d in delivered ==> d in h && h[d].round == 0
    ensures Closed(h, delivered) && FrontierKept(h, delivered, v)
  {
  }

  /** What a flattened batch is in terms of the full history. */
  lemma BatchInHistory(h: History, c: Committee, delivered: set<Digest>, v: View, leader: Certificate,
      gcDepth: Round, xs: seq<Certificate>)
    requires WellFormed(h, c) && ViewSound(h, delivered, v) && Batch(h, delivered, v, leader, gcDepth, xs)
    ensures SortedByRound(xs)
    ensures forall x :: x in xs ==> Reaches(h, leader, x)
    ensures forall x :: Reaches(h, leader, x) && x.round > v.lastCommittedRound ==> x in xs
  {
    hide WellFormed, ViewSound, Reaches, Flows;
    forall x | x in xs
      ensures Reaches(h, leader, x)
    {
      ViewIsKeyed(h, c, delivered, v);
      FlowsReaches(h, delivered, v, leader, x);
    }
    forall x | Reaches(h, leader, x) && x.round > v.lastCommittedRound
      ensures x in xs
    {
      BatchComplete(h, c, delivered, v, leader, gcDepth, xs, x);
    }
  }

  lemma {:induction false} FlowsReaches(h: History, delivered: set<Digest>, v: View, a: Certificate, x: Certificate)
    requires Faithful(h, delivered, v) && Flows(v, a, x)
    ensures Reaches(h, a, x)
    decreases a.round
  {
    if a != x {
      var p :| Step(v, a, p) && Flows(v, p, x);
      FlowsReaches(h, delivered, v, p, x);
      assert h[p.digest] == p;
    }
  }

  /** The batch is never empty and ends with its leader, so the empty-batch test of the
      source never fires. */
  lemma BatchIsFor(h: History, c: Committee, delivered: set<Digest>, v: View, leader: Certificate, gcDepth: Round,
      xs: seq<Certificate>, index: nat)
    requires WellFormed(h, c) && ViewSound(h, delivered, v) && Batch(h, delivered, v, leader, gcDepth, xs)
    ensures BatchFor(h, CommittedSubDag(index, leader.round, leader.digest, xs), index, leader, v.lastCommittedRound)
  {
    hide WellFormed, ViewSound, Batch, Reaches, SortedByRound;
    BatchOrder(h, delivered, v, leader, gcDepth, xs);
    BatchInHistory(h, c, delivered, v, leader, gcDepth, xs);
  }

  lemma BatchKeeps(h: History, c: Committee, delivered: set<Digest>, v: View, w: View, out: seq<Certificate>,
      leader: Certificate, gcDepth: Round, xs: seq<Certificate>)
    requires WellFormed(h, c) && ViewSound(h, delivered, v) && Remembers(h, delivered, v, gcDepth)
    requires Batch(h, delivered, v, leader, gcDepth, xs) && CommitsAll(v, w, xs, gcDepth)
    ensures ViewSound(h, delivered, w) && Remembers(h, delivered, w, gcDepth)
    ensures w.lastCommittedRound == leader.round
    ensures OutputSound(h, delivered, v, out, gcDepth) ==> OutputSound(h, delivered, w, out + xs, gcDepth)
  {
    hide WellFormed, ViewSound, OutputSound, Batch, CommitsAll, Remembers;
    CommitKeepsView(h, delivered, v, w, leader, gcDepth, xs);
    CommitRemembers(h, delivered, v, w, leader, gcDepth, xs);
    if OutputSound(h, delivered, v, out, gcDepth) {
      CommitKeepsOutput(h, c, delivered, v, w, out, leader, gcDepth, xs);
    }
  }

  // ---------------------------------------------------------------------
  // What one turn outputs
  // ---------------------------------------------------------------------

  /** From memory `v` to memory `w`, one batch per leader: each the flattening of its leader
      in the memory that the batch before it left. */
  ghost predicate Commits(v: View, w: View, leaders: seq<Certificate>, batches: seq<CommittedSubDag>,
      gcDepth: Round)
    decreases |leaders|
  {
    |batches| == |leaders| &&
    if leaders == [] then w == v else
      var n := |leaders| - 1;
      exists u {:trigger Commits(v, u, leaders[..n], batches[..n], gcDepth)} ::
        Commits(v, u, leaders[..n], batches[..n], gcDepth)
        && Flattened(u, leaders[n], gcDepth, batches[n].certificates)
        && CommitsAll(u, w, batches[n].certificates, gcDepth)
  }

  lemma CommitsNone(v: View, gcDepth: Round)
    ensures Commits(v, v, [], [], gcDepth)
  {
  }

  lemma CommitsSnoc(v: View, u: View, w: View, leaders: seq<Certificate>, batches: seq<CommittedSubDag>,
      leader: Certificate, batch: CommittedSubDag, gcDepth: Round)
    requires Commits(v, u, leaders, batches, gcDepth)
    requires Flattened(u, leader, gcDepth, batch.certificates) && CommitsAll(u, w, batch.certificates, gcDepth)
    ensures Commits(v, w, leaders + [leader], batches + [batch], gcDepth)
  {
    hide Flattened, CommitsAll;
    var leaders', batches' := leaders + [leader], batches + [batch];
    assert leaders'[..|leaders'| - 1] == leaders && batches'[..|leaders'| - 1] == batches;
  }

  lemma DropFirst<T>(xs: seq<T>, ys: seq<T>)
    ensures (xs + ys)[|xs|..] == ys
  {
  }

  /** A turn adds the certificate to memory and then commits the given leaders. */
  ghost predicate Turn(v: View, w: View, x: Certificate, leaders: seq<Certificate>, batches: seq<CommittedSubDag>,
      gcDepth: Round) {
    exists u {:trigger Inserted(v, u, x)} :: Inserted(v, u, x) && Commits(u, w, leaders, batches, gcDepth)
  }

  // ---------------------------------------------------------------------
  // Nothing due stays uncommitted
  // ---------------------------------------------------------------------

  /** Whatever delivered certificate one looks from: the leader three rounds below it is
      committed if, among its ancestors, enough authorities name that leader. */
  ghost predicate Prompt(h: History, c: Committee, leaderOf: Schedule, delivered: set<Digest>,
      leaders: seq<Certificate>) {
    forall y, x {:trigger SeenSupporters(h, y, x)} ::
      Known(h, y) && y.digest in delivered && SeesSupported(h, c, leaderOf, y, x) ==> x in leaders
  }

  /** `x` is the leader of the even round three below `y`, and the authors of the ancestors
      of `y` that name it as a parent reach the validity threshold. */
  ghost predicate SeesSupported(h: History, c: Committee, leaderOf: Schedule, y: Certificate, x: Certificate) {
    && IsLeaderAt(h, leaderOf, x.round, x) && x.round >= 2 && x.round % 2 == 0 && y.round == x.round + 3
    && c.StakeOf(SeenSupporters(h, y, x)) >= c.ValidityThreshold()
  }

  lemma SeenIsDelivered(h: History, c: Committee, leaderOf: Schedule, delivered: set<Digest>, y: Certificate,
      x: Certificate)
    requires WellFormed(h, c) && Closed(h, delivered) && Known(h, y) && y.digest in delivered
    requires SeesSupported(h, c, leaderOf, y, x)
    ensures x.digest in delivered && Supported(h, c, x)
    ensures c.StakeOf(SupportersIn(h, delivered, x)) >= c.ValidityThreshold()
  {
    hide WellFormed, Closed, Reaches;
    DigestsName(h, c);
    forall d | d in h && h[d].round == x.round + 1 && x.digest in h[d].parents && Reaches(h, y, h[d])
      ensures d in delivered && h[d].origin in SupportersIn(h, delivered, x) && h[d].origin in Supporters(h, x)
      ensures x.digest in delivered
    {
      ReachedIsDelivered(h, c, delivered, y, h[d]);
      ParentDelivered(h, delivered, d, x.digest);
    }
    SomeoneSupports(h, c, y, SeenSupporters(h, y, x));
    StakeMonotone(c, SeenSupporters(h, y, x), SupportersIn(h, delivered, x));
    StakeMonotone(c, SeenSupporters(h, y, x), Supporters(h, x));
  }

  lemma ParentDelivered(h: History, delivered: set<Digest>, d: Digest, p: Digest)
    requires Closed(h, delivered) && d in delivered && d in h && p in h[d].parents
    ensures p in delivered
  {
  }

  /** Where a certificate has parents there is stake, so no support is empty. */
  lemma SomeoneSupports(h: History, c: Committee, y: Certificate, names: set<PublicKey>)
    requires WellFormed(h, c) && Known(h, y) && y.round > 0 && c.StakeOf(names) >= c.ValidityThreshold()
    ensures names != {}
  {
    assert WellParented(h, c, h[y.digest]);
    StakeBounded(c, ParentOrigins(h, y));
  }

  lemma WasPrompt(h: History, c: Committee, leaderOf: Schedule, delivered: set<Digest>,
      leaders: seq<Certificate>, y: Certificate, x: Certificate)
    requires Prompt(h, c, leaderOf, delivered, leaders) && Known(h, y) && y.digest in delivered
    requires SeesSupported(h, c, leaderOf, y, x)
    ensures x in leaders
  {
    hide SeesSupported;
    var seen := SeenSupporters(h, y, x);
  }

  lemma IsPrompt(h: History, c: Committee, leaderOf: Schedule, delivered: set<Digest>, leaders: seq<Certificate>)
    requires forall y, x :: Known(h, y) && y.digest in delivered && SeesSupported(h, c, leaderOf, y, x) ==>
      x in leaders
    ensures Prompt(h, c, leaderOf, delivered, leaders)
  {
    hide SeesSupported;
  }

  lemma GenesisIsPrompt(h: History, c: Committee, leaderOf: Schedule, delivered: set<Digest>)
    requires forall d :: d in delivered ==> d in h && h[d].round == 0
    ensures Prompt(h, c, leaderOf, delivered, [])
  {
    hide SeesSupported;
    forall y, x | Known(h, y) && y.digest in delivered
      ensures !SeesSupported(h, c, leaderOf, y, x)
    {
      TooEarly(h, c, leaderOf, y, x);
    }
    IsPrompt(h, c, leaderOf, delivered, []);
  }

  lemma TooEarly(h: History, c: Committee, leaderOf: Schedule, y: Certificate, x: Certificate)
    requires y.round == 0
    ensures !SeesSupported(h, c, leaderOf, y, x)
  {
  }

  /** A supported leader is committed now, or it lies at or below the last committed one and
      belongs to its sequence. */
  lemma DueIsCommitted(h: History, c: Committee, leaderOf: Schedule, delivered: set<Digest>,
      leaders0: seq<Certificate>, leaders: seq<Certificate>, lastRound: Round, y: Certificate, x: Certificate)
    requires WellFormed(h, c) && Closed(h, delivered) && Known(h, y) && y.digest in delivered
    requires SeesSupported(h, c, leaderOf, y, x) && leaders0 <= leaders
    requires if leaders0 == [] then lastRound == 0 else
      var last := leaders0[|leaders0| - 1];
      Supported(h, c, last) && IsLeaderAt(h, leaderOf, last.round, last) && 2 <= last.round == lastRound
        && last.round % 2 == 0 && leaders0 == LeaderSequence(h, leaderOf, last)
    requires forall z :: CommitDue(h, c, leaderOf, delivered, lastRound, y.round - 3, z) ==>
      leaders == LeaderSequence(h, leaderOf, z)
    ensures x in leaders
  {
    hide WellFormed, Closed, Supported, LeaderSequence, SupportersIn;
    SeenIsDelivered(h, c, leaderOf, delivered, y, x);
    EndsWithItself(h, leaderOf, x);
    if x.round > lastRound {
      assert CommitDue(h, c, leaderOf, delivered, lastRound, y.round - 3, x);
    } else {
      var last := leaders0[|leaders0| - 1];
      SupportedSequencesAgree(h, c, leaderOf, x, last);
      assert x in leaders0;
    }
  }

  lemma EndsWithItself(h: History, leaderOf: Schedule, x: Certificate)
    ensures x in LeaderSequence(h, leaderOf, x)
  {
    hide Walk;
  }

  lemma PromptAfter(h: History, c: Committee, leaderOf: Schedule, delivered0: set<Digest>,
      leaders0: seq<Certificate>, leaders: seq<Certificate>, lastRound: Round, y: Certificate)
    requires WellFormed(h, c) && Closed(h, delivered0 + {y.digest}) && Known(h, y)
    requires Prompt(h, c, leaderOf, delivered0, leaders0) && leaders0 <= leaders
    requires if leaders0 == [] then lastRound == 0 else
      var last := leaders0[|leaders0| - 1];
      Supported(h, c, last) && IsLeaderAt(h, leaderOf, last.round, last) && 2 <= last.round == lastRound
        && last.round % 2 == 0 && leaders0 == LeaderSequence(h, leaderOf, last)
    requires forall x :: CommitDue(h, c, leaderOf, delivered0 + {y.digest}, lastRound, y.round - 3, x) ==>
      leaders == LeaderSequence(h, leaderOf, x)
    ensures Prompt(h, c, leaderOf, delivered0 + {y.digest}, leaders)
  {
    hide WellFormed, Closed, Supported, LeaderSequence, SeesSupported, Prompt;
    forall z, x | Known(h, z) && z.digest in delivered0 + {y.digest} && SeesSupported(h, c, leaderOf, z, x)
      ensures x in leaders
    {
      DigestsName(h, c);
      if z.digest in delivered0 {
        WasPrompt(h, c, leaderOf, delivered0, leaders0, z, x);
      } else {
        assert z == y;
        DueIsCommitted(h, c, leaderOf, delivered0 + {y.digest}, leaders0, leaders, lastRound, y, x);
      }
    }
    IsPrompt(h, c, leaderOf, delivered0 + {y.digest}, leaders);
  }

  const MAX_ROUND: Round := 0xFFFF_FFFF_FFFF_FFFF

  class Consensus {
    const committee: Committee
    const gcDepth: Round
    const leaderOf: Schedule
    const state: State
    var nextBatchIndex: nat

    /** What was sent on the two output channels. */
    var toPrimary: seq<Certificate>
    var output: seq<CommittedSubDag>

    ghost const history: History
    ghost var delivered: set<Digest>
    ghost var leaders: seq<Certificate>

    /** Holds between any two statements that touch the state. */
    ghost predicate Consistent()
      reads this, state
    {
      && WellFormed(history, committee)
      && ViewSound(history, delivered, state.Snapshot())
      && Remembers(history, delivered, state.Snapshot(), gcDepth)
      && toPrimary == Flatten(output)
      && nextBatchIndex == |output|
      && state.lastCommittedRound == FloorOf(leaders, |leaders|)
      && Batches(history, output, leaders)
    }

    /** The committed leaders are the sequence that the last of them, a supported
        leader, stands for. */
    ghost predicate Settled()
      reads this, state
    {
      leaders != [] ==>
        var last := leaders[|leaders| - 1];
        && Supported(history, committee, last) && IsLeaderAt(history, leaderOf, last.round, last)
        && 2 <= last.round && last.round % 2 == 0
        && leaders == LeaderSequence(history, leaderOf, last)
    }

    /** Also holds between adding a certificate and committing what it makes due. */
    ghost predicate Steady()
      reads this, state
    {
      Consistent() && Settled()
    }

    ghost predicate Valid()
      reads this, state
    {
      Steady() && Prompt(history, committee, leaderOf, delivered, leaders)
    }

    /** Nothing harmful came back so far. */
    ghost predicate Clean()
      reads this, state
    {
      OutputSound(history, delivered, state.Snapshot(), toPrimary, gcDepth)
    }

    constructor (committee: Committee, gcDepth: Round, leaderOf: Schedule, genesis: map<PublicKey, Certificate>,
        ghost history: History)
      requires WellFormed(history, committee)
      requires genesis.Keys == committee.authorities.Keys
      requires forall name :: name in genesis ==>
        Known(history, genesis[name]) && genesis[name].round == 0 && genesis[name].origin == name
      ensures Valid() && Clean() && fresh(state)
      ensures this.committee == committee && this.history == history && this.leaderOf == leaderOf
      ensures this.gcDepth == gcDepth
      ensures output == [] && toPrimary == [] && leaders == []
      ensures delivered == set name | name in genesis :: genesis[name].digest
    {
      hide WellFormed, ViewSound, OutputSound, Prompt;
      this.committee, this.gcDepth, this.leaderOf, this.history := committee, gcDepth, leaderOf, history;
      nextBatchIndex, toPrimary, output, leaders := 0, [], [], [];
      delivered := set name | name in genesis :: genesis[name].digest;
      state := new State(genesis);
      new;
      GenesisIsSound(history, committee, genesis, delivered, gcDepth);
      GenesisIsPrompt(history, committee, leaderOf, delivered);
    }

    /** Commit one leader: flatten its sub-DAG, update the state with each
        certificate of the batch, and output the batch. */
    method CommitLeader(leader: Certificate)
      requires Consistent() && Known(history, leader) && leader.digest in delivered
      requires leader.round > state.lastCommittedRound
      modifies this`nextBatchIndex, this`toPrimary, this`output, this`leaders, state
      ensures Consistent() && leaders == old(leaders) + [leader]
      ensures |output| == old(|output|) + 1 && old(output) <= output && old(toPrimary) <= toPrimary
      ensures Flattened(old(state.Snapshot()), leader, gcDepth, output[old(|output|)].certificates)
      ensures CommitsAll(old(state.Snapshot()), state.Snapshot(), output[old(|output|)].certificates, gcDepth)
      ensures old(Clean()) ==> Clean()
    {
      hide WellFormed, ViewSound, Flattened, CommitsAll, Batches, Reaches, OutputSound, Cleaned, BatchFor;
      ghost var before, out := state.Snapshot(), toPrimary;
      MemoryIsKeyed();
      var batch := OrderDag(state.Snapshot(), leader, gcDepth);
      state.UpdateEach(batch, gcDepth);
      BatchKeeps(history, committee, delivered, before, state.Snapshot(), out, leader, gcDepth, batch);
      BatchIsFor(history, committee, delivered, before, leader, gcDepth, batch, nextBatchIndex + 1);

      ghost var committed := CommittedSubDag(nextBatchIndex + 1, leader.round, leader.digest, batch);
      BatchesSnoc(history, output, leaders, committed, leader);
      nextBatchIndex := nextBatchIndex + 1;
      toPrimary := toPrimary + batch;
      output := output + [CommittedSubDag(nextBatchIndex, leader.round, leader.digest, batch)];
      leaders := leaders + [leader];
      assert output[..|output| - 1] == old(output);
    }

    lemma MemoryIsKeyed()
      requires Consistent()
      ensures Keyed(state.Snapshot().dag)
      ensures IsMaximum(state.lastCommitted, state.lastCommittedRound) || state.lastCommittedRound == 0
    {
      hide WellFormed, Batches;
      ViewIsKeyed(history, committee, delivered, state.Snapshot());
    }

    lemma MemoryIsView()
      requires Consistent()
      ensures ViewOf(history, committee, delivered, state.Snapshot())
      ensures state.lastCommittedRound == FloorOf(leaders, |leaders|)
    {
      hide WellFormed;
      ViewIsKeyed(history, committee, delivered, state.Snapshot());
    }

    lemma FloorIsLast()
      requires Consistent()
      ensures leaders != [] ==> state.lastCommittedRound == leaders[|leaders| - 1].round
      ensures leaders == [] ==> state.lastCommittedRound == 0
    {
    }

    /** One turn of the main loop: a certificate whose history was delivered before it,
        for the first time or again. */
    method Process(certificate: Certificate)
      requires Valid()
      requires Known(history, certificate)
      requires forall p :: p in certificate.parents ==> p in delivered
      modifies this`nextBatchIndex, this`toPrimary, this`output, this`leaders, this`delivered, state
      ensures Valid() && delivered == old(delivered) + {certificate.digest}
      ensures old(output) <= output && old(toPrimary) <= toPrimary && old(leaders) <= leaders
      ensures forall x :: CommitDue(history, committee, leaderOf, delivered, old(state.lastCommittedRound),
        certificate.round - 3, x) ==>
        leaders == LeaderSequence(history, leaderOf, x)
      ensures NoCommitDue(history, committee, leaderOf, delivered, old(state.lastCommittedRound),
        certificate.round - 3) ==>
        output == old(output) && leaders == old(leaders)
      ensures Turn(old(state.Snapshot()), state.Snapshot(), certificate, leaders[|old(leaders)|..],
        output[|old(output)|..], gcDepth)
      ensures old(Clean()) && Harmless(old(state.Snapshot()), old(toPrimary), certificate, gcDepth) ==> Clean()
    {
      hide WellFormed, ViewSound, OutputSound, Supported, LeaderSequence, Flatten, Batches, FloorOf, CommitDue;
      hide Harmless, Commits, Inserted, Prompt;
      ghost var delivered0, leaders0, lastRound := delivered, leaders, state.lastCommittedRound;
      FloorIsLast();
      InsertCertificate(certificate);
      ghost var added := state.Snapshot();
      CommitDueLeader(certificate);
      DeliveriesClosed();
      PromptAfter(history, committee, leaderOf, delivered0, leaders0, leaders, lastRound, certificate);
    }

    lemma DeliveriesClosed()
      requires Consistent()
      ensures WellFormed(history, committee) && Closed(history, delivered)
    {
      hide WellFormed, Closed, Batches;
    }

    /** Commit the leader three rounds below the certificate, if that is due. */
    method CommitDueLeader(certificate: Certificate)
      requires Steady() && Known(history, certificate) && certificate.digest in delivered
      modifies this`nextBatchIndex, this`toPrimary, this`output, this`leaders, state
      ensures Steady()
      ensures old(output) <= output && old(toPrimary) <= toPrimary && old(leaders) <= leaders
      ensures forall x :: CommitDue(history, committee, leaderOf, delivered, old(state.lastCommittedRound),
        certificate.round - 3, x) ==>
        leaders == LeaderSequence(history, leaderOf, x)
      ensures NoCommitDue(history, committee, leaderOf, delivered, old(state.lastCommittedRound),
        certificate.round - 3) ==>
        output == old(output) && leaders == old(leaders)
      ensures Commits(old(state.Snapshot()), state.Snapshot(), leaders[|old(leaders)|..], output[|old(output)|..],
        gcDepth)
      ensures old(Clean()) ==> Clean()
    {
      hide WellFormed, ViewSound, OutputSound, Supported, LeaderSequence, Flatten, Batches, SupportersIn, FloorOf;
      hide Commits;
      var round := certificate.round;
      CommitsNone(state.Snapshot(), gcDepth);
      assert leaders[|leaders|..] == [] && output[|output|..] == [];

      // Rounds are unsigned: below a genesis certificate the subtraction wraps around.
      var r := if round == 0 then MAX_ROUND else round - 1;
      if r % 2 != 0 || r < 4 {
        return;
      }
      var leaderRound := r - 2;
      if leaderRound <= state.lastCommittedRound {
        return;
      }
      LeaderInMemory(history, committee, delivered, state.Snapshot(), leaderOf, leaderRound);
      var found := LeaderIn(state.Snapshot(), leaderOf, leaderRound);
      if found.None? {
        return;
      }
      var leader := found.value;
      SupportLayer(history, committee, delivered, state.Snapshot(), certificate);
      var layer := state.dag[r - 1];
      var supporters := set name | name in layer && leader.digest in layer[name].parents;
      var stake := committee.StakeOf(supporters);
      SupportInMemory(history, committee, delivered, state.Snapshot(), leader, supporters);
      if stake < committee.ValidityThreshold() {
        return;
      }
      assert CommitDue(history, committee, leaderOf, delivered, old(state.lastCommittedRound), round - 3, leader);
      CommitAll(leader);
    }

    /** Add the certificate to the in-memory DAG. */
    method InsertCertificate(certificate: Certificate)
      requires Steady()
      requires Known(history, certificate)
      requires forall p :: p in certificate.parents ==> p in delivered
      modifies this`delivered, state`dag
      ensures Steady() && delivered == old(delivered) + {certificate.digest}
      ensures Inserted(old(state.Snapshot()), state.Snapshot(), certificate)
      ensures old(Clean()) && Harmless(old(state.Snapshot()), old(toPrimary), certificate, gcDepth) ==> Clean()
    {
      hide WellFormed, ViewSound, OutputSound, Supported, Harmless;
      ghost var before := state.Snapshot();
      state.Insert(certificate);
      InsertKeepsView(history, committee, delivered, before, state.Snapshot(), certificate);
      InsertRemembers(history, committee, delivered, before, state.Snapshot(), certificate, gcDepth);
      if OutputSound(history, delivered, before, toPrimary, gcDepth) {
        InsertKeepsOutput(history, committee, delivered, before, state.Snapshot(), toPrimary, certificate, gcDepth);
      }
      delivered := delivered + {certificate.digest};
    }

    /** Commit the linked past leaders, oldest first, then the leader itself. */
    method CommitAll(leader: Certificate)
      requires Steady() && Supported(history, committee, leader) && leader.digest in delivered
      requires IsLeaderAt(history, leaderOf, leader.round, leader)
      requires leader.round >= 2 && leader.round % 2 == 0 && leader.round > state.lastCommittedRound
      modifies this`nextBatchIndex, this`toPrimary, this`output, this`leaders, state
      ensures Steady() && leaders == LeaderSequence(history, leaderOf, leader) && leaders[|leaders| - 1] == leader
      ensures old(output) <= output && old(toPrimary) <= toPrimary && old(leaders) <= leaders
      ensures Commits(old(state.Snapshot()), state.Snapshot(), leaders[|old(leaders)|..], output[|old(output)|..],
        gcDepth)
      ensures old(Clean()) ==> Clean()
    {
      hide WellFormed, Consistent, Supported, Walk, LeaderSequence, Reverse, Clean, Commits, Closed, Faithful;
      hide FrontierKept;
      ghost var low := state.lastCommittedRound + 2;
      MemoryIsView();
      var toCommit := OrderLeaders(leader, state.Snapshot(), leaderOf, history, committee, delivered);
      PastLeaders(history, committee, leaderOf, delivered, leader, Reverse(toCommit), low);
      SequenceContinues(history, committee, leaderOf, leaders, leader, state.lastCommittedRound);
      CommitChain(toCommit, low);
      DropFirst(old(leaders), Reverse(toCommit));
    }

    /** The loop over the ordered leaders, from the last element to the first. */
    method CommitChain(toCommit: seq<Certificate>, ghost low: nat)
      requires Consistent() && toCommit != [] && low > state.lastCommittedRound
      requires forall k :: 0 <= k < |toCommit| ==>
        Known(history, Reverse(toCommit)[k]) && Reverse(toCommit)[k].digest in delivered
          && Reverse(toCommit)[k].round >= low
      requires forall k :: 0 < k < |toCommit| ==> Reverse(toCommit)[k - 1].round < Reverse(toCommit)[k].round
      modifies this`nextBatchIndex, this`toPrimary, this`output, this`leaders, state
      ensures Consistent() && leaders == old(leaders) + Reverse(toCommit)
      ensures old(output) <= output && old(toPrimary) <= toPrimary
      ensures Commits(old(state.Snapshot()), state.Snapshot(), Reverse(toCommit), output[|old(output)|..], gcDepth)
      ensures old(Clean()) ==> Clean()
    {
      hide Consistent, Reverse, Clean, Commits, Flattened, CommitsAll;
      ghost var ordered := Reverse(toCommit);
      ghost var start, done := state.Snapshot(), |output|;
      CommitsNone(start, gcDepth);
      assert ordered[..0] == [] && output[done..] == [];
      var i := |toCommit|;
      while i > 0
        invariant 0 <= i <= |toCommit| && Consistent()
        invariant leaders == old(leaders) + ordered[..|toCommit| - i]
        invariant old(output) <= output && old(toPrimary) <= toPrimary
        invariant state.lastCommittedRound < low
          || (i < |toCommit| && state.lastCommittedRound == ordered[|toCommit| - i - 1].round)
        invariant Commits(start, state.Snapshot(), ordered[..|toCommit| - i], output[done..], gcDepth)
        invariant old(Clean()) ==> Clean()
        modifies this`nextBatchIndex, this`toPrimary, this`output, this`leaders, state
      {
        i := i - 1;
        ghost var k := |toCommit| - 1 - i;
        assert toCommit[i] == ordered[k] && ordered[..k + 1] == ordered[..k] + [ordered[k]];
        ghost var before, outputBefore := state.Snapshot(), output;
        CommitLeader(toCommit[i]);
        CommitsSnoc(start, before, state.Snapshot(), ordered[..k], outputBefore[done..], ordered[k],
          output[|outputBefore|], gcDepth);
        assert output[done..] == outputBefore[done..] + [output[|outputBefore|]];
        FloorIsLast();
      }
      assert ordered[..|toCommit|] == ordered;
    }
  }

  /** The round below the certificate's parents is in memory. */
  lemma SupportLayer(h: History, c: Committee, delivered: set<Digest>, v: View, x: Certificate)
    requires WellFormed(h, c) && ViewSound(h, delivered, v)
    requires Known(h, x) && x.digest in delivered && x.round >= v.lastCommittedRound + 3
    ensures x.round - 2 in v.dag
  {
    hide ViewSound, WellFormed, Faithful, FrontierKept, Keyed, IsMaximum;
    ViewIsKeyed(h, c, delivered, v);
    var p := HasParent(h, c, x);
    LayerPresent(h, c, delivered, v, h[p]);
  }

  /** Above the last committed round, memory and deliveries name the same leader. */
  lemma LeaderInMemory(h: History, c: Committee, delivered: set<Digest>, v: View, leaderOf: Schedule, r: Round)
    requires WellFormed(h, c) && ViewSound(h, delivered, v) && r > v.lastCommittedRound
    ensures forall x :: LeaderIn(v, leaderOf, r) == Some(x) <==> IsLeaderAt(h, leaderOf, r, x) && x.digest in delivered
  {
    hide Closed;
    forall x
      ensures LeaderIn(v, leaderOf, r) == Some(x) <==> IsLeaderAt(h, leaderOf, r, x) && x.digest in delivered
    {
      if IsLeaderAt(h, leaderOf, r, x) && x.digest in delivered {
        assert Holds(v.dag, h[x.digest]);
      }
    }
  }

  /** Support counted in memory is support among the delivered certificates. */
  lemma SupportInMemory(h: History, c: Committee, delivered: set<Digest>, v: View, leader: Certificate,
      supporters: set<PublicKey>)
    requires WellFormed(h, c) && ViewSound(h, delivered, v) && leader.round >= v.lastCommittedRound && Known(h, leader)
    requires leader.round + 1 in v.dag
    requires forall name :: name in supporters <==>
      name in v.dag[leader.round + 1] && leader.digest in v.dag[leader.round + 1][name].parents
    ensures supporters == SupportersIn(h, delivered, leader)
    ensures c.StakeOf(supporters) >= c.ValidityThreshold() ==> Supported(h, c, leader)
  {
    hide WellFormed, Supported, RoundsBounded, Closed;
    forall name
      ensures name in supporters <==> name in SupportersIn(h, delivered, leader)
    {
      if name in supporters {
        assert Has(v.dag, leader.round + 1, name);
        var x := v.dag[leader.round + 1][name];
        assert h[x.digest] == x;
      }
      if name in SupportersIn(h, delivered, leader) {
        var d :| d in delivered && d in h && h[d].round == leader.round + 1 && leader.digest in h[d].parents
          && h[d].origin == name;
        assert Holds(v.dag, h[d]);
      }
    }
    SupportedByDelivered(h, c, delivered, leader);
  }

  lemma SupportedByDelivered(h: History, c: Committee, delivered: set<Digest>, leader: Certificate)
    requires Known(h, leader)
    ensures c.StakeOf(SupportersIn(h, delivered, leader)) >= c.ValidityThreshold() ==> Supported(h, c, leader)
  {
    StakeMonotone(c, SupportersIn(h, delivered, leader), Supporters(h, leader));
  }

  /** The leaders already committed and those about to be make up the whole
      sequence of the new leader. */
  lemma SequenceContinues(h: History, c: Committee, leaderOf: Schedule, leaders: seq<Certificate>,
      leader: Certificate, lastRound: Round)
    requires WellFormed(h, c) && Known(h, leader) && leader.round % 2 == 0 && lastRound % 2 == 0
    requires leader.round >= 2 && leader.round > lastRound
    requires if leaders == [] then lastRound == 0 else
      var last := leaders[|leaders| - 1];
      Supported(h, c, last) && IsLeaderAt(h, leaderOf, last.round, last) && 2 <= last.round == lastRound
        && leaders == LeaderSequence(h, leaderOf, last)
    ensures leaders + (Walk(h, leaderOf, leader, leader.round - 2, lastRound + 2) + [leader]) ==
      LeaderSequence(h, leaderOf, leader)
  {
    hide WellFormed, Supported, Walk;
    if leaders != [] {
      WalkThroughSupported(h, c, leaderOf, leaders[|leaders| - 1], leader, leader.round - 2);
    }
  }

  /** The linked past leaders and the leader itself: all delivered, their rounds
      even, above the last committed round and strictly increasing. */
  lemma PastLeaders(h: History, c: Committee, leaderOf: Schedule, delivered: set<Digest>, leader: Certificate,
      ordered: seq<Certificate>, low: nat)
    requires WellFormed(h, c) && Closed(h, delivered) && Known(h, leader) && leader.digest in delivered
    requires IsLeaderAt(h, leaderOf, leader.round, leader) && leader.round % 2 == 0 && leader.round >= 2
    requires leader.round >= low
    requires ordered == Walk(h, leaderOf, leader, leader.round - 2, low) + [leader]
    ensures forall k :: 0 <= k < |ordered| ==>
      Known(h, ordered[k]) && ordered[k].digest in delivered && ordered[k].round >= low && ordered[k].round % 2 == 0
    ensures forall k :: 0 < k < |ordered| ==> ordered[k - 1].round < ordered[k].round
  {
    hide WellFormed, Closed, Walk, Reaches;
    WalkIsChain(h, leaderOf, leader, leader.round - 2, low);
    forall k | 0 <= k < |ordered|
      ensures Known(h, ordered[k]) && ordered[k].digest in delivered
    {
      assert Reaches(h, leader, leader) by {
        ReachesItself(h, leader);
      }
      ReachedIsDelivered(h, c, delivered, leader, ordered[k]);
    }
  }

  // ---------------------------------------------------------------------
  // Agreement
  // ---------------------------------------------------------------------

  lemma NamedPrefix(a: seq<Certificate>, b: seq<Certificate>)
    requires a <= b
    ensures NameLeaders(a) <= NameLeaders(b)
  {
  }

  lemma LeadersArePrefix(a: Consensus, b: Consensus)
    requires a.Valid() && b.Valid()
    requires a.history == b.history && a.committee == b.committee && a.leaderOf == b.leaderOf
    ensures a.leaders <= b.leaders || b.leaders <= a.leaders
  {
    hide LeaderSequence;
    if a.leaders != [] && b.leaders != [] {
      var x, y := a.leaders[|a.leaders| - 1], b.leaders[|b.leaders| - 1];
      if x.round <= y.round {
        SupportedSequencesAgree(a.history, a.committee, a.leaderOf, x, y);
      } else {
        SupportedSequencesAgree(a.history, a.committee, a.leaderOf, y, x);
      }
    }
  }

  /** Two nodes of one system: whatever each was delivered, in whatever order, the
      leaders one has committed are a prefix of those the other has. */
  lemma LeaderAgreement(a: Consensus, b: Consensus)
    requires a.Valid() && b.Valid()
    requires a.history == b.history && a.committee == b.committee && a.leaderOf == b.leaderOf
    ensures LeaderLog(a.output) <= LeaderLog(b.output) || LeaderLog(b.output) <= LeaderLog(a.output)
  {
    LogNamesLeaders(a);
    LogNamesLeaders(b);
    LeadersArePrefix(a, b);
    if a.leaders <= b.leaders {
      NamedPrefix(a.leaders, b.leaders);
    } else {
      NamedPrefix(b.leaders, a.leaders);
    }
  }

  lemma LogNamesLeaders(a: Consensus)
    requires a.Valid()
    ensures LeaderLog(a.output) == NameLeaders(a.leaders)
  {
    hide ViewSound, WellFormed, Supported, LeaderSequence;
    forall i | 0 <= i < |a.output|
      ensures a.output[i].leaderRound == a.leaders[i].round && a.output[i].leaderDigest == a.leaders[i].digest
    {
      assert BatchAt(a.history, a.output, a.leaders, i);
    }
  }

  /** Where two nodes committed the same leaders, their batches also hold the same
      certificates above the previous leader's round. */
  lemma BatchesAgreeAboveFloor(a: Consensus, b: Consensus, i: nat, x: Certificate)
    requires a.Valid() && b.Valid()
    requires a.history == b.history && a.committee == b.committee && a.leaderOf == b.leaderOf
    requires i < |a.output| && i < |b.output| && x.round > FloorOf(a.leaders, i)
    ensures a.leaders[i] == b.leaders[i] && FloorOf(a.leaders, i) == FloorOf(b.leaders, i)
    ensures x in a.output[i].certificates <==> x in b.output[i].certificates
  {
    hide ViewSound, WellFormed, Supported, LeaderSequence, Reaches, SortedByRound;
    LeadersArePrefix(a, b);
    assert BatchAt(a.history, a.output, a.leaders, i);
    assert BatchAt(b.history, b.output, b.leaders, i);
  }

  /** The commit rule misses nothing: a leader that enough of the ancestors of a delivered
      certificate, three rounds up, name as a parent is committed. */
  lemma SupportedIsCommitted(a: Consensus, y: Certificate, x: Certificate)
    requires a.Valid() && Known(a.history, y) && y.digest in a.delivered
    requires IsLeaderAt(a.history, a.leaderOf, x.round, x) && x.round >= 2 && x.round % 2 == 0
    requires y.round == x.round + 3
    requires a.committee.StakeOf(SeenSupporters(a.history, y, x)) >= a.committee.ValidityThreshold()
    ensures x in a.leaders
  {
    hide WellFormed, ViewSound, Batches, Supported, LeaderSequence;
    WasPrompt(a.history, a.committee, a.leaderOf, a.delivered, a.leaders, y, x);
  }

  /** A certificate delivered for the first time does no harm. */
  lemma FirstDelivery(a: Consensus, x: Certificate)
    requires a.Valid() && a.Clean() && Known(a.history, x) && x.digest !in a.delivered && x.round > 0
    ensures Harmless(a.state.Snapshot(), a.toPrimary, x, a.gcDepth)
  {
    hide WellFormed, ViewSound, OutputSound, Batches, Supported, LeaderSequence, Harmless;
    FirstIsHarmless(a.history, a.delivered, a.state.Snapshot(), a.toPrimary, x, a.gcDepth);
  }

  /** While nothing harmful came back, no certificate is output twice over a whole run,
      genesis never, and no certificate is output after one of its children. */
  lemma NoDoubleCommit(a: Consensus)
    requires a.Valid() && a.Clean()
    ensures Distinct(Flatten(a.output)) && forall x :: x in Flatten(a.output) ==> x.round > 0
    ensures forall i, j :: 0 <= i <= j < |Flatten(a.output)| ==>
      Flatten(a.output)[j].digest !in Flatten(a.output)[i].parents
  {
    var out := Flatten(a.output);
    var v := a.state.Snapshot();
    forall i, j | 0 <= i <= j < |out|
      ensures out[j].digest !in out[i].parents
    {
      assert out[j] in out && out[i] in out;
    }
  }

  /** Clean runs leave no gap: before each output certificate comes each of its parents that
      is still in the retained window and whose author has nothing newer in the output. */
  lemma ParentIsOutput(a: Consensus, i: nat, p: Digest)
    requires a.Valid() && a.Clean() && i < |Flatten(a.output)|
    requires p in Flatten(a.output)[i].parents && p in a.history && a.history[p].round > 0
    requires a.state.lastCommittedRound <= a.history[p].round + a.gcDepth
    requires forall y :: y in Flatten(a.output) && y.origin == a.history[p].origin ==> y.round <= a.history[p].round
    ensures a.history[p] in Flatten(a.output)[..i]
  {
    hide WellFormed, FrontierKept, Faithful, RoundsBounded, Batches, Supported, LeaderSequence, Prompt, Holds;
    var out, v, x := Flatten(a.output), a.state.Snapshot(), a.history[p];
    assert out[i] in out;
    assert Holds(v.dag, x);
    assert ParentSettled(v, out, i, x, a.gcDepth);
  }

  /** The committed leaders are leaders of even rounds at least 2, strictly increasing,
      each an ancestor of the next; the last of them sets the last committed round. */
  lemma CommitSchedule(a: Consensus)
    requires a.Valid()
    ensures LeaderChain(a.history, a.leaderOf, a.leaders, 2, a.state.lastCommittedRound)
    ensures a.state.lastCommittedRound == if a.leaders == [] then 0 else a.leaders[|a.leaders| - 1].round
  {
    hide ViewSound, WellFormed, Supported, Walk, Reaches, LeaderChain, Batches;
    a.FloorIsLast();
    if a.leaders == [] {
      EmptyChain(a.history, a.leaderOf, 2, 0);
    } else {
      var last := a.leaders[|a.leaders| - 1];
      WalkIsChain(a.history, a.leaderOf, last, last.round - 2, 2);
    }
  }

  lemma EmptyChain(h: History, leaderOf: Schedule, low: nat, high: int)
    ensures LeaderChain(h, leaderOf, [], low, high)
  {
  }

  /** One batch per leader, numbered from 1 without gaps, and none of them empty. */
  lemma BatchesNumbered(a: Consensus)
    requires a.Valid()
    ensures |a.output| == |a.leaders| == a.nextBatchIndex
    ensures forall i :: 0 <= i < |a.output| ==>
      a.output[i].batchIndex == i + 1 && a.output[i].leaderDigest == a.leaders[i].digest
        && a.output[i].certificates != []
  {
    hide ViewSound, WellFormed, Supported, LeaderSequence, SortedByRound, Reaches;
    forall i | 0 <= i < |a.output|
      ensures a.output[i].batchIndex == i + 1 && a.output[i].leaderDigest == a.leaders[i].digest
      ensures a.output[i].certificates != []
    {
      assert BatchAt(a.history, a.output, a.leaders, i);
    }
  }
}
