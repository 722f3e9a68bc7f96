/** The post-consensus executor: receives committed batches, tracks visibility, and
    outputs each batch in its final order. */
module MrvExecutor {
  import opened Basics
  import opened Dag
  import opened Visibility
  import opened Verdict
  import opened ExecutorRun
  import opened Conservation

  /** The floor is the least round of an active AUF. */
  ghost predicate FloorIs(aufs: map<Digest, AufState>, floor: Option<Round>) {
    match floor
    case None => aufs == map[]
    case Some(m) => BelowAll(m, aufs) && exists d :: d in aufs && aufs[d].round == m
  }

  lemma FloorUnderAdd(aufs: map<Digest, AufState>, floor: Option<Round>, d: Digest, round: Round)
    requires FloorIs(aufs, floor) && d !in aufs
    ensures FloorIs(aufs[d := NewAuf(round)], Lowered(floor, round))
    ensures BelowAll(Lowered(floor, round).value, aufs[d := NewAuf(round)])
  {
    var aufs' := aufs[d := NewAuf(round)];
    if floor.Some? {
      var w :| w in aufs && aufs[w].round == floor.value;
      assert aufs'[w].round == floor.value;
    }
    assert aufs'[d].round == round;
  }

  function Lowered(floor: Option<Round>, round: Round): Option<Round> {
    Some(if floor.Some? && floor.value < round then floor.value else round)
  }

  /** What adding a certificate needs and leaves. */
  lemma AddFacts(p: Params, e: Exec, x: Certificate, floor: Option<Round>)
    requires Proper(p) && Observed(p, e) && Admissible(e.store, x) && FloorIs(e.aufs, floor)
    ensures Observed(p, AddCertificate(p, e, x)) && FloorIs(AddCertificate(p, e, x).aufs, Lowered(floor, x.round))
    ensures x.digest !in e.aufs
    ensures var store, aufs := e.store[x.digest := x], e.aufs[x.digest := NewAuf(x.round)];
      Descending(store) && Tracked(store, aufs) && BelowAll(Lowered(floor, x.round).value, aufs)
  {
    hide SeenExactly, HorizonsOk, FloorIs, Admissible, Descending, RecordAll, BelowAll, Tracked;
    NewDigest(p, e, x);
    AddKeepsObserved(p, e, x);
    AddKeepsDescending(e.store, x);
    FloorUnderAdd(e.aufs, floor, x.digest, x.round);
    RecordAllKeepsFloor(e.store[x.digest := x], e.aufs[x.digest := NewAuf(x.round)], x.digest, x.round,
      x.origin, p.reach, Lowered(floor, x.round));
  }

  lemma NewDigest(p: Params, e: Exec, x: Certificate)
    requires Observed(p, e) && Admissible(e.store, x)
    ensures x.digest !in e.store && x.digest !in e.aufs
    ensures Tracked(e.store[x.digest := x], e.aufs[x.digest := NewAuf(x.round)])
  {
    hide SeenExactly, HorizonsOk, Descending;
  }

  lemma RecordAllKeepsFloor(store: History, aufs: map<Digest, AufState>, digest: Digest, round: Round,
      author: PublicKey, reach: nat, floor: Option<Round>)
    requires FloorIs(aufs, floor)
    ensures FloorIs(RecordAll(store, aufs, digest, round, author, reach), floor)
  {
    hide Sees, RecordSeen;
    var aufs' := RecordAll(store, aufs, digest, round, author, reach);
    forall d | d in aufs
      ensures aufs'[d].round == aufs[d].round
    {
      RecordKeepsRound(aufs[d], round, author, reach);
    }
    FloorSameRounds(aufs, aufs', floor);
  }

  /** Only the rounds matter for the floor. */
  lemma FloorSameRounds(aufs: map<Digest, AufState>, aufs': map<Digest, AufState>, floor: Option<Round>)
    requires FloorIs(aufs, floor) && aufs'.Keys == aufs.Keys
    requires forall d :: d in aufs ==> aufs'[d].round == aufs[d].round
    ensures FloorIs(aufs', floor)
  {
    if floor.Some? {
      var w :| w in aufs && aufs[w].round == floor.value;
      assert aufs'[w].round == floor.value;
    }
  }

  class MrvExecutor {
    const params: Params
    var store: History
    var aufStates: map<Digest, AufState>
    var batches: map<nat, seq<Digest>>
    var activeFloorRound: Option<Round>
    var frontierRound: Round

    /** What was sent on the output channel. */
    var output: seq<Certificate>

    ghost var released: seq<Slice>
    ghost var received: seq<CommittedSubDag>

    ghost function View(): Exec
      reads this
    {
      Exec(store, aufStates, batches, frontierRound, released)
    }

    /** Holds between any two statements. */
    ghost predicate Consistent()
      reads this
    {
      && Proper(params) && Observed(params, View())
      && FloorIs(aufStates, activeFloorRound)
      && output == Outputs(released)
    }

    ghost predicate Valid()
      reads this
    {
      && Consistent() && Accounted(View(), received)
      && CapsApplied(params, View()) && Blocked(View())
    }

    constructor (committeeSize: nat, windowCap: Round)
      ensures Valid() && View() == START && received == [] && output == []
      ensures var f := (Max(committeeSize, 1) - 1) / 3;
        params == Params(Max(windowCap, 1), 2 * f + 1, f + 1)
    {
      var n := Max(committeeSize, 1);
      var f := (n - 1) / 3;
      params := Params(Max(windowCap, 1), 2 * f + 1, f + 1);
      store, aufStates, batches, activeFloorRound, frontierRound := map[], map[], map[], None, 0;
      output, released, received := [], [], [];
      new;
      StartKeeps(params);
    }

    method OnCommittedBatch(committedBatch: CommittedSubDag)
      requires Valid()
      requires AllAdmissible(store, committedBatch.certificates) && AboveAll(received, committedBatch.batchIndex)
      modifies this
      ensures Valid() && View() == Deliver(params, old(View()), committedBatch)
      ensures received == if committedBatch.certificates == [] then old(received) else old(received) + [committedBatch]
      ensures old(output) <= output
    {
      hide Observed, Accounted, CapsApplied, Blocked, Admissible, Drain, Extend, RecordAll, FloorIs;
      ghost var before := View();
      var certificates := committedBatch.certificates;
      DeliverKeeps(params, before, received, committedBatch);
      ReceiveKeeps(params, before, received, committedBatch);
      var members := AddCertificates(certificates);
      if members != [] {
        batches := batches[committedBatch.batchIndex := members];
        received := received + [committedBatch];
      }
      assert View() == Received(params, before, committedBatch);
      ghost var listed := View();
      CapKeepsAccounted(params, listed, received);
      ApplyWindowCap();
      TryFinalizeBatches();
    }

    /** The loop over the certificates of a batch. */
    method AddCertificates(certificates: seq<Certificate>) returns (members: seq<Digest>)
      requires Consistent() && AllAdmissible(store, certificates)
      modifies this`store, this`aufStates, this`activeFloorRound, this`frontierRound
      ensures Consistent() && View() == AddAll(params, old(View()), certificates) && members == Digests(certificates)
    {
      hide Observed, Admissible, RecordAll, FloorIs, Extend;
      ghost var before := View();
      members := [];
      assert certificates[..0] == [];
      var i := 0;
      while i < |certificates|
        invariant 0 <= i <= |certificates|
        invariant Consistent() && View() == AddAll(params, before, certificates[..i])
        invariant members == Digests(certificates[..i])
      {
        ghost var done := certificates[..i];
        assert certificates[..i + 1] == done + [certificates[i]];
        PrefixAdmissible(before.store, certificates, i);
        AddAllKeeps(params, before, done);
        AddCertificateToView(certificates[i]);
        DigestsSnoc(done, certificates[i]);
        AddAllSnoc(params, before, done, certificates[i]);
        members := members + [certificates[i].digest];
        i := i + 1;
      }
      assert certificates[..i] == certificates;
    }

    method AddCertificateToView(certificate: Certificate)
      requires Consistent() && Admissible(store, certificate)
      modifies this`store, this`aufStates, this`activeFloorRound, this`frontierRound
      ensures Consistent() && View() == AddCertificate(params, old(View()), certificate)
    {
      hide Observed, Admissible, RecordAll, FloorIs, Outputs, Descending, Tracked, BelowAll;
      var digest, round, author := certificate.digest, certificate.round, certificate.origin;
      AddFacts(params, View(), certificate, activeFloorRound);
      frontierRound := Max(frontierRound, round);
      store := store[digest := certificate];
      if digest !in aufStates {
        NoteActiveRound(round);
        aufStates := aufStates[digest := NewAuf(round)];
      }
      aufStates := PrunedWalk(store, aufStates, activeFloorRound, round, author, digest, params.reach);
    }

    method NoteActiveRound(round: Round)
      modifies this`activeFloorRound
      ensures activeFloorRound == Lowered(old(activeFloorRound), round)
    {
      activeFloorRound := match activeFloorRound
        case None => Some(round)
        case Some(currentMin) => Some(if currentMin < round then currentMin else round);
    }

    /** The AUFs are capped in any order. */
    method ApplyWindowCap()
      requires Consistent()
      modifies this`aufStates
      ensures Consistent() && View() == CapAll(params, old(View())) && CapsApplied(params, View())
    {
      hide Observed, FloorIs, Outputs, Capped;
      ghost var aufs := aufStates;
      CapKeepsObserved(params, View());
      CapKeepsFloor(params, View(), activeFloorRound);
      var left := aufStates.Keys;
      while left != {}
        invariant left <= aufs.Keys && aufStates.Keys == aufs.Keys
        invariant forall d :: d in aufs ==>
          aufStates[d] == if d in left then aufs[d] else Capped(params, frontierRound, aufs[d])
        decreases left
      {
        var d :| d in left;
        aufStates := aufStates[d := Capped(params, frontierRound, aufStates[d])];
        left := left - {d};
      }
      assert aufStates == CapAll(params, old(View())).aufs;
    }

    /** Finalize batches from the lowest index on while all their members have horizons. */
    method TryFinalizeBatches()
      requires Consistent() && Accounted(View(), received) && CapsApplied(params, View())
      modifies this`batches, this`aufStates, this`activeFloorRound, this`output, this`released
      ensures Consistent() && View() == Drain(params, old(View())) && old(output) <= output
      ensures Accounted(View(), received) && CapsApplied(params, View()) && Blocked(View())
    {
      hide Observed, Accounted, CapsApplied, Blocked, FloorIs, Outputs, Release;
      DrainKeeps(params, View(), received);
      ghost var final := Drain(params, View());
      while batches != map[]
        invariant Consistent() && Accounted(View(), received) && Drain(params, View()) == final
        invariant old(output) <= output
        decreases |batches|
      {
        var next := Least(batches.Keys);
        var members := batches[next];
        LowestIsStored(View(), received);
        LowestIsDistinct(View(), received);
        HorizonsMature(params, View());
        var horizon := BatchHorizon(members);
        if horizon.None? {
          return;
        }
        // A horizon is never in the future, so the source's frontier test never fires.
        assert horizon.value <= frontierRound;
        assert AllFrozen(View(), members);
        ReleaseKeepsAccounted(params, View(), received);
        FewerBatches(batches, next);
        Finalize(next, members);
      }
    }

    method BatchHorizon(members: seq<Digest>) returns (horizon: Option<Round>)
      requires HorizonsOk(params, View())
      ensures horizon.Some? <==> forall d :: d in members ==> HasHorizon(aufStates, d)
      ensures horizon.Some? ==> horizon.value <= frontierRound
      ensures horizon.Some? ==> forall d :: d in members ==> aufStates[d].horizon.value <= horizon.value
    {
      var h: nat := 0;
      var i := 0;
      while i < |members|
        invariant 0 <= i <= |members| && h <= frontierRound
        invariant forall k :: 0 <= k < i ==>
          HasHorizon(aufStates, members[k]) && aufStates[members[k]].horizon.value <= h
      {
        if members[i] !in aufStates || aufStates[members[i]].horizon.None? {
          assert members[i] in members && !HasHorizon(aufStates, members[i]);
          return None;
        }
        assert HorizonOk(params, frontierRound, aufStates[members[i]]);
        h := Max(h, aufStates[members[i]].horizon.value);
        i := i + 1;
      }
      horizon := Some(h);
    }

    /** Sort one batch, send it, and forget its AUFs. */
    method Finalize(index: nat, members: seq<Digest>)
      requires Consistent() && index in batches && batches[index] == members && Distinct(members)
      requires AllFrozen(View(), members)
      modifies this`batches, this`aufStates, this`activeFloorRound, this`output, this`released
      ensures Consistent() && View() == Release(params, old(View()), index) && old(output) <= output
      ensures batches == old(batches) - {index}
    {
      hide Observed, FloorIs, BatchOrder, Outputs;
      ReleaseKeepsObserved(params, View(), index);
      HorizonsMature(params, View());
      var sorted := SortBatch(store, aufStates, params.delta, members);
      OrderIsStored(store, aufStates, params.delta, members);
      Send(sorted);
      OutputsSnoc(released, Slice(index, Lookup(store, sorted)));
      released := released + [Slice(index, Lookup(store, sorted))];
      ReleaseBatch(index, members);
    }

    method Send(sorted: seq<Digest>)
      requires Elements(sorted) <= store.Keys
      modifies this`output
      ensures output == old(output) + Lookup(store, sorted)
    {
      ghost var order := Lookup(store, sorted);
      var i := 0;
      while i < |sorted|
        invariant 0 <= i <= |sorted| && output == old(output) + order[..i]
      {
        assert sorted[i] in Elements(sorted);
        output := output + [store[sorted[i]]];
        i := i + 1;
      }
      assert order[..i] == order;
    }

    method ReleaseBatch(index: nat, members: seq<Digest>)
      requires FloorIs(aufStates, activeFloorRound)
      modifies this`batches, this`aufStates, this`activeFloorRound
      ensures batches == old(batches) - {index} && aufStates == old(aufStates) - Elements(members)
      ensures FloorIs(aufStates, activeFloorRound)
    {
      batches := batches - {index};
      var removedFloor := false;
      ghost var aufs := aufStates;
      var i := 0;
      while i < |members|
        invariant 0 <= i <= |members| && aufStates == aufs - Elements(members[..i])
        invariant activeFloorRound == old(activeFloorRound)
        modifies this`aufStates
        invariant !removedFloor ==>
          forall d :: d in aufs && d in members[..i] ==> Some(aufs[d].round) != activeFloorRound
      {
        assert members[..i + 1] == members[..i] + [members[i]];
        if members[i] in aufStates && Some(aufStates[members[i]].round) == activeFloorRound {
          removedFloor := true;
        }
        aufStates := aufStates - {members[i]};
        i := i + 1;
      }
      assert members[..i] == members;
      if removedFloor {
        RecomputeActiveFloorRound();
      } else if activeFloorRound.Some? {
        ghost var d :| d in aufs && aufs[d].round == activeFloorRound.value;
        assert d in aufStates;
      }
    }

    method RecomputeActiveFloorRound()
      modifies this`activeFloorRound
      ensures FloorIs(aufStates, activeFloorRound)
    {
      if aufStates == map[] {
        activeFloorRound := None;
      } else {
        var rounds := set d | d in aufStates :: aufStates[d].round;
        var d :| d in aufStates;
        assert aufStates[d].round in rounds;
        activeFloorRound := Some(Least(rounds));
        assert forall d :: d in aufStates ==> aufStates[d].round in rounds;
      }
    }
  }

  lemma OrderIsStored(store: History, aufs: map<Digest, AufState>, delta: nat, members: seq<Digest>)
    requires Elements(members) <= store.Keys
    ensures Elements(BatchOrder(store, aufs, delta, Elements(members))) <= store.Keys
  {
    BatchOrderProperties(store, aufs, delta, Elements(members));
  }

  lemma OutputsSnoc(slices: seq<Slice>, s: Slice)
    ensures Outputs(slices + [s]) == Outputs(slices) + s.order
  {
    assert (slices + [s])[..|slices|] == slices;
  }

  lemma CapKeepsFloor(p: Params, e: Exec, floor: Option<Round>)
    requires FloorIs(e.aufs, floor)
    ensures FloorIs(CapAll(p, e).aufs, floor)
  {
    FloorSameRounds(e.aufs, CapAll(p, e).aufs, floor);
  }

  lemma HorizonsMature(p: Params, e: Exec)
    requires Observed(p, e)
    ensures MatureHasHorizon(e.aufs) && HorizonsOk(p, e)
  {
    hide SeenExactly;
    forall d | d in e.aufs && e.aufs[d].mature
      ensures e.aufs[d].horizon.Some?
    {
      assert HorizonOk(p, e.frontier, e.aufs[d]);
    }
  }

  lemma LowestIsDistinct(e: Exec, bs: seq<CommittedSubDag>)
    requires Accounted(e, bs) && e.batches != map[]
    ensures Distinct(e.batches[Least(e.batches.Keys)])
  {
    LowestIsNext(e, bs);
  }

  lemma PrefixAdmissible(store: History, xs: seq<Certificate>, i: nat)
    requires AllAdmissible(store, xs) && i < |xs|
    ensures AllAdmissible(store, xs[..i]) && Admissible(Extend(store, xs[..i]), xs[i])
  {
    hide Admissible, Extend;
    assert AdmissibleNext(store, xs, i);
    forall k | 0 <= k < i
      ensures AdmissibleNext(store, xs[..i], k)
    {
      assert AdmissibleNext(store, xs, k) && xs[..i][..k] == xs[..k];
    }
  }

  lemma AddAllSnoc(p: Params, e: Exec, xs: seq<Certificate>, x: Certificate)
    ensures AddAll(p, e, xs + [x]) == AddCertificate(p, AddAll(p, e, xs), x)
  {
    hide AddCertificate;
    var ys := xs + [x];
    assert ys[..|ys| - 1] == xs;
  }
}
