/** Over every run, the executor outputs one permutation per batch, batch by batch,
    for a prefix of the batches it received, and keeps the others whole. */
module Conservation {
  import opened Basics
  import opened Dag
  import opened Visibility
  import opened Verdict
  import opened ExecutorRun

  ghost predicate Increasing(bs: seq<CommittedSubDag>) {
    forall i, j :: 0 <= i < j < |bs| ==> bs[i].batchIndex < bs[j].batchIndex
  }

  /** All received batches are stored as received; no digest occurs twice. */
  ghost predicate Stored(store: History, bs: seq<CommittedSubDag>) {
    && (forall j, x :: 0 <= j < |bs| && x in bs[j].certificates ==> x.digest in store && store[x.digest] == x)
    && (forall j :: 0 <= j < |bs| ==> bs[j].certificates != [] && Distinct(Members(bs[j])))
    && (forall i, j, d :: 0 <= i < |bs| && 0 <= j < |bs| && d in Members(bs[i]) && d in Members(bs[j]) ==> i == j)
  }

  ghost predicate IsPermutation(s: Slice, b: CommittedSubDag) {
    s.index == b.batchIndex && multiset(s.order) == multiset(b.certificates)
  }

  ghost predicate IndexPending(bs: seq<CommittedSubDag>, k: nat, index: nat) {
    exists j :: k <= j < |bs| && bs[j].batchIndex == index
  }

  ghost predicate MemberPending(bs: seq<CommittedSubDag>, k: nat, d: Digest) {
    exists j :: k <= j < |bs| && d in Members(bs[j])
  }

  /** The batches from the `k`-th on are waiting, whole, with all their AUFs; there
      are no other batches and no other AUFs. */
  ghost predicate Pending(e: Exec, bs: seq<CommittedSubDag>, k: nat) {
    && (forall j :: k <= j < |bs| ==> bs[j].batchIndex in e.batches && e.batches[bs[j].batchIndex] == Members(bs[j]))
    && (forall index :: index in e.batches ==> IndexPending(bs, k, index))
    && (forall d :: d in e.aufs <==> MemberPending(bs, k, d))
  }

  ghost predicate Accounted(e: Exec, bs: seq<CommittedSubDag>) {
    && Increasing(bs) && Stored(e.store, bs)
    && |e.released| <= |bs|
    && (forall k :: 0 <= k < |e.released| ==> IsPermutation(e.released[k], bs[k]))
    && Pending(e, bs, |e.released|)
  }

  // ---------------------------------------------------------------------
  // Releasing
  // ---------------------------------------------------------------------

  lemma LowestIsNext(e: Exec, bs: seq<CommittedSubDag>)
    requires Accounted(e, bs) && e.batches != map[]
    ensures |e.released| < |bs| && Least(e.batches.Keys) == bs[|e.released|].batchIndex
    ensures e.batches[Least(e.batches.Keys)] == Members(bs[|e.released|])
  {
    hide Stored;
    var index := Least(e.batches.Keys);
    assert IndexPending(bs, |e.released|, index);
    var j :| |e.released| <= j < |bs| && bs[j].batchIndex == index;
    assert bs[|e.released|].batchIndex in e.batches.Keys;
  }

  /** Looking up a reordering of a batch's digests gives a reordering of the batch. */
  lemma LookupPermutes(store: History, xs: seq<Certificate>, order: seq<Digest>)
    requires forall x :: x in xs ==> x.digest in store && store[x.digest] == x
    requires Distinct(Digests(xs)) && Distinct(order) && Elements(order) == Elements(Digests(xs))
    requires Elements(order) <= store.Keys
    ensures multiset(Lookup(store, order)) == multiset(xs)
  {
    var ys := Lookup(store, order);
    var ds := Digests(xs);
    forall i | 0 <= i < |order|
      ensures ys[i] in xs && ys[i].digest == order[i]
    {
      assert order[i] in Elements(order);
      assert order[i] in ds;
      var j :| 0 <= j < |ds| && ds[j] == order[i];
      assert xs[j] in xs;
    }
    forall x | x in xs
      ensures x in ys
    {
      var j :| 0 <= j < |xs| && xs[j] == x;
      assert ds[j] in Elements(ds);
      assert x.digest in order;
      var i :| 0 <= i < |order| && order[i] == x.digest;
      assert ys[i] == x;
    }
    assert Distinct(ys);
    assert Distinct(xs) by {
      forall i, j | 0 <= i < j < |xs|
        ensures xs[i] != xs[j]
      {
        assert ds[i] != ds[j];
      }
    }
    assert Elements(xs) == Elements(ys);
    DistinctMultiset(xs);
    DistinctMultiset(ys);
  }

  lemma ReleasedIsPermutation(p: Params, e: Exec, bs: seq<CommittedSubDag>)
    requires Accounted(e, bs) && e.batches != map[] && AllFrozen(e, e.batches[Least(e.batches.Keys)])
    ensures |e.released| < |bs|
    ensures var e' := Release(p, e, Least(e.batches.Keys));
      |e'.released| == |e.released| + 1 && e'.released[..|e.released|] == e.released
      && IsPermutation(e'.released[|e.released|], bs[|e.released|])
  {
    LowestIsNext(e, bs);
    var k := |e.released|;
    var members := Elements(Members(bs[k]));
    BatchOrderProperties(e.store, e.aufs, p.delta, members);
    var order := BatchOrder(e.store, e.aufs, p.delta, members);
    hide Pending, Increasing, BatchOrder;
    LookupPermutes(e.store, bs[k].certificates, order);
  }

  lemma ReleaseKeepsPending(p: Params, e: Exec, bs: seq<CommittedSubDag>)
    requires Accounted(e, bs) && e.batches != map[] && AllFrozen(e, e.batches[Least(e.batches.Keys)])
    ensures Pending(Release(p, e, Least(e.batches.Keys)), bs, |e.released| + 1)
  {
    hide BatchOrder, Digests, Stored, Increasing, IsPermutation, Pending;
    LowestIsNext(e, bs);
    PendingShrinks(e, Release(p, e, Least(e.batches.Keys)), bs, |e.released|);
  }

  lemma PendingShrinks(e: Exec, e': Exec, bs: seq<CommittedSubDag>, k: nat)
    requires Increasing(bs) && Stored(e.store, bs) && Pending(e, bs, k) && k < |bs|
    requires e'.batches == e.batches - {bs[k].batchIndex} && e'.aufs == e.aufs - Elements(Members(bs[k]))
    ensures Pending(e', bs, k + 1)
  {
    hide Digests;
    forall index | index in e'.batches
      ensures IndexPending(bs, k + 1, index)
    {
      assert IndexPending(bs, k, index);
      var j :| k <= j < |bs| && bs[j].batchIndex == index;
    }
    forall d
      ensures d in e'.aufs <==> MemberPending(bs, k + 1, d)
    {
      assert d in e.aufs <==> MemberPending(bs, k, d);
      if d in e'.aufs {
        var j :| k <= j < |bs| && d in Members(bs[j]);
        assert j != k;
      }
      if MemberPending(bs, k + 1, d) {
        var j :| k + 1 <= j < |bs| && d in Members(bs[j]);
        assert d !in Members(bs[k]);
        assert MemberPending(bs, k, d);
      }
    }
  }

  lemma ReleaseKeepsAccounted(p: Params, e: Exec, bs: seq<CommittedSubDag>)
    requires Accounted(e, bs) && e.batches != map[] && AllFrozen(e, e.batches[Least(e.batches.Keys)])
    ensures Accounted(Release(p, e, Least(e.batches.Keys)), bs)
  {
    ReleasedIsPermutation(p, e, bs);
    ReleaseKeepsPending(p, e, bs);
    hide Pending, Stored, IsPermutation, BatchOrder, Increasing;
    var e' := Release(p, e, Least(e.batches.Keys));
    forall k | 0 <= k < |e'.released|
      ensures IsPermutation(e'.released[k], bs[k])
    {
      if k < |e.released| {
        assert e'.released[..|e.released|][k] == e.released[k];
      }
    }
  }

  lemma ReleaseKeepsObserved(p: Params, e: Exec, index: nat)
    requires Observed(p, e) && index in e.batches && AllFrozen(e, e.batches[index])
    ensures Observed(p, Release(p, e, index))
  {
    hide SomeoneSaw, HorizonOk, BatchOrder, Descending;
  }

  /** No AUF without a horizon has been waiting for a full window. */
  ghost predicate CapsApplied(p: Params, e: Exec) {
    forall d :: d in e.aufs && e.aufs[d].horizon.None? ==> e.frontier < e.aufs[d].round + p.windowCap
  }

  /** If anything waits, the lowest batch has a member without a horizon. */
  ghost predicate Blocked(e: Exec) {
    e.batches != map[] ==> exists d :: d in e.batches[Least(e.batches.Keys)] && !HasHorizon(e.aufs, d)
  }

  lemma {:induction false} DrainKeeps(p: Params, e: Exec, bs: seq<CommittedSubDag>)
    requires Observed(p, e) && Accounted(e, bs) && CapsApplied(p, e)
    ensures var e' := Drain(p, e);
      Observed(p, e') && Accounted(e', bs) && CapsApplied(p, e') && Blocked(e') && e'.store == e.store
        && e'.frontier == e.frontier
    decreases |e.batches|
  {
    if e.batches != map[] {
      var index := Least(e.batches.Keys);
      if AllFrozen(e, e.batches[index]) {
        FewerBatches(e.batches, index);
        ReleaseKeepsObserved(p, e, index);
        ReleaseKeepsAccounted(p, e, bs);
        hide Observed, Accounted, BatchOrder;
        DrainKeeps(p, Release(p, e, index), bs);
      } else {
        LowestIsStored(e, bs);
      }
    }
  }

  lemma LowestIsStored(e: Exec, bs: seq<CommittedSubDag>)
    requires Accounted(e, bs) && e.batches != map[]
    ensures Elements(e.batches[Least(e.batches.Keys)]) <= e.store.Keys
  {
    LowestIsNext(e, bs);
    var b := bs[|e.released|];
    forall d | d in Members(b)
      ensures d in e.store
    {
      var i :| 0 <= i < |Members(b)| && Members(b)[i] == d;
      assert b.certificates[i] in b.certificates;
    }
  }

  // ---------------------------------------------------------------------
  // Receiving
  // ---------------------------------------------------------------------

  /** Batches without certificates are not kept. */
  function Listed(inputs: seq<CommittedSubDag>): seq<CommittedSubDag> {
    if inputs == [] then []
    else Listed(inputs[..|inputs| - 1]) + if inputs[|inputs| - 1].certificates == [] then [] else [inputs[|inputs| - 1]]
  }

  ghost predicate AboveAll(bs: seq<CommittedSubDag>, index: nat) {
    forall i :: 0 <= i < |bs| ==> bs[i].batchIndex < index
  }

  lemma StoredGrows(store: History, after: History, bs: seq<CommittedSubDag>, b: CommittedSubDag)
    requires Stored(store, bs) && StoresAll(store, b.certificates, after) && b.certificates != []
    ensures Stored(after, bs + [b])
  {
    hide Digests, Distinct;
    var all := bs + [b];
    forall j, d | 0 <= j < |bs| && d in Members(bs[j])
      ensures d in store && d !in Members(b)
    {
      MemberIsStored(store, bs, j, d);
      assert d in Members(b) ==> d in Elements(Members(b));
    }
    forall i, j, d | 0 <= i < |all| && 0 <= j < |all| && d in Members(all[i]) && d in Members(all[j])
      ensures i == j
    {
    }
  }

  lemma MemberIsStored(store: History, bs: seq<CommittedSubDag>, j: nat, d: Digest)
    requires Stored(store, bs) && j < |bs| && d in Members(bs[j])
    ensures d in store
  {
    var i :| 0 <= i < |Members(bs[j])| && Members(bs[j])[i] == d;
    assert bs[j].certificates[i] in bs[j].certificates;
  }

  lemma PendingGrows(e: Exec, e': Exec, bs: seq<CommittedSubDag>, b: CommittedSubDag, k: nat)
    requires Pending(e, bs, k) && k <= |bs| && AboveAll(bs, b.batchIndex)
    requires e'.batches == e.batches[b.batchIndex := Members(b)]
    requires e'.aufs.Keys == e.aufs.Keys + Elements(Members(b))
    ensures Pending(e', bs + [b], k)
  {
    hide Digests;
    var all := bs + [b];
    forall index | index in e'.batches
      ensures IndexPending(all, k, index)
    {
      if index == b.batchIndex {
        assert all[|bs|].batchIndex == index;
      } else {
        assert IndexPending(bs, k, index);
        var j :| k <= j < |bs| && bs[j].batchIndex == index;
        assert all[j].batchIndex == index;
      }
    }
    forall d
      ensures d in e'.aufs <==> MemberPending(all, k, d)
    {
      assert d in e.aufs <==> MemberPending(bs, k, d);
      if MemberPending(bs, k, d) {
        var j :| k <= j < |bs| && d in Members(bs[j]);
        assert d in Members(all[j]);
      }
      if d in Members(b) {
        assert d in Members(all[|bs|]);
      }
      if MemberPending(all, k, d) {
        var j :| k <= j < |all| && d in Members(all[j]);
        if j < |bs| {
          assert d in Members(bs[j]);
        }
      }
    }
  }

  lemma ReceiveAccounts(p: Params, e: Exec, added: Exec, bs: seq<CommittedSubDag>, b: CommittedSubDag)
    requires Accounted(e, bs) && AboveAll(bs, b.batchIndex) && b.certificates != []
    requires StoresAll(e.store, b.certificates, added.store) && added.released == e.released
    requires added.batches == e.batches
    requires added.aufs.Keys == e.aufs.Keys + Elements(Members(b))
    ensures Accounted(added.(batches := added.batches[b.batchIndex := Members(b)]), bs + [b])
  {
    StoredGrows(e.store, added.store, bs, b);
    hide StoresAll, Stored, IsPermutation, Members;
    var e' := added.(batches := added.batches[b.batchIndex := Members(b)]);
    PendingGrows(e, e', bs, b, |e.released|);
    hide Pending;
    var all := bs + [b];
    assert forall k :: 0 <= k < |bs| ==> all[k] == bs[k];
  }

  lemma ReceiveKeeps(p: Params, e: Exec, bs: seq<CommittedSubDag>, b: CommittedSubDag)
    requires Proper(p) && Observed(p, e) && Accounted(e, bs)
    requires AllAdmissible(e.store, b.certificates) && AboveAll(bs, b.batchIndex)
    ensures Observed(p, Received(p, e, b))
    ensures Accounted(Received(p, e, b), if b.certificates == [] then bs else bs + [b])
  {
    var xs := b.certificates;
    AddAllKeeps(p, e, xs);
    ExtendStores(e.store, xs);
    if xs != [] {
      hide AddAll, AllAdmissible, StoresAll, Extend, Accounted, Observed;
      ReceiveAccounts(p, e, AddAll(p, e, xs), bs, b);
      SameObserved(p, AddAll(p, e, xs), Received(p, e, b));
    }
  }

  lemma SameObserved(p: Params, e: Exec, e': Exec)
    requires Observed(p, e) && e'.store == e.store && e'.aufs == e.aufs && e'.frontier == e.frontier
    ensures Observed(p, e')
  {
    hide Descending, Tracked, SeenExactly, HorizonOk;
  }

  lemma CapKeepsAccounted(p: Params, e: Exec, bs: seq<CommittedSubDag>)
    requires Accounted(e, bs)
    ensures Accounted(CapAll(p, e), bs)
  {
    hide Stored, IsPermutation;
  }

  lemma DeliverKeeps(p: Params, e: Exec, bs: seq<CommittedSubDag>, b: CommittedSubDag)
    requires Proper(p) && Observed(p, e) && Accounted(e, bs)
    requires AllAdmissible(e.store, b.certificates) && AboveAll(bs, b.batchIndex)
    ensures var e' := Deliver(p, e, b);
      && Observed(p, e') && CapsApplied(p, e') && Blocked(e')
      && Accounted(e', if b.certificates == [] then bs else bs + [b])
      && e'.store == Extend(e.store, b.certificates)
  {
    var bs' := if b.certificates == [] then bs else bs + [b];
    var received := Received(p, e, b);
    ReceiveKeeps(p, e, bs, b);
    AddAllKeeps(p, e, b.certificates);
    CapKeepsObserved(p, received);
    CapKeepsAccounted(p, received, bs');
    assert CapsApplied(p, CapAll(p, received));
    hide Observed, Accounted, Blocked, CapsApplied, Drain;
    DrainKeeps(p, CapAll(p, received), bs');
  }

  // ---------------------------------------------------------------------
  // Whole runs
  // ---------------------------------------------------------------------

  /** What the executor is promised: batch indices increase, and every certificate is
      new when it arrives and mentioned by none that arrived before. */
  ghost predicate Legal(p: Params, inputs: seq<CommittedSubDag>) {
    forall n {:trigger LegalNext(p, inputs, n)} :: 0 <= n < |inputs| ==> LegalNext(p, inputs, n)
  }

  ghost predicate LegalNext(p: Params, inputs: seq<CommittedSubDag>, n: nat)
    requires n < |inputs|
  {
    && AboveAll(Listed(inputs[..n]), inputs[n].batchIndex)
    && AllAdmissible(Run(p, inputs[..n]).store, inputs[n].certificates)
  }

  lemma SameLegalNext(p: Params, bs: seq<CommittedSubDag>, n: nat, k: nat)
    requires k < n <= |bs|
    ensures LegalNext(p, bs[..n], k) == LegalNext(p, bs, k)
  {
    assert bs[..n][..k] == bs[..k];
  }

  lemma LegalPrefix(p: Params, inputs: seq<CommittedSubDag>, n: nat)
    requires Legal(p, inputs) && n <= |inputs|
    ensures Legal(p, inputs[..n])
  {
    hide LegalNext;
    forall k | 0 <= k < n
      ensures LegalNext(p, inputs[..n], k)
    {
      assert LegalNext(p, inputs, k);
      SameLegalNext(p, inputs, n, k);
    }
  }

  lemma RunUnfolds(p: Params, inputs: seq<CommittedSubDag>)
    requires Legal(p, inputs) && inputs != []
    ensures var n := |inputs| - 1;
      && Legal(p, inputs[..n]) && AboveAll(Listed(inputs[..n]), inputs[n].batchIndex)
      && AllAdmissible(Run(p, inputs[..n]).store, inputs[n].certificates)
      && Run(p, inputs) == Deliver(p, Run(p, inputs[..n]), inputs[n])
      && Listed(inputs) ==
        if inputs[n].certificates == [] then Listed(inputs[..n]) else Listed(inputs[..n]) + [inputs[n]]
  {
    hide AllAdmissible, Deliver, AboveAll;
    var n := |inputs| - 1;
    assert LegalNext(p, inputs, n);
    forall k | 0 <= k < n
      ensures LegalNext(p, inputs[..n], k)
    {
      assert LegalNext(p, inputs, k) && inputs[..n][..k] == inputs[..k];
    }
    assert Listed(inputs[..|inputs| - 1]) + [] == Listed(inputs[..|inputs| - 1]);
  }

  lemma {:induction false} RunKeeps(p: Params, inputs: seq<CommittedSubDag>)
    requires Proper(p) && Legal(p, inputs)
    ensures var e := Run(p, inputs);
      Observed(p, e) && Accounted(e, Listed(inputs)) && CapsApplied(p, e) && Blocked(e)
  {
    hide Observed, Accounted, Blocked, CapsApplied, AllAdmissible, AboveAll, Deliver;
    if inputs != [] {
      var n := |inputs| - 1;
      RunUnfolds(p, inputs);
      RunKeeps(p, inputs[..n]);
      hide Run, Listed, Legal;
      DeliverKeeps(p, Run(p, inputs[..n]), Listed(inputs[..n]), inputs[n]);
    } else {
      StartKeeps(p);
    }
  }

  lemma StartKeeps(p: Params)
    ensures Observed(p, START) && Accounted(START, []) && CapsApplied(p, START) && Blocked(START)
  {
  }

  /** What has been output, certificate by certificate. */
  function Outputs(slices: seq<Slice>): seq<Certificate> {
    if slices == [] then [] else Outputs(slices[..|slices| - 1]) + slices[|slices| - 1].order
  }

  /** Nothing is lost, duplicated or moved across batches: the output is a permutation,
      batch by batch, of the first batches received; the rest are still waiting. */
  lemma SliceLocalConservation(p: Params, inputs: seq<CommittedSubDag>)
    requires Proper(p) && Legal(p, inputs)
    ensures var e, bs := Run(p, inputs), Listed(inputs);
      && |e.released| <= |bs|
      && (forall k :: 0 <= k < |e.released| ==> IsPermutation(e.released[k], bs[k]))
      && (forall j :: |e.released| <= j < |bs| ==>
        bs[j].batchIndex in e.batches && e.batches[bs[j].batchIndex] == Members(bs[j]))
      && multiset(Outputs(e.released)) == multiset(Flatten(bs[..|e.released|]))
  {
    RunKeeps(p, inputs);
    var e, bs := Run(p, inputs), Listed(inputs);
    hide Observed, Stored, Increasing, Run, Listed;
    assert forall k :: 0 <= k < |e.released| ==> bs[..|e.released|][k] == bs[k];
    SlicesPermute(e.released, bs[..|e.released|]);
  }

  lemma {:induction false} SlicesPermute(slices: seq<Slice>, bs: seq<CommittedSubDag>)
    requires |slices| == |bs| && forall k :: 0 <= k < |bs| ==> IsPermutation(slices[k], bs[k])
    ensures multiset(Outputs(slices)) == multiset(Flatten(bs))
  {
    if bs != [] {
      var n := |bs| - 1;
      assert forall k :: 0 <= k < n ==> slices[..n][k] == slices[k] && bs[..n][k] == bs[k];
      SlicesPermute(slices[..n], bs[..n]);
    }
  }

  /** A waiting batch waits for a reason: after every input, the lowest one has a member
      that has not waited a full window and that no `reach` creators saw in one round. */
  lemma BoundedWaiting(p: Params, inputs: seq<CommittedSubDag>) returns (d: Digest)
    requires Proper(p) && Legal(p, inputs) && Run(p, inputs).batches != map[]
    ensures var e := Run(p, inputs);
      && d in e.batches[Least(e.batches.Keys)] && d in e.aufs
      && e.frontier < e.aufs[d].round + p.windowCap
      && forall r: Round :: |SeenAt(e.aufs[d], r)| < p.reach
  {
    RunKeeps(p, inputs);
    var e := Run(p, inputs);
    d :| d in e.batches[Least(e.batches.Keys)] && !HasHorizon(e.aufs, d);
    LowestIsNext(e, Listed(inputs));
    var k := |e.released|;
    assert MemberPending(Listed(inputs), k, d);
    assert d in e.aufs && HorizonOk(p, e.frontier, e.aufs[d]);
  }
}
