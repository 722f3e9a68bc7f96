/** Where each released slice of a run comes from: the state it was sorted in. */
module Releases {
  import opened Basics
  import opened Dag
  import opened Linearization
  import opened Visibility
  import opened Verdict
  import opened ExecutorRun
  import opened Conservation
  import opened Fairness
  import opened Ancestry

  /** Every AUF of `after` is one of `before`, unchanged. */
  ghost predicate Fewer(before: map<Digest, AufState>, after: map<Digest, AufState>) {
    forall d :: d in after ==> d in before && after[d] == before[d]
  }

  /** In state `e` the lowest batch is released next, and `s` is what comes of it. */
  ghost predicate ReleasesNext(p: Params, e: Exec, s: Slice) {
    e.batches != map[] &&
    var index := Least(e.batches.Keys);
    AllFrozen(e, e.batches[index]) && Release(p, e, index).released == e.released + [s]
  }

  /** `e` is a state in the middle of draining `from`, about to release the `k`-th slice. */
  ghost predicate Draining(p: Params, from: Exec, e: Exec, bs: seq<CommittedSubDag>, k: nat) {
    && Observed(p, e) && Accounted(e, bs) && |e.released| == k
    && e.store == from.store && e.frontier == from.frontier && Fewer(from.aufs, e.aufs)
  }

  lemma {:induction false} DrainAppends(p: Params, e: Exec)
    ensures e.released <= Drain(p, e).released
    decreases |e.batches|
  {
    hide BatchOrder;
    if e.batches != map[] && AllFrozen(e, e.batches[Least(e.batches.Keys)]) {
      FewerBatches(e.batches, Least(e.batches.Keys));
      DrainAppends(p, Release(p, e, Least(e.batches.Keys)));
    }
  }

  lemma {:induction false} DrainOrigin(p: Params, from: Exec, bs: seq<CommittedSubDag>, k: nat) returns (e: Exec)
    requires Observed(p, from) && Accounted(from, bs) && |from.released| <= k < |Drain(p, from).released|
    ensures Draining(p, from, e, bs, k) && ReleasesNext(p, e, Drain(p, from).released[k])
    decreases |from.batches|
  {
    hide BatchOrder, Observed, Accounted;
    var index := Least(from.batches.Keys);
    var next := Release(p, from, index);
    FewerBatches(from.batches, index);
    ReleaseKeepsObserved(p, from, index);
    ReleaseKeepsAccounted(p, from, bs);
    DrainAppends(p, next);
    if |from.released| == k {
      e := from;
      assert next.released[k] == Drain(p, from).released[k];
    } else {
      e := DrainOrigin(p, next, bs, k);
    }
  }

  /** The state in which the `n`-th input is about to be drained. */
  ghost function Undrained(p: Params, inputs: seq<CommittedSubDag>, n: nat): Exec
    requires n < |inputs|
  {
    CapAll(p, Received(p, Run(p, inputs[..n]), inputs[n]))
  }

  /** What draining after the `n`-th input starts from. */
  lemma UndrainedKeeps(p: Params, inputs: seq<CommittedSubDag>, n: nat)
    requires Proper(p) && Legal(p, inputs) && n < |inputs|
    ensures Observed(p, Undrained(p, inputs, n)) && Accounted(Undrained(p, inputs, n), Listed(inputs[..n + 1]))
    ensures Run(p, inputs[..n + 1]) == Drain(p, Undrained(p, inputs, n))
    ensures Undrained(p, inputs, n).released == Run(p, inputs[..n]).released
  {
    hide Observed, Accounted, Drain, Received, Legal;
    LegalPrefix(p, inputs, n + 1);
    RunUnfolds(p, inputs[..n + 1]);
    assert inputs[..n + 1][..n] == inputs[..n];
    RunKeeps(p, inputs[..n]);
    var e := Run(p, inputs[..n]);
    ReceiveKeeps(p, e, Listed(inputs[..n]), inputs[n]);
    var received := Received(p, e, inputs[n]);
    CapKeepsObserved(p, received);
    CapKeepsAccounted(p, received, Listed(inputs[..n + 1]));
    ReceivedReleases(p, e, inputs[n]);
  }

  lemma ReceivedReleases(p: Params, e: Exec, b: CommittedSubDag)
    requires Proper(p) && Observed(p, e) && AllAdmissible(e.store, b.certificates)
    ensures Received(p, e, b).released == e.released
  {
    hide Observed, AllAdmissible;
    AddAllKeeps(p, e, b.certificates);
  }

  /** Every slice of every run was released in a state of that run. */
  lemma {:induction false} SliceOrigin(p: Params, inputs: seq<CommittedSubDag>, k: nat) returns (n: nat, e: Exec)
    requires Proper(p) && Legal(p, inputs) && k < |Run(p, inputs).released|
    ensures n < |inputs| && Draining(p, Undrained(p, inputs, n), e, Listed(inputs[..n + 1]), k)
    ensures ReleasesNext(p, e, Run(p, inputs).released[k])
    decreases |inputs|
  {
    hide Observed, Accounted, Drain, Legal, Draining, ReleasesNext, Listed, Undrained;
    if inputs == [] {
      assert false;
    }
    n := |inputs| - 1;
    assert inputs[..n + 1] == inputs;
    UndrainedKeeps(p, inputs, n);
    var from := Undrained(p, inputs, n);
    if k < |from.released| {
      LegalPrefix(p, inputs, n);
      DrainAppends(p, from);
      var m;
      m, e := SliceOrigin(p, inputs[..n], k);
      SameUndrained(p, inputs, n, m);
      n := m;
    } else {
      e := DrainOrigin(p, from, Listed(inputs), k);
    }
  }

  lemma SameUndrained(p: Params, inputs: seq<CommittedSubDag>, n: nat, m: nat)
    requires m < n <= |inputs|
    ensures Undrained(p, inputs[..n], m) == Undrained(p, inputs, m) && inputs[..n][..m + 1] == inputs[..m + 1]
  {
    assert inputs[..n][..m] == inputs[..m];
  }

  // ---------------------------------------------------------------------
  // What was decided before a release
  // ---------------------------------------------------------------------

  /** Only the cap gives a horizon to an AUF that is not mature. */
  ghost predicate NoneCapped(aufs: map<Digest, AufState>) {
    forall d :: d in aufs && aufs[d].horizon.Some? ==> aufs[d].mature
  }

  lemma {:induction false} AddAllCapsNone(p: Params, e: Exec, xs: seq<Certificate>)
    requires NoneCapped(e.aufs)
    ensures NoneCapped(AddAll(p, e, xs).aufs)
  {
    hide Sees;
    if xs != [] {
      AddAllCapsNone(p, e, xs[..|xs| - 1]);
    }
  }

  /** The store only grows by the batch. */
  lemma UndrainedStore(p: Params, inputs: seq<CommittedSubDag>, n: nat)
    requires Proper(p) && Legal(p, inputs) && n < |inputs|
    ensures var before, xs := Run(p, inputs[..n]), inputs[n].certificates;
      && Undrained(p, inputs, n).store == Extend(before.store, xs)
      && StoresAll(before.store, xs, Undrained(p, inputs, n).store)
      && Undrained(p, inputs, n).store == Run(p, inputs[..n + 1]).store
      && HorizonsStay(before, Undrained(p, inputs, n)) && HorizonsStay(Undrained(p, inputs, n), Run(p, inputs[..n + 1]))
  {
    hide Observed, Accounted, Drain, Legal, StoresAll, AddAll, Extend, AllAdmissible, HorizonsStay;
    var before, xs := Run(p, inputs[..n]), inputs[n].certificates;
    UndrainedKeeps(p, inputs, n);
    LegalPrefix(p, inputs, n);
    RunKeeps(p, inputs[..n]);
    assert LegalNext(p, inputs, n) by {
      LegalMeans(p, inputs, n);
    }
    AddAllKeeps(p, before, xs);
    ExtendStores(before.store, xs);
    DrainOnlyRemoves(p, Undrained(p, inputs, n));
    ReceiveKeepsHorizons(p, before, inputs[n]);
    CapKeepsHorizons(p, Received(p, before, inputs[n]));
    StoredAufs(p, before, inputs[..n]);
    HorizonsStayOn(before, Received(p, before, inputs[n]), Undrained(p, inputs, n));
    DrainStays(p, Undrained(p, inputs, n));
  }

  lemma LegalMeans(p: Params, inputs: seq<CommittedSubDag>, n: nat)
    requires Legal(p, inputs) && n < |inputs|
    ensures LegalNext(p, inputs, n)
  {
  }

  /** A horizon set by the end of the `m`-th input is the one a later release sees. */
  lemma FrozenUntilRelease(p: Params, inputs: seq<CommittedSubDag>, m: nat, n: nat, e: Exec,
      bs: seq<CommittedSubDag>, k: nat)
    requires Proper(p) && Legal(p, inputs) && m <= n < |inputs| && Draining(p, Undrained(p, inputs, n), e, bs, k)
    ensures HorizonsStay(Undrained(p, inputs, m), e)
  {
    hide Observed, Accounted, Drain, Legal, StoresAll, Extend, HorizonsStay, Undrained, Run;
    var u, v := Undrained(p, inputs, m), Undrained(p, inputs, n);
    FewerStays(v, e);
    if m < n {
      UndrainedStore(p, inputs, m);
      UndrainedStore(p, inputs, n);
      HorizonSetOnce(p, inputs, m + 1, n);
      UndrainedAufs(p, inputs, m);
      HorizonsStayOn(u, Run(p, inputs[..m + 1]), Run(p, inputs[..n]));
      HorizonsStayOn(u, Run(p, inputs[..n]), v);
      HorizonsStayOn(u, v, e);
    }
  }

  lemma UndrainedAufs(p: Params, inputs: seq<CommittedSubDag>, n: nat)
    requires Proper(p) && Legal(p, inputs) && n < |inputs|
    ensures Undrained(p, inputs, n).aufs.Keys <= Undrained(p, inputs, n).store.Keys
  {
    hide Legal, SeenExactly, HorizonsOk, Descending, Undrained, Accounted;
    UndrainedKeeps(p, inputs, n);
  }

  lemma FewerStays(v: Exec, e: Exec)
    requires Fewer(v.aufs, e.aufs) && e.store == v.store
    ensures HorizonsStay(v, e)
  {
  }

  /** A released slice lists the order of its batch in that state. */
  lemma SliceOrder(p: Params, e: Exec, bs: seq<CommittedSubDag>, s: Slice)
    requires Observed(p, e) && Accounted(e, bs) && ReleasesNext(p, e, s)
    ensures |e.released| < |bs| && s.index == bs[|e.released|].batchIndex
    ensures var members := Elements(Members(bs[|e.released|]));
      && members <= e.store.Keys && members <= e.aufs.Keys
      && Digests(s.order) == BatchOrder(e.store, e.aufs, p.delta, members)
  {
    hide BatchOrder, Accounted, Descending, Tracked, SeenExactly, HorizonsOk, Digests, Lookup;
    LowestIsNext(e, bs);
    var index := Least(e.batches.Keys);
    var members := Elements(e.batches[index]);
    BatchOrderProperties(e.store, e.aufs, p.delta, members);
    LookupDigests(e.store, BatchOrder(e.store, e.aufs, p.delta, members));
    assert (e.released + [s])[|e.released|] == s;
  }

  lemma LookupDigests(store: History, order: seq<Digest>)
    requires Elements(order) <= store.Keys && forall d :: d in store ==> store[d].digest == d
    ensures Digests(Lookup(store, order)) == order
  {
    assert forall i :: 0 <= i < |order| ==> order[i] in Elements(order);
  }

  /** In every run and every slice of it, a certificate released without having matured
      follows another of its batch exactly when it is tie-broken after every component
      that has to come before the other. */
  lemma ImmatureFollowsInRuns(p: Params, inputs: seq<CommittedSubDag>, k: nat, a: Digest, b: Digest)
    returns (n: nat, e: Exec, members: set<Digest>)
    requires Proper(p) && Legal(p, inputs) && k < |Run(p, inputs).released|
    requires k < |Listed(inputs)| && a in Members(Listed(inputs)[k]) && b in Members(Listed(inputs)[k]) && a != b
    ensures n < |inputs| && Draining(p, Undrained(p, inputs, n), e, Listed(inputs[..n + 1]), k)
    ensures members == Elements(Members(Listed(inputs)[k])) && members <= e.store.Keys && members <= e.aufs.Keys
    ensures !e.aufs[b].mature ==>
      (Before(Digests(Run(p, inputs).released[k].order), a, b) <==>
       AllKeysLess(e.store, VerdictGraph(e.aufs, p.delta, members), members, a, b))
  {
    hide Observed, Accounted, Legal, Undrained, BatchOrder, Digests, Before, AllKeysLess, VerdictGraph, ReleasesNext;
    n, e := SliceOrigin(p, inputs, k);
    SliceOrder(p, e, Listed(inputs[..n + 1]), Run(p, inputs).released[k]);
    ListedPrefix(inputs, n + 1);
    members := Elements(Members(Listed(inputs)[k]));
    assert Listed(inputs[..n + 1])[k] == Listed(inputs)[k];
    if !e.aufs[b].mature {
      ImmatureFollows(e.store, e.aufs, p.delta, members, a, b);
    }
  }

  // ---------------------------------------------------------------------
  // Runs over complete inputs
  // ---------------------------------------------------------------------

  /** The authors of the parents of `x` among `xs`, one round below. */
  ghost function ParentsAmong(xs: seq<Certificate>, x: Certificate): set<PublicKey> {
    set y | y in xs && y.digest in x.parents && y.round + 1 == x.round :: y.origin
  }

  /** Above `base` every input names all but `f` creators among the inputs, and no creator
      has two certificates in a round. */
  ghost predicate FullInputs(xs: seq<Certificate>, creators: set<PublicKey>, f: nat, base: Round) {
    && |creators| > f
    && (forall x :: x in xs ==> x.origin in creators)
    && (forall x, y :: x in xs && y in xs ==> x.origin == y.origin && x.round == y.round ==> x.digest == y.digest)
    && (forall x {:trigger ParentsAmong(xs, x)} :: x in xs && x.round > base ==>
      |ParentsAmong(xs, x)| + f >= |creators|)
  }

  /** The store holds the inputs and nothing else. */
  ghost predicate StoreIs(store: History, xs: seq<Certificate>) {
    && (forall x :: x in xs ==> x.digest in store && store[x.digest] == x)
    && (forall d :: d in store ==> store[d] in xs && store[d].digest == d)
  }

  lemma {:induction false} RunStore(p: Params, inputs: seq<CommittedSubDag>)
    requires Proper(p) && Legal(p, inputs)
    ensures StoreIs(Run(p, inputs).store, Flatten(inputs))
    decreases |inputs|
  {
    hide Legal, Undrained, HorizonsStay, Deliver, StoreIs, StoresAll, Extend;
    if inputs == [] {
      StoreIsEmpty();
    } else {
      var n := |inputs| - 1;
      LegalPrefix(p, inputs, n);
      RunStore(p, inputs[..n]);
      UndrainedStore(p, inputs, n);
      assert inputs[..n + 1] == inputs;
      StoreGrows(Run(p, inputs[..n]).store, Flatten(inputs[..n]), inputs[n].certificates, Run(p, inputs).store);
    }
  }

  lemma StoreIsEmpty()
    ensures StoreIs(map[], [])
  {
  }

  lemma StoreGrows(store: History, xs: seq<Certificate>, ys: seq<Certificate>, after: History)
    requires StoreIs(store, xs) && StoresAll(store, ys, after)
    ensures StoreIs(after, xs + ys)
  {
    hide Distinct;
    forall d | d in after && d !in store
      ensures after[d] in ys && after[d].digest == d
    {
      assert d in Elements(Digests(ys));
      var i :| 0 <= i < |ys| && Digests(ys)[i] == d;
      assert ys[i] in ys;
    }
  }

  /** No parent among the inputs arrives after its child. */
  lemma {:induction false} ParentsArrive(p: Params, inputs: seq<CommittedSubDag>, n: nat, x: Certificate,
      y: Certificate)
    requires Proper(p) && Legal(p, inputs) && n <= |inputs|
    requires x in Flatten(inputs[..n]) && y in Flatten(inputs) && y.digest in x.parents
    ensures y in Flatten(inputs[..n])
    decreases |inputs|
  {
    hide Legal, AllAdmissible, StoreIs;
    if n < |inputs| {
      var m := |inputs| - 1;
      LegalPrefix(p, inputs, m);
      assert inputs[..m][..n] == inputs[..n];
      if y in Flatten(inputs[..m]) {
        ParentsArrive(p, inputs[..m], n, x, y);
      } else {
        LegalMeans(p, inputs, m);
        RunStore(p, inputs[..m]);
        FlattenLonger(inputs[..m], n, x);
        var i :| 0 <= i < |inputs[m].certificates| && inputs[m].certificates[i] == y;
        NotAParent(Run(p, inputs[..m]).store, Flatten(inputs[..m]), inputs[m].certificates, i, x);
        assert false;
      }
    } else {
      assert inputs[..n] == inputs;
    }
  }

  lemma {:induction false} FlattenLonger(inputs: seq<CommittedSubDag>, n: nat, x: Certificate)
    requires n <= |inputs| && x in Flatten(inputs[..n])
    ensures x in Flatten(inputs)
    decreases |inputs|
  {
    if n < |inputs| {
      assert inputs[..|inputs| - 1][..n] == inputs[..n];
      FlattenLonger(inputs[..|inputs| - 1], n, x);
    } else {
      assert inputs[..n] == inputs;
    }
  }

  /** What arrives is not named by what is stored. */
  lemma NotAParent(store: History, xs: seq<Certificate>, ys: seq<Certificate>, i: nat, x: Certificate)
    requires StoreIs(store, xs) && AllAdmissible(store, ys) && x in xs && i < |ys|
    ensures ys[i].digest !in x.parents
  {
    hide StoresAll, Extend;
    assert AdmissibleNext(store, ys, i);
    PrefixStores(store, ys, i);
  }

  lemma PrefixStores(store: History, ys: seq<Certificate>, i: nat)
    requires AllAdmissible(store, ys) && i <= |ys|
    ensures forall d :: d in store ==> d in Extend(store, ys[..i]) && Extend(store, ys[..i])[d] == store[d]
  {
    hide Admissible, Extend;
    forall k | 0 <= k < i
      ensures AdmissibleNext(store, ys[..i], k)
    {
      assert AdmissibleNext(store, ys, k) && ys[..i][..k] == ys[..k];
    }
    ExtendStores(store, ys[..i]);
  }

  /** Then the store is complete after every input. */
  lemma RunIsComplete(p: Params, inputs: seq<CommittedSubDag>, n: nat, creators: set<PublicKey>, f: nat, base: Round)
    requires Proper(p) && Legal(p, inputs) && n <= |inputs| && FullInputs(Flatten(inputs), creators, f, base)
    ensures Complete(Run(p, inputs[..n]).store, creators, f, base)
  {
    hide Legal, ParentsAmong, ParentCreators, Run, Flatten;
    var store, xs := Run(p, inputs[..n]).store, Flatten(inputs);
    LegalPrefix(p, inputs, n);
    RunStore(p, inputs[..n]);
    forall x | x in Flatten(inputs[..n])
      ensures x in xs
    {
      FlattenLonger(inputs, n, x);
    }
    forall d | d in store && store[d].round > base
      ensures |ParentCreators(store, d)| + f >= |creators|
    {
      StoredParents(p, inputs, n, store[d]);
      SubsetSize(ParentsAmong(xs, store[d]), ParentCreators(store, d));
    }
  }

  lemma StoredParents(p: Params, inputs: seq<CommittedSubDag>, n: nat, x: Certificate)
    requires Proper(p) && Legal(p, inputs) && n <= |inputs|
    requires x in Flatten(inputs[..n]) && StoreIs(Run(p, inputs[..n]).store, Flatten(inputs[..n]))
    ensures ParentsAmong(Flatten(inputs), x) <= ParentCreators(Run(p, inputs[..n]).store, x.digest)
  {
    hide Legal, Run, Flatten;
    forall y | y in Flatten(inputs) && y.digest in x.parents && y.round + 1 == x.round
      ensures y.digest in Run(p, inputs[..n]).store && Run(p, inputs[..n]).store[y.digest] == y
    {
      ParentsArrive(p, inputs, n, x, y);
    }
  }

  /** In every slice of every run over complete inputs, a mature certificate follows each of
      its ancestors. */
  lemma MatureFollowsInRuns(p: Params, inputs: seq<CommittedSubDag>, k: nat, a: Digest, b: Digest,
      creators: set<PublicKey>, f: nat, base: Round)
    returns (n: nat, e: Exec)
    requires Proper(p) && Legal(p, inputs) && k < |Run(p, inputs).released|
    requires p.reach == 2 * f + 1 && p.delta == f + 1 && FullInputs(Flatten(inputs), creators, f, base)
    requires k < |Listed(inputs)| && forall x :: x in Listed(inputs)[k].certificates ==> x.round >= base
    requires a in Members(Listed(inputs)[k]) && b in Members(Listed(inputs)[k]) && a != b
    ensures n < |inputs| && Draining(p, Undrained(p, inputs, n), e, Listed(inputs[..n + 1]), k)
    ensures a in e.aufs && b in e.aufs
    ensures e.aufs[b].mature && Sees(e.store, b, a) ==> Before(Digests(Run(p, inputs).released[k].order), a, b)
  {
    hide Observed, Accounted, Legal, Undrained, BatchOrder, Digests, Before, ReleasesNext, Complete, FullInputs;
    hide Sees, Flatten;
    n, e := SliceOrigin(p, inputs, k);
    SliceOrder(p, e, Listed(inputs[..n + 1]), Run(p, inputs).released[k]);
    ListedPrefix(inputs, n + 1);
    var members := Elements(Members(Listed(inputs)[k]));
    assert Listed(inputs[..n + 1])[k] == Listed(inputs)[k];
    if e.aufs[b].mature && Sees(e.store, b, a) {
      UndrainedStore(p, inputs, n);
      RunIsComplete(p, inputs, n + 1, creators, f, base);
      MembersAbove(p, e, Listed(inputs[..n + 1]), k, base);
      MatureFollowsAncestors(p, e, creators, f, base, members, a, b);
    }
  }

  lemma MembersAbove(p: Params, e: Exec, bs: seq<CommittedSubDag>, k: nat, base: Round)
    requires Observed(p, e) && Accounted(e, bs) && k < |bs|
    requires forall x :: x in bs[k].certificates ==> x.round >= base
    ensures forall d :: d in Members(bs[k]) && d in e.aufs ==> e.aufs[d].round >= base
  {
    hide SeenExactly, HorizonsOk, Descending, Pending;
    forall d | d in Members(bs[k]) && d in e.aufs
      ensures e.aufs[d].round >= base
    {
      var i :| 0 <= i < |bs[k].certificates| && Members(bs[k])[i] == d;
      assert bs[k].certificates[i] in bs[k].certificates;
    }
  }

  lemma {:induction false} ListedPrefix(inputs: seq<CommittedSubDag>, n: nat)
    requires n <= |inputs|
    ensures Listed(inputs[..n]) <= Listed(inputs)
    decreases |inputs|
  {
    if n < |inputs| {
      var init := inputs[..|inputs| - 1];
      ListedPrefix(init, n);
      assert init[..n] == inputs[..n];
    } else {
      assert inputs[..n] == inputs;
    }
  }
}
