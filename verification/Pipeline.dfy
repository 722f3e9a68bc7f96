/** Consensus feeding the executor: what one guarantees is what the other asks for. */
module Pipeline {
  import opened Basics
  import opened Config
  import opened Dag
  import opened Consensus
  import opened ExecutorRun
  import opened Conservation

  lemma {:induction false} ExtendConcat(store: History, xs: seq<Certificate>, ys: seq<Certificate>)
    ensures Extend(store, xs + ys) == Extend(Extend(store, xs), ys)
  {
    if ys == [] {
      assert xs + ys == xs;
    } else {
      var n := |ys| - 1;
      var zs := xs + ys;
      assert zs[..|zs| - 1] == xs + ys[..n] && zs[|zs| - 1] == ys[n];
      ExtendConcat(store, xs, ys[..n]);
    }
  }

  /** Where every digest of a listing comes from. */
  lemma {:induction false} ExtendOrigin(xs: seq<Certificate>, d: Digest) returns (j: nat)
    requires d in Extend(map[], xs)
    ensures j < |xs| && xs[j].digest == d && Extend(map[], xs)[d] == xs[j]
  {
    var n := |xs| - 1;
    if xs[n].digest == d {
      j := n;
    } else {
      j := ExtendOrigin(xs[..n], d);
    }
  }

  lemma AdmissibleTail(xs: seq<Certificate>, ys: seq<Certificate>)
    requires AllAdmissible(map[], xs + ys)
    ensures AllAdmissible(map[], xs) && AllAdmissible(Extend(map[], xs), ys)
  {
    hide Admissible, Extend;
    var all := xs + ys;
    forall i | 0 <= i < |xs|
      ensures AdmissibleNext(map[], xs, i)
    {
      assert AdmissibleNext(map[], all, i);
      assert all[..i] == xs[..i] && all[i] == xs[i];
    }
    forall i | 0 <= i < |ys|
      ensures AdmissibleNext(Extend(map[], xs), ys, i)
    {
      assert AdmissibleNext(map[], all, |xs| + i);
      ExtendConcat(map[], xs, ys[..i]);
      assert all[..|xs| + i] == xs + ys[..i] && all[|xs| + i] == ys[i];
    }
  }

  /** The sequence of committed certificates is admissible from its first element on. */
  lemma CommittedIsAdmissible(a: Consensus)
    requires a.Valid() && a.Clean()
    ensures AllAdmissible(map[], Flatten(a.output))
  {
    NoDoubleCommit(a);
    var out, h := Flatten(a.output), a.history;
    CommittedIsKnown(a);
    forall i | 0 <= i < |out|
      ensures AdmissibleNext(map[], out, i)
    {
      hide Extend, Flatten;
      AdmissibleAt(h, a.committee, out, i);
    }
  }

  lemma CommittedIsKnown(a: Consensus)
    requires a.Valid() && a.Clean()
    ensures WellFormed(a.history, a.committee)
    ensures forall x :: x in Flatten(a.output) ==> Known(a.history, x) && x.round > 0
  {
  }

  lemma AdmissibleAt(h: History, c: Committee, out: seq<Certificate>, i: nat)
    requires WellFormed(h, c) && i < |out|
    requires Distinct(out) && forall x :: x in out ==> Known(h, x) && x.round > 0
    requires forall j, k :: 0 <= j <= k < |out| ==> out[k].digest !in out[j].parents
    ensures Admissible(Extend(map[], out[..i]), out[i])
  {
    hide Extend;
    var store := Extend(map[], out[..i]);
    var x := out[i];
    assert x in out;
    forall d | d in store
      ensures d != x.digest && x.digest !in store[d].parents && (d in x.parents ==> store[d].round < x.round)
    {
      var j := ExtendOrigin(out[..i], d);
      assert out[j] in out && store[d] == out[j];
      assert h[d] == out[j] && h[x.digest] == x;
      assert WellParented(h, c, h[x.digest]);
    }
  }

  /** The batches a node commits meet every condition the executor puts on its input. */
  lemma ConsensusFeedsExecutor(a: Consensus, p: Params)
    requires a.Valid() && a.Clean() && Proper(p)
    ensures Legal(p, a.output) && Listed(a.output) == a.output
  {
    CommittedIsAdmissible(a);
    BatchesNumbered(a);
    PrefixesLegal(p, a.output);
  }

  lemma {:induction false} PrefixesLegal(p: Params, bs: seq<CommittedSubDag>)
    requires Proper(p) && AllAdmissible(map[], Flatten(bs))
    requires forall i :: 0 <= i < |bs| ==> bs[i].batchIndex == i + 1 && bs[i].certificates != []
    ensures Legal(p, bs) && Listed(bs) == bs && Run(p, bs).store == Extend(map[], Flatten(bs))
  {
    hide AllAdmissible, Extend, Deliver;
    if bs != [] {
      var n := |bs| - 1;
      var init, last := bs[..n], bs[n];
      AdmissibleTail(Flatten(init), last.certificates);
      PrefixesLegal(p, init);
      LegalSnoc(p, bs);
      RunStores(p, init, last);
      ExtendConcat(map[], Flatten(init), last.certificates);
      assert bs == init + [last];
    } else {
      assert Extend(map[], Flatten(bs)) == map[] by {
        NothingExtends();
      }
    }
  }

  lemma LegalSnoc(p: Params, bs: seq<CommittedSubDag>)
    requires bs != [] && Legal(p, bs[..|bs| - 1]) && LegalNext(p, bs, |bs| - 1)
    ensures Legal(p, bs)
  {
    hide LegalNext;
    var init := bs[..|bs| - 1];
    forall k | 0 <= k < |init|
      ensures LegalNext(p, bs, k)
    {
      assert LegalNext(p, init, k);
      SameLegalNext(p, bs, |init|, k);
    }
  }

  lemma RunStores(p: Params, init: seq<CommittedSubDag>, last: CommittedSubDag)
    requires Proper(p) && Legal(p, init) && AboveAll(Listed(init), last.batchIndex)
    requires AllAdmissible(Run(p, init).store, last.certificates)
    ensures Deliver(p, Run(p, init), last).store == Extend(Run(p, init).store, last.certificates)
  {
    hide AllAdmissible, Extend, Deliver, Run, Legal, Listed, Observed, Accounted;
    RunKeeps(p, init);
    DeliverKeeps(p, Run(p, init), Listed(init), last);
  }

  lemma NothingExtends()
    ensures Extend(map[], []) == map[]
  {
  }

  /** End to end: the executor outputs what consensus committed, batch by batch, each
      batch reordered within itself only, and nothing twice. */
  lemma ExecutesWhatWasCommitted(a: Consensus, p: Params)
    requires a.Valid() && a.Clean() && Proper(p)
    ensures var e := Run(p, a.output);
      && |e.released| <= |a.output|
      && (forall k :: 0 <= k < |e.released| ==> IsPermutation(e.released[k], a.output[k]))
      && Distinct(Outputs(e.released))
      && multiset(Outputs(e.released)) == multiset(Flatten(a.output[..|e.released|]))
  {
    ConsensusFeedsExecutor(a, p);
    NoDoubleCommit(a);
    ExecutesInOrder(p, a.output);
  }

  lemma ExecutesInOrder(p: Params, bs: seq<CommittedSubDag>)
    requires Proper(p) && Legal(p, bs) && Listed(bs) == bs && Distinct(Flatten(bs))
    ensures var e := Run(p, bs);
      && |e.released| <= |bs|
      && (forall k :: 0 <= k < |e.released| ==> IsPermutation(e.released[k], bs[k]))
      && Distinct(Outputs(e.released))
      && multiset(Outputs(e.released)) == multiset(Flatten(bs[..|e.released|]))
  {
    SliceLocalConservation(p, bs);
    var released := Run(p, bs).released;
    hide Run, Legal, Listed;
    FlattenPrefix(bs, |released|);
    var prefix := Flatten(bs[..|released|]);
    assert forall i :: 0 <= i < |prefix| ==> prefix[i] == Flatten(bs)[i];
    MultisetDistinct(prefix, Outputs(released));
  }

  lemma {:induction false} FlattenPrefix(bs: seq<CommittedSubDag>, n: nat)
    requires n <= |bs|
    ensures Flatten(bs[..n]) <= Flatten(bs)
    decreases |bs|
  {
    if n < |bs| {
      FlattenPrefix(bs[..|bs| - 1], n);
      assert bs[..|bs| - 1][..n] == bs[..n];
    } else {
      assert bs[..n] == bs;
    }
  }
}
