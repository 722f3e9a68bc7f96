/** What every committed batch keeps about the state and the output: no double
    commit, ancestors first, and an uncommitted frontier that is never pruned. */
module Ledger {
  import opened Basics
  import opened Config
  import opened Dag
  import opened TuskState
  import opened SubDag

  /** The delivered certificates contain the history of each of them. */
  ghost predicate Closed(h: History, delivered: set<Digest>) {
    delivered <= h.Keys && forall d, p :: d in delivered && p in h[d].parents ==> p in delivered
  }

  /** The in-memory DAG holds delivered certificates only, each at its place. */
  ghost predicate Faithful(h: History, delivered: set<Digest>, v: View) {
    forall r: Round, name: PublicKey :: Has(v.dag, r, name) ==>
      v.dag[r][name].round == r && v.dag[r][name].origin == name
      && v.dag[r][name].digest in delivered && Known(h, v.dag[r][name])
  }

  /** Nothing above the last committed round was ever pruned. */
  ghost predicate FrontierKept(h: History, delivered: set<Digest>, v: View) {
    forall d :: d in delivered && d in h && h[d].round > v.lastCommittedRound ==> Holds(v.dag, h[d])
  }

  /** Inside the retained window, and not below its author's last committed round. */
  predicate Recent(v: View, x: Certificate, gcDepth: Round) {
    && v.lastCommittedRound <= x.round + gcDepth
    && (x.origin in v.lastCommitted ==> v.lastCommitted[x.origin] <= x.round)
  }

  /** Nothing recent was ever pruned. */
  ghost predicate Remembers(h: History, delivered: set<Digest>, v: View, gcDepth: Round) {
    forall d :: d in delivered && d in h && Recent(v, h[d], gcDepth) ==> Holds(v.dag, h[d])
  }

  ghost predicate RoundsBounded(v: View) {
    && (forall name :: name in v.lastCommitted ==> v.lastCommitted[name] <= v.lastCommittedRound)
    && (IsMaximum(v.lastCommitted, v.lastCommittedRound) || v.lastCommittedRound == 0)
  }

  ghost predicate IsCommitted(h: History, delivered: set<Digest>, v: View, x: Certificate) {
    && Known(h, x) && x.digest in delivered && x.round > 0
    && x.origin in v.lastCommitted && x.round <= v.lastCommitted[x.origin]
  }

  /** Too old to be output again: the retention step drops it from every batch. */
  predicate Outdated(v: View, x: Certificate, gcDepth: Round) {
    x.round + gcDepth < v.lastCommittedRound
  }

  /** The output has no repetition; a committed (or genesis) certificate that is
      still in memory sits exactly at its author's last committed round, or is too old. */
  ghost predicate NoRepeats(h: History, delivered: set<Digest>, v: View, out: seq<Certificate>, gcDepth: Round) {
    && Distinct(out)
    && (forall x :: x in out ==> IsCommitted(h, delivered, v, x))
    && (forall name :: name in v.lastCommitted ==>
      v.lastCommitted[name] == 0 || CommittedAt(out, name, v.lastCommitted[name]))
    && (forall x :: Holds(v.dag, x) && (x in out || x.round == 0) ==> Skipped(v, x) || Outdated(v, x, gcDepth))
  }

  ghost predicate CommittedAt(out: seq<Certificate>, name: PublicKey, r: Round) {
    exists x :: x in out && x.origin == name && x.round == r
  }

  /** A parent of a committed certificate was output before it, or is genesis,
      or is gone for good. */
  ghost predicate ParentsFirst(h: History, v: View, out: seq<Certificate>, gcDepth: Round) {
    forall i, p :: 0 <= i < |out| && p in out[i].parents && p in h ==> ParentSettled(v, out, i, h[p], gcDepth)
  }

  ghost predicate ParentSettled(v: View, out: seq<Certificate>, i: nat, parent: Certificate, gcDepth: Round)
    requires i <= |out|
  {
    || parent.round == 0 || parent in out[..i]
    || (parent !in out && (!Holds(v.dag, parent) || Outdated(v, parent, gcDepth)))
  }

  /** What every node keeps about its memory, whatever it is delivered. */
  ghost predicate ViewSound(h: History, delivered: set<Digest>, v: View) {
    Closed(h, delivered) && Faithful(h, delivered, v) && FrontierKept(h, delivered, v) && RoundsBounded(v)
  }

  /** What a node keeps about its output as long as nothing harmful comes back. */
  ghost predicate OutputSound(h: History, delivered: set<Digest>, v: View, out: seq<Certificate>, gcDepth: Round) {
    NoRepeats(h, delivered, v, out, gcDepth) && ParentsFirst(h, v, out, gcDepth)
  }

  lemma ViewIsKeyed(h: History, c: Committee, delivered: set<Digest>, v: View)
    requires WellFormed(h, c) && ViewSound(h, delivered, v)
    ensures Keyed(v.dag) && Closed(h, delivered) && Faithful(h, delivered, v) && FrontierKept(h, delivered, v)
    ensures IsMaximum(v.lastCommitted, v.lastCommittedRound) || v.lastCommittedRound == 0
  {
  }

  /** A batch about to be committed by `leader`. */
  ghost predicate Batch(h: History, delivered: set<Digest>, v: View, leader: Certificate, gcDepth: Round,
      xs: seq<Certificate>) {
    && Known(h, leader) && leader.digest in delivered && leader.round > v.lastCommittedRound
    && Flattened(v, leader, gcDepth, xs)
  }

  lemma BatchMember(h: History, delivered: set<Digest>, v: View, leader: Certificate, gcDepth: Round,
      xs: seq<Certificate>, x: Certificate)
    requires ViewSound(h, delivered, v) && Batch(h, delivered, v, leader, gcDepth, xs) && x in xs
    ensures Known(h, x) && x.digest in delivered && Holds(v.dag, x) && !Skipped(v, x) && !Outdated(v, x, gcDepth)
    ensures x.round <= leader.round && (x.round == leader.round ==> x == leader)
  {
    hide Flows, Closed;
    FlowsRound(v, leader, x);
  }

  /** No member of the batch was output before, and none is genesis. */
  lemma BatchIsNew(h: History, delivered: set<Digest>, v: View, out: seq<Certificate>, leader: Certificate,
      gcDepth: Round, xs: seq<Certificate>, x: Certificate)
    requires ViewSound(h, delivered, v) && OutputSound(h, delivered, v, out, gcDepth)
    requires Batch(h, delivered, v, leader, gcDepth, xs) && x in xs
    ensures x !in out && x.round > 0
  {
    hide ViewSound, ParentsFirst, Batch;
    BatchMember(h, delivered, v, leader, gcDepth, xs, x);
  }

  lemma BatchLeader(v: View, leader: Certificate, gcDepth: Round, xs: seq<Certificate>)
    requires Flattened(v, leader, gcDepth, xs) && leader.round > v.lastCommittedRound
    ensures leader in xs
  {
    assert Flows(v, leader, leader);
  }

  /** The flattened sub-DAG ends with its leader and is ancestors-first. */
  lemma BatchOrder(h: History, delivered: set<Digest>, v: View, leader: Certificate, gcDepth: Round,
      xs: seq<Certificate>)
    requires ViewSound(h, delivered, v) && Batch(h, delivered, v, leader, gcDepth, xs)
    ensures |xs| > 0 && xs[|xs| - 1] == leader
    ensures forall i, j :: 0 <= i < |xs| && 0 <= j < |xs| ==>
      xs[j].digest in xs[i].parents && xs[j].round + 1 == xs[i].round ==> j < i
  {
    hide Flows, ViewSound;
    BatchLeader(v, leader, gcDepth, xs);
    var last := xs[|xs| - 1];
    BatchMember(h, delivered, v, leader, gcDepth, xs, last);
    var k :| 0 <= k < |xs| && xs[k] == leader;
    assert xs[k].round <= last.round;
  }

  /** The batch holds every certificate above the last committed round that the
      leader reaches. */
  lemma {:induction false} BatchComplete(h: History, c: Committee, delivered: set<Digest>, v: View,
      leader: Certificate, gcDepth: Round, xs: seq<Certificate>, x: Certificate)
    requires WellFormed(h, c) && ViewSound(h, delivered, v) && Batch(h, delivered, v, leader, gcDepth, xs)
    requires Reaches(h, leader, x) && x.round > v.lastCommittedRound
    ensures x in xs
  {
    hide ViewSound, WellFormed, Reaches, Flows;
    assert Flows(v, leader, x) by {
      FrontierFlows(h, c, delivered, v, leader, x);
    }
  }

  lemma {:induction false} FrontierFlows(h: History, c: Committee, delivered: set<Digest>, v: View,
      a: Certificate, x: Certificate)
    requires WellFormed(h, c) && ViewSound(h, delivered, v) && Known(h, a) && a.digest in delivered
    requires Reaches(h, a, x) && x.round > v.lastCommittedRound
    ensures Flows(v, a, x)
    decreases a.round
  {
    if a != x {
      var p :| p in a.parents && p in h && h[p].round + 1 == a.round && Reaches(h, h[p], x);
      ReachesRound(h, h[p], x);
      FrontierFlows(h, c, delivered, v, h[p], x);
      assert Step(v, a, h[p]);
    }
  }

  // ---------------------------------------------------------------------
  // Committing a batch keeps all of it
  // ---------------------------------------------------------------------

  lemma CommitRound(h: History, delivered: set<Digest>, v: View, w: View, leader: Certificate, gcDepth: Round,
      xs: seq<Certificate>)
    requires ViewSound(h, delivered, v) && Batch(h, delivered, v, leader, gcDepth, xs) && CommitsAll(v, w, xs, gcDepth)
    ensures w.lastCommittedRound == leader.round > v.lastCommittedRound && RoundsBounded(w) && Cleaned(v, w, gcDepth)
  {
    hide Flows, RaiseAll, Closed, Faithful, FrontierKept;
    BatchLeader(v, leader, gcDepth, xs);
    RaiseAllBounds(v.lastCommitted, xs);
    forall name | name in w.lastCommitted
      ensures w.lastCommitted[name] <= leader.round
    {
      if !(name in v.lastCommitted && w.lastCommitted[name] == v.lastCommitted[name]) {
        var x :| x in xs && x.origin == name && x.round == w.lastCommitted[name];
        FlowsRound(v, leader, x);
      }
    }
    assert w.lastCommitted[leader.origin] >= leader.round;
  }

  /** Committing one batch keeps what a node keeps about its memory. */
  lemma CommitKeepsView(h: History, delivered: set<Digest>, v: View, w: View, leader: Certificate, gcDepth: Round,
      xs: seq<Certificate>)
    requires ViewSound(h, delivered, v) && Batch(h, delivered, v, leader, gcDepth, xs) && CommitsAll(v, w, xs, gcDepth)
    ensures ViewSound(h, delivered, w) && w.lastCommittedRound == leader.round
  {
    hide Batch, CommitsAll, RaiseAll, IsMaximum, Known;
    CommitRound(h, delivered, v, w, leader, gcDepth, xs);
  }

  /** And it forgets nothing recent. */
  lemma CommitRemembers(h: History, delivered: set<Digest>, v: View, w: View, leader: Certificate, gcDepth: Round,
      xs: seq<Certificate>)
    requires ViewSound(h, delivered, v) && Batch(h, delivered, v, leader, gcDepth, xs) && CommitsAll(v, w, xs, gcDepth)
    requires Remembers(h, delivered, v, gcDepth)
    ensures Remembers(h, delivered, w, gcDepth)
  {
    hide Batch, ViewSound, IsMaximum, RaiseAll;
    CommitRound(h, delivered, v, w, leader, gcDepth, xs);
    RaiseAllBounds(v.lastCommitted, xs);
    forall d | d in delivered && d in h && Recent(w, h[d], gcDepth)
      ensures Holds(w.dag, h[d])
    {
      assert Recent(v, h[d], gcDepth);
      assert Survives(w, h[d].round, h[d].origin, gcDepth);
    }
  }

  lemma CommitDistinct(h: History, delivered: set<Digest>, v: View, out: seq<Certificate>, leader: Certificate,
      gcDepth: Round, xs: seq<Certificate>)
    requires ViewSound(h, delivered, v) && OutputSound(h, delivered, v, out, gcDepth)
    requires Batch(h, delivered, v, leader, gcDepth, xs)
    ensures Distinct(out + xs)
  {
    hide ViewSound, ParentsFirst;
    FlattenedShape(v, leader, gcDepth, xs);
    forall x | x in out
      ensures x !in xs
    {
      if x in xs {
        BatchIsNew(h, delivered, v, out, leader, gcDepth, xs, x);
        assert false;
      }
    }
    hide Batch;
    DistinctConcat(out, xs);
  }

  lemma FlattenedShape(v: View, leader: Certificate, gcDepth: Round, xs: seq<Certificate>)
    requires Flattened(v, leader, gcDepth, xs)
    ensures Distinct(xs) && SortedByRound(xs)
  {
  }

  lemma CommitNoRepeats(h: History, delivered: set<Digest>, v: View, w: View, out: seq<Certificate>,
      leader: Certificate, gcDepth: Round, xs: seq<Certificate>)
    requires ViewSound(h, delivered, v) && OutputSound(h, delivered, v, out, gcDepth)
    requires Batch(h, delivered, v, leader, gcDepth, xs) && CommitsAll(v, w, xs, gcDepth)
    ensures NoRepeats(h, delivered, w, out + xs, gcDepth)
  {
    hide Flows, RaiseAll, ParentsFirst, Closed, Flattened, FrontierKept, Distinct, IsMaximum;
    var all := out + xs;
    RaiseAllBounds(v.lastCommitted, xs);
    CommitRound(h, delivered, v, w, leader, gcDepth, xs);
    CommitDistinct(h, delivered, v, out, leader, gcDepth, xs);
    forall x | x in xs
      ensures IsCommitted(h, delivered, w, x)
    {
      BatchMember(h, delivered, v, leader, gcDepth, xs, x);
      BatchIsNew(h, delivered, v, out, leader, gcDepth, xs, x);
    }
    assert forall x :: x in all <==> x in out || x in xs;
  }

  /** A parent of a new batch member: committed earlier, placed earlier in the batch, or
      too old or pruned. */
  lemma BatchParent(h: History, c: Committee, delivered: set<Digest>, v: View, w: View, out: seq<Certificate>,
      leader: Certificate, gcDepth: Round, xs: seq<Certificate>, i: nat, p: Digest)
    requires WellFormed(h, c) && ViewSound(h, delivered, v) && OutputSound(h, delivered, v, out, gcDepth)
    requires Batch(h, delivered, v, leader, gcDepth, xs)
    requires w.lastCommittedRound >= v.lastCommittedRound && Cleaned(v, w, gcDepth)
    requires i < |xs| && p in xs[i].parents && p in h && h[p].digest == p && h[p].round + 1 == xs[i].round
    ensures ParentSettled(w, out + xs, |out| + i, h[p], gcDepth)
  {
    hide Flows, Closed, ParentsFirst, WellFormed;
    var parent := h[p];
    var all := out + xs;
    assert all[..|out| + i] == out + xs[..i];
    BatchMember(h, delivered, v, leader, gcDepth, xs, xs[i]);
    if parent.round == 0 || parent in out {
    } else if !Holds(v.dag, parent) {
      assert parent !in xs by {
        if parent in xs {
          BatchMember(h, delivered, v, leader, gcDepth, xs, parent);
          assert false;
        }
      }
    } else {
      assert !Skipped(v, parent) by {
        if Skipped(v, parent) {
          var x :| x in out && x.origin == parent.origin && x.round == parent.round;
          SamePlace(h, c, x, parent);
          assert false;
        }
      }
      assert Step(v, xs[i], parent);
      FlowsSnoc(v, leader, xs[i], parent);
      if parent in xs {
        BatchOrder(h, delivered, v, leader, gcDepth, xs);
      } else {
        assert Outdated(v, parent, gcDepth);
      }
    }
  }

  lemma CommitParentsFirst(h: History, c: Committee, delivered: set<Digest>, v: View, w: View,
      out: seq<Certificate>, leader: Certificate, gcDepth: Round, xs: seq<Certificate>)
    requires WellFormed(h, c) && ViewSound(h, delivered, v) && OutputSound(h, delivered, v, out, gcDepth)
    requires Batch(h, delivered, v, leader, gcDepth, xs)
    requires w.lastCommittedRound >= v.lastCommittedRound && Cleaned(v, w, gcDepth)
    ensures ParentsFirst(h, w, out + xs, gcDepth)
  {
    hide Flows, Flattened, Survives, NoRepeats, FrontierKept;
    var all := out + xs;
    forall i, p | 0 <= i < |all| && p in all[i].parents && p in h
      ensures ParentSettled(w, all, i, h[p], gcDepth)
    {
      if i < |out| {
        assert ParentSettled(v, out, i, h[p], gcDepth);
        assert all[..i] == out[..i];
        if h[p] in xs {
          BatchMember(h, delivered, v, leader, gcDepth, xs, h[p]);
        }
      } else {
        BatchMember(h, delivered, v, leader, gcDepth, xs, xs[i - |out|]);
        BatchIsNew(h, delivered, v, out, leader, gcDepth, xs, xs[i - |out|]);
        assert WellParented(h, c, h[all[i].digest]);
        BatchParent(h, c, delivered, v, w, out, leader, gcDepth, xs, i - |out|, p);
      }
    }
  }

  /** And what it keeps about its output. */
  lemma CommitKeepsOutput(h: History, c: Committee, delivered: set<Digest>, v: View, w: View,
      out: seq<Certificate>, leader: Certificate, gcDepth: Round, xs: seq<Certificate>)
    requires WellFormed(h, c) && ViewSound(h, delivered, v) && OutputSound(h, delivered, v, out, gcDepth)
    requires Batch(h, delivered, v, leader, gcDepth, xs) && CommitsAll(v, w, xs, gcDepth)
    ensures OutputSound(h, delivered, w, out + xs, gcDepth)
  {
    hide NoRepeats, ParentsFirst, Batch, WellFormed, CommitsAll, Cleaned, ViewSound;
    CommitRound(h, delivered, v, w, leader, gcDepth, xs);
    CommitNoRepeats(h, delivered, v, w, out, leader, gcDepth, xs);
    CommitParentsFirst(h, c, delivered, v, w, out, leader, gcDepth, xs);
  }

  // ---------------------------------------------------------------------
  // Delivering a certificate
  // ---------------------------------------------------------------------

  /** Such a delivery overwrites nothing. */
  lemma InsertAddsOne(h: History, c: Committee, delivered: set<Digest>, v: View, w: View, x: Certificate)
    requires WellFormed(h, c) && Faithful(h, delivered, v) && Known(h, x) && Inserted(v, w, x)
    ensures forall y :: Holds(w.dag, y) <==> Holds(v.dag, y) || y == x
  {
    forall y | Holds(v.dag, y)
      ensures y.round == x.round && y.origin == x.origin ==> y == x
    {
      if y.round == x.round && y.origin == x.origin {
        SamePlace(h, c, x, y);
      }
    }
  }

  /** Any delivery, the first or a later one, keeps what a node keeps about its memory. */
  lemma InsertKeepsView(h: History, c: Committee, delivered: set<Digest>, v: View, w: View, x: Certificate)
    requires WellFormed(h, c) && ViewSound(h, delivered, v) && Inserted(v, w, x)
    requires Known(h, x) && forall p :: p in x.parents ==> p in delivered
    ensures ViewSound(h, delivered + {x.digest}, w)
  {
    hide WellFormed, Inserted, Holds, Faithful, FrontierKept, Closed;
    InsertAddsOne(h, c, delivered, v, w, x);
    InsertKeepsPlaces(h, delivered, v, w, x);
    assert Closed(h, delivered + {x.digest}) by {
      ClosedGrows(h, delivered, x);
    }
    FrontierGrows(h, delivered, v, w, x);
  }

  lemma ClosedGrows(h: History, delivered: set<Digest>, x: Certificate)
    requires Closed(h, delivered) && Known(h, x) && forall p :: p in x.parents ==> p in delivered
    ensures Closed(h, delivered + {x.digest})
  {
  }

  lemma InsertKeepsPlaces(h: History, delivered: set<Digest>, v: View, w: View, x: Certificate)
    requires Faithful(h, delivered, v) && RoundsBounded(v) && Inserted(v, w, x) && Known(h, x)
    ensures Faithful(h, delivered + {x.digest}, w) && RoundsBounded(w) && w.lastCommittedRound == v.lastCommittedRound
  {
  }

  lemma FrontierGrows(h: History, delivered: set<Digest>, v: View, w: View, x: Certificate)
    requires FrontierKept(h, delivered, v) && Known(h, x) && w.lastCommittedRound == v.lastCommittedRound
    requires forall y :: Holds(w.dag, y) <==> Holds(v.dag, y) || y == x
    ensures FrontierKept(h, delivered + {x.digest}, w)
  {
    hide Holds;
  }

  /** Which deliveries do no harm to the output: of what is still in memory, or too old to
      be output, or skipped like everything committed; and of what was never output, unless
      a child of it was. */
  ghost predicate Harmless(v: View, out: seq<Certificate>, x: Certificate, gcDepth: Round) {
    || Holds(v.dag, x) || Outdated(v, x, gcDepth)
    || (if x in out || x.round == 0 then Skipped(v, x) else forall y :: y in out ==> x.digest !in y.parents)
  }

  /** A first delivery is harmless. */
  lemma FirstIsHarmless(h: History, delivered: set<Digest>, v: View, out: seq<Certificate>, x: Certificate,
      gcDepth: Round)
    requires ViewSound(h, delivered, v) && OutputSound(h, delivered, v, out, gcDepth)
    requires Known(h, x) && x.digest !in delivered && x.round > 0
    ensures Harmless(v, out, x, gcDepth)
  {
    hide Faithful, FrontierKept, RoundsBounded, ParentsFirst;
  }

  /** The in-memory DAG gains `x` and nothing else changes. */
  ghost predicate Gains(v: View, w: View, x: Certificate) {
    && w.lastCommitted == v.lastCommitted && w.lastCommittedRound == v.lastCommittedRound
    && forall y :: Holds(w.dag, y) <==> Holds(v.dag, y) || y == x
  }

  lemma InsertGains(h: History, c: Committee, delivered: set<Digest>, v: View, w: View, x: Certificate)
    requires WellFormed(h, c) && ViewSound(h, delivered, v) && Inserted(v, w, x) && Known(h, x)
    ensures Gains(v, w, x)
  {
    InsertAddsOne(h, c, delivered, v, w, x);
  }

  lemma InsertRemembers(h: History, c: Committee, delivered: set<Digest>, v: View, w: View, x: Certificate,
      gcDepth: Round)
    requires WellFormed(h, c) && ViewSound(h, delivered, v) && Inserted(v, w, x) && Known(h, x)
    requires Remembers(h, delivered, v, gcDepth)
    ensures Remembers(h, delivered + {x.digest}, w, gcDepth)
  {
    hide WellFormed, ViewSound, Inserted, Holds;
    InsertGains(h, c, delivered, v, w, x);
  }

  /** A delivery keeps what a node keeps about its output if and only if it is harmless. */
  lemma InsertKeepsOutput(h: History, c: Committee, delivered: set<Digest>, v: View, w: View,
      out: seq<Certificate>, x: Certificate, gcDepth: Round)
    requires WellFormed(h, c) && ViewSound(h, delivered, v) && OutputSound(h, delivered, v, out, gcDepth)
    requires Inserted(v, w, x) && Known(h, x)
    ensures OutputSound(h, delivered + {x.digest}, w, out, gcDepth) <==> Harmless(v, out, x, gcDepth)
  {
    hide WellFormed, ViewSound, OutputSound, Inserted, Gains, Harmless;
    InsertGains(h, c, delivered, v, w, x);
    DigestsName(h, c);
    if Harmless(v, out, x, gcDepth) {
      GainKeeps(h, delivered, v, w, out, x, gcDepth);
    } else {
      GainBreaks(h, delivered, v, w, out, x, gcDepth);
    }
  }

  lemma GainKeeps(h: History, delivered: set<Digest>, v: View, w: View, out: seq<Certificate>, x: Certificate,
      gcDepth: Round)
    requires OutputSound(h, delivered, v, out, gcDepth) && Gains(v, w, x) && Harmless(v, out, x, gcDepth)
    requires forall d :: d in h ==> h[d].digest == d
    ensures OutputSound(h, delivered + {x.digest}, w, out, gcDepth)
  {
    hide Holds, ParentsFirst;
    InsertKeepsParents(h, delivered, v, w, out, x, gcDepth);
  }

  lemma GainBreaks(h: History, delivered: set<Digest>, v: View, w: View, out: seq<Certificate>, x: Certificate,
      gcDepth: Round)
    requires Gains(v, w, x) && !Harmless(v, out, x, gcDepth) && Known(h, x)
    ensures !OutputSound(h, delivered + {x.digest}, w, out, gcDepth)
  {
    assert Holds(w.dag, x);
    if x !in out && x.round > 0 {
      var y :| y in out && x.digest in y.parents;
      var i :| 0 <= i < |out| && out[i] == y;
      assert !ParentSettled(w, out, i, x, gcDepth);
    }
  }

  lemma InsertKeepsParents(h: History, delivered: set<Digest>, v: View, w: View, out: seq<Certificate>,
      x: Certificate, gcDepth: Round)
    requires OutputSound(h, delivered, v, out, gcDepth) && Harmless(v, out, x, gcDepth)
    requires forall d :: d in h ==> h[d].digest == d
    requires Gains(v, w, x)
    ensures ParentsFirst(h, w, out, gcDepth)
  {
    hide Holds, NoRepeats;
    forall i, p | 0 <= i < |out| && p in out[i].parents && p in h
      ensures ParentSettled(w, out, i, h[p], gcDepth)
    {
      assert ParentSettled(v, out, i, h[p], gcDepth);
      assert out[i] in out && h[p].digest == p;
    }
  }
}
