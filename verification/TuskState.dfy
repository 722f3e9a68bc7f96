/** The consensus state: the in-memory DAG and what has been committed of it,
    with the cleanup that every committed certificate triggers. */
module TuskState {
  import opened Basics
  import opened Dag

  type RoundMap = map<Round, map<PublicKey, Certificate>>

  /** The three fields of the state as one value. */
  datatype View = View(dag: RoundMap, lastCommitted: map<PublicKey, Round>, lastCommittedRound: Round)

  predicate Has(dag: RoundMap, r: Round, name: PublicKey) {
    r in dag && name in dag[r]
  }

  predicate Holds(dag: RoundMap, x: Certificate) {
    Has(dag, x.round, x.origin) && dag[x.round][x.origin] == x
  }

  predicate IsMaximum(rounds: map<PublicKey, Round>, m: Round) {
    && (forall name :: name in rounds ==> rounds[name] <= m)
    && (exists name :: name in rounds && rounds[name] == m)
  }

  /** `update` keeps the entry of `name` at round `r`. */
  predicate Survives(v: View, r: Round, name: PublicKey, gcDepth: Round) {
    r + gcDepth >= v.lastCommittedRound && (name in v.lastCommitted ==> r >= v.lastCommitted[name])
  }

  function Raise(rounds: map<PublicKey, Round>, x: Certificate): map<PublicKey, Round> {
    rounds[x.origin := if x.origin in rounds then Max(rounds[x.origin], x.round) else x.round]
  }

  /** `w.dag` is `v.dag` restricted to the entries that survive in `w`. */
  ghost predicate Cleaned(v: View, w: View, gcDepth: Round) {
    && (forall r: Round, name: PublicKey :: Has(w.dag, r, name) <==>
      Has(v.dag, r, name) && Survives(w, r, name, gcDepth))
    && (forall r: Round, name: PublicKey :: Has(w.dag, r, name) ==> w.dag[r][name] == v.dag[r][name])
  }

  ghost predicate CommitsOne(v: View, w: View, x: Certificate, gcDepth: Round) {
    && w.lastCommitted == Raise(v.lastCommitted, x)
    && IsMaximum(w.lastCommitted, w.lastCommittedRound)
    && Cleaned(v, w, gcDepth)
  }

  /** The in-memory DAG gains exactly the entry of `x`. */
  ghost predicate Inserted(v: View, w: View, x: Certificate) {
    && w.lastCommitted == v.lastCommitted && w.lastCommittedRound == v.lastCommittedRound
    && Holds(w.dag, x)
    && (forall r: Round, name: PublicKey :: Has(w.dag, r, name) <==>
      Has(v.dag, r, name) || (r == x.round && name == x.origin))
    && (forall r: Round, name: PublicKey :: Has(v.dag, r, name) && !(r == x.round && name == x.origin) ==>
      Has(w.dag, r, name) && w.dag[r][name] == v.dag[r][name])
  }

  class State {
    var lastCommittedRound: Round
    var lastCommitted: map<PublicKey, Round>
    var dag: RoundMap

    function Snapshot(): View
      reads this
    {
      View(dag, lastCommitted, lastCommittedRound)
    }

    /** Starts from the genesis certificates, one per authority. */
    constructor (genesis: map<PublicKey, Certificate>)
      ensures Snapshot() == View(map[0 := genesis], map name | name in genesis :: genesis[name].round, 0)
    {
      lastCommittedRound := 0;
      lastCommitted := map name | name in genesis :: genesis[name].round;
      dag := map[0 := genesis];
    }

    method Insert(x: Certificate)
      modifies this`dag
      ensures Inserted(old(Snapshot()), Snapshot(), x)
    {
      var layer := if x.round in dag then dag[x.round] else map[];
      dag := dag[x.round := layer[x.origin := x]];
    }

    /** The names are visited in any order; the result does not depend on it. */
    method Update(x: Certificate, gcDepth: Round)
      modifies this
      ensures CommitsOne(old(Snapshot()), Snapshot(), x, gcDepth)
      ensures forall r :: r in dag ==> dag[r] != map[]
    {
      ghost var before := dag;
      lastCommitted := Raise(lastCommitted, x);
      assert x.origin in lastCommitted;
      var rounds := set name | name in lastCommitted :: lastCommitted[name];
      assert lastCommitted[x.origin] in rounds;
      lastCommittedRound := Greatest(rounds);
      assert forall name :: name in lastCommitted ==> lastCommitted[name] in rounds;
      var names := lastCommitted.Keys;
      ghost var seen: set<PublicKey> := {};
      while names != {}
        invariant seen + names == lastCommitted.Keys && seen !! names
        invariant lastCommitted == Raise(old(lastCommitted), x)
        invariant IsMaximum(lastCommitted, lastCommittedRound)
        invariant seen == {} ==> dag == before
        invariant forall r: Round, name: PublicKey :: Has(dag, r, name) <==>
          Has(before, r, name) && (seen != {} ==> r + gcDepth >= lastCommittedRound)
          && (name in seen ==> r >= lastCommitted[name])
        invariant forall r: Round, name: PublicKey :: Has(dag, r, name) ==> dag[r][name] == before[r][name]
        invariant seen != {} ==> forall r :: r in dag ==> dag[r] != map[]
        decreases names
      {
        var name :| name in names;
        names := names - {name};
        RetainRounds(name, gcDepth);
        seen := seen + {name};
      }
    }

    /** The updates of one committed batch. */
    method UpdateEach(batch: seq<Certificate>, gcDepth: Round)
      requires IsMaximum(lastCommitted, lastCommittedRound) || lastCommittedRound == 0
      modifies this
      ensures CommitsAll(old(Snapshot()), Snapshot(), batch, gcDepth)
    {
      hide CommitsAll, CommitsOne, IsMaximum;
      ghost var before := Snapshot();
      CommitsNothing(before, gcDepth);
      assert batch[..0] == [];
      var i := 0;
      while i < |batch|
        invariant 0 <= i <= |batch|
        invariant CommitsAll(before, Snapshot(), batch[..i], gcDepth)
      {
        ghost var middle := Snapshot();
        Update(batch[i], gcDepth);
        CommitsAllSnoc(before, middle, Snapshot(), batch[..i], batch[i], gcDepth);
        assert batch[..i + 1] == batch[..i] + [batch[i]];
        i := i + 1;
      }
      assert batch[..i] == batch;
    }

    /** One turn of the cleanup loop, for one authority. */
    method RetainRounds(name: PublicKey, gcDepth: Round)
      requires name in lastCommitted
      modifies this`dag
      ensures forall r: Round, n: PublicKey :: Has(dag, r, n) <==>
        Has(old(dag), r, n) && (n == name ==> r >= lastCommitted[name]) && r + gcDepth >= lastCommittedRound
      ensures forall r: Round, n: PublicKey :: Has(dag, r, n) ==>
        r in old(dag) && n in old(dag)[r] && dag[r][n] == old(dag)[r][n]
      ensures forall r :: r in dag ==> dag[r] != map[]
    {
      var round := lastCommitted[name];
      var kept := map r | r in dag :: map n | n in dag[r] && (n != name || r >= round) :: dag[r][n];
      forall r: Round, n: PublicKey | Has(dag, r, n) && (n == name ==> r >= round)
        ensures n in kept[r] && kept[r] != map[]
      {
        assert n in kept[r];
      }
      dag := map r | r in kept && kept[r] != map[] && r + gcDepth >= lastCommittedRound :: kept[r];
    }
  }

  // ---------------------------------------------------------------------
  // Updating with a whole batch
  // ---------------------------------------------------------------------

  function RaiseAll(rounds: map<PublicKey, Round>, xs: seq<Certificate>): map<PublicKey, Round> {
    if xs == [] then rounds else Raise(RaiseAll(rounds, xs[..|xs| - 1]), xs[|xs| - 1])
  }

  /** `w` is what updating `v` with each of `xs` in turn leaves. */
  ghost predicate CommitsAll(v: View, w: View, xs: seq<Certificate>, gcDepth: Round) {
    && w.lastCommitted == RaiseAll(v.lastCommitted, xs)
    && (if xs == [] then w == v else IsMaximum(w.lastCommitted, w.lastCommittedRound) && Cleaned(v, w, gcDepth))
  }

  lemma {:induction false} RaiseAllBounds(rounds: map<PublicKey, Round>, xs: seq<Certificate>)
    ensures forall name :: name in rounds ==> name in RaiseAll(rounds, xs) && rounds[name] <= RaiseAll(rounds, xs)[name]
    ensures forall x :: x in xs ==> x.origin in RaiseAll(rounds, xs) && x.round <= RaiseAll(rounds, xs)[x.origin]
    ensures forall name :: name in RaiseAll(rounds, xs) ==>
      (name in rounds && RaiseAll(rounds, xs)[name] == rounds[name])
      || exists x :: x in xs && x.origin == name && x.round == RaiseAll(rounds, xs)[name]
  {
    if xs != [] {
      RaiseAllBounds(rounds, xs[..|xs| - 1]);
      assert xs == xs[..|xs| - 1] + [xs[|xs| - 1]];
      assert forall x :: x in xs ==> x in xs[..|xs| - 1] || x == xs[|xs| - 1];
    }
  }

  lemma CommitsNothing(v: View, gcDepth: Round)
    ensures CommitsAll(v, v, [], gcDepth)
  {
  }

  lemma RaiseAllSnoc(rounds: map<PublicKey, Round>, xs: seq<Certificate>, x: Certificate)
    ensures RaiseAll(rounds, xs + [x]) == Raise(RaiseAll(rounds, xs), x)
  {
    var ys := xs + [x];
    assert ys[..|ys| - 1] == xs && ys[|ys| - 1] == x;
  }

  lemma MaximumRises(v: View, w: View, x: Certificate, gcDepth: Round)
    requires IsMaximum(v.lastCommitted, v.lastCommittedRound) || v.lastCommittedRound == 0
    requires CommitsOne(v, w, x, gcDepth)
    ensures v.lastCommittedRound <= w.lastCommittedRound
    ensures forall r: Round, name: PublicKey :: Survives(w, r, name, gcDepth) ==> Survives(v, r, name, gcDepth)
  {
    if IsMaximum(v.lastCommitted, v.lastCommittedRound) {
      var name :| name in v.lastCommitted && v.lastCommitted[name] == v.lastCommittedRound;
      assert w.lastCommitted[name] >= v.lastCommitted[name];
    }
  }

  lemma CommitsAllSnoc(u: View, v: View, w: View, xs: seq<Certificate>, x: Certificate, gcDepth: Round)
    requires IsMaximum(u.lastCommitted, u.lastCommittedRound) || u.lastCommittedRound == 0
    requires CommitsAll(u, v, xs, gcDepth) && CommitsOne(v, w, x, gcDepth)
    ensures CommitsAll(u, w, xs + [x], gcDepth)
  {
    hide RaiseAll, Survives, Raise;
    RaiseAllSnoc(u.lastCommitted, xs, x);
    MaximumRises(v, w, x, gcDepth);
  }
}
