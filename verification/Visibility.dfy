/** Which creators see which certificate: the state of one atomic unit of
    fairness (AUF) and the ancestor relation it records. */
module Visibility {
  import opened Basics
  import opened Dag

  datatype AufState = AufState(round: Round, seenByRound: map<Round, set<PublicKey>>, horizon: Option<Round>,
    mature: bool)

  function NewAuf(round: Round): AufState {
    AufState(round, map[], None, false)
  }

  function SeenAt(s: AufState, r: Round): set<PublicKey> {
    if r in s.seenByRound then s.seenByRound[r] else {}
  }

  /** A certificate of `author` at `round` sees this AUF. */
  function RecordSeen(s: AufState, round: Round, author: PublicKey, reach: nat): AufState {
    var seen := SeenAt(s, round) + {author};
    var s' := s.(seenByRound := s.seenByRound[round := seen]);
    if author !in SeenAt(s, round) && s.horizon.None? && |seen| >= reach
    then s'.(horizon := Some(round), mature := true)
    else s'
  }

  /** `d` is `x` or an ancestor of `x` through stored certificates. */
  ghost predicate Sees(store: History, x: Digest, d: Digest)
    decreases if x in store then store[x].round else 0
  {
    x in store && d in store
    && (x == d ||
        exists p :: p in store[x].parents && p in store && store[p].round < store[x].round && Sees(store, p, d))
  }

  /** Links between stored certificates go down in rounds. */
  ghost predicate Descending(store: History) {
    forall x, p :: x in store && p in store[x].parents && p in store ==> store[p].round < store[x].round
  }

  lemma {:induction false} SeesRound(store: History, x: Digest, d: Digest)
    requires Sees(store, x, d)
    ensures store[d].round <= store[x].round && (store[d].round == store[x].round ==> x == d)
    decreases store[x].round
  {
    if x != d {
      var p :| p in store[x].parents && p in store && store[p].round < store[x].round && Sees(store, p, d);
      SeesRound(store, p, d);
    }
  }

  lemma {:induction false} SeesTransitive(store: History, x: Digest, y: Digest, z: Digest)
    requires Sees(store, x, y) && Sees(store, y, z)
    ensures Sees(store, x, z)
    decreases store[x].round
  {
    if x != y {
      var p :| p in store[x].parents && p in store && store[p].round < store[x].round && Sees(store, p, y);
      SeesTransitive(store, p, y, z);
    }
  }

  // ---------------------------------------------------------------------
  // The pruned walk
  // ---------------------------------------------------------------------

  /** The rounds recorded for the active AUFs are those of their certificates. */
  ghost predicate Tracked(store: History, aufs: map<Digest, AufState>) {
    forall d :: d in aufs ==> d in store && aufs[d].round == store[d].round
  }

  ghost predicate BelowAll(floor: Round, aufs: map<Digest, AufState>) {
    forall d :: d in aufs ==> floor <= aufs[d].round
  }

  /** The AUFs after every one that `digest` sees has recorded its author: the
      effect of an unpruned search through all ancestors. */
  ghost function RecordAll(store: History, aufs: map<Digest, AufState>, digest: Digest, round: Round,
      author: PublicKey, reach: nat): map<Digest, AufState> {
    map d | d in aufs :: if Sees(store, digest, d) then RecordSeen(aufs[d], round, author, reach) else aufs[d]
  }

  /** What the walk has established: it only meets ancestors, and from everything
      it visited strictly above the floor it went on to all parents. */
  ghost predicate Walked(store: History, digest: Digest, floor: Round, visited: set<Digest>, pending: set<Digest>) {
    && (digest in visited || digest in pending)
    && (forall x :: (x in visited || x in pending) && x in store ==> Sees(store, digest, x))
    && (forall x, p :: x in visited && x in store && store[x].round > floor && p in store[x].parents ==>
      p in visited || p in pending)
  }

  /** So the visited part contains every ancestor at or above the floor. */
  lemma {:induction false} WalkReaches(store: History, visited: set<Digest>, floor: Round, x: Digest, d: Digest)
    requires x in visited && Sees(store, x, d) && store[d].round >= floor
    requires forall y, p :: y in visited && y in store && store[y].round > floor && p in store[y].parents ==>
      p in visited
    ensures d in visited
    decreases store[x].round
  {
    if x != d {
      var p :| p in store[x].parents && p in store && store[p].round < store[x].round && Sees(store, p, d);
      SeesRound(store, p, d);
      WalkReaches(store, visited, floor, p, d);
    }
  }

  lemma ParentIsSeen(store: History, digest: Digest, x: Digest, p: Digest)
    requires Descending(store) && x in store && Sees(store, digest, x) && p in store[x].parents && p in store
    ensures Sees(store, digest, p)
  {
    assert Sees(store, p, p);
    assert Sees(store, x, p);
    SeesTransitive(store, digest, x, p);
  }

  /** Visiting a pending digest, and going on to its parents unless it is missing
      or at or below the floor. */
  lemma VisitKeepsWalked(store: History, digest: Digest, floor: Round, visited: set<Digest>,
      pending: set<Digest>, x: Digest, more: set<Digest>)
    requires Descending(store) && Walked(store, digest, floor, visited, pending + {x})
    requires more == if x in store && store[x].round > floor then Elements(store[x].parents) else {}
    ensures Walked(store, digest, floor, visited + {x}, pending + more)
  {
    hide Sees;
    forall p | p in more && p in store
      ensures Sees(store, digest, p)
    {
      ParentIsSeen(store, digest, x, p);
    }
  }

  /** The walk updated exactly the active AUFs it visited. */
  ghost predicate Recorded(aufs0: map<Digest, AufState>, aufs: map<Digest, AufState>, visited: set<Digest>,
      round: Round, author: PublicKey, reach: nat) {
    aufs == map d | d in aufs0 :: if d in visited then RecordSeen(aufs0[d], round, author, reach) else aufs0[d]
  }

  lemma RecordedIsAll(store: History, digest: Digest, floor: Round, visited: set<Digest>,
      aufs0: map<Digest, AufState>, aufs: map<Digest, AufState>, round: Round, author: PublicKey, reach: nat)
    requires Tracked(store, aufs0) && BelowAll(floor, aufs0) && Walked(store, digest, floor, visited, {})
    requires Recorded(aufs0, aufs, visited, round, author, reach)
    ensures aufs == RecordAll(store, aufs0, digest, round, author, reach)
  {
    hide Sees, RecordSeen;
    forall d | d in aufs0
      ensures d in visited <==> Sees(store, digest, d)
    {
      if Sees(store, digest, d) {
        WalkReaches(store, visited, floor, digest, d);
      }
    }
  }

  ghost function AllParents(store: History): (ps: set<Digest>)
    ensures forall x :: x in store ==> Elements(store[x].parents) <= ps
  {
    set x, p | x in store && p in store[x].parents :: p
  }

  /** A depth-first walk that stops at the floor records exactly what the full
      ancestor search would. */
  method PrunedWalk(store: History, aufs0: map<Digest, AufState>, floor: Option<Round>, round: Round,
      author: PublicKey, digest: Digest, reach: nat)
    returns (aufs: map<Digest, AufState>)
    requires Descending(store) && Tracked(store, aufs0)
    requires digest in store && store[digest].round == round
    requires BelowAll(if floor.Some? then floor.value else round, aufs0)
    ensures aufs == RecordAll(store, aufs0, digest, round, author, reach)
  {
    hide Walked, RecordAll, RecordSeen, AllParents, Descending;
    var minRound := if floor.Some? then floor.value else round;
    aufs := aufs0;
    var stack := [digest];
    var visited: set<Digest> := {};
    ghost var universe := {digest} + AllParents(store);
    WalkStarts(store, digest, minRound);
    while stack != []
      invariant visited <= universe && Elements(stack) <= universe
      invariant Walked(store, digest, minRound, visited, Elements(stack))
      invariant Recorded(aufs0, aufs, visited, round, author, reach)
      decreases universe - visited, |stack|
    {
      var current := stack[|stack| - 1];
      var rest := stack[..|stack| - 1];
      assert stack == rest + [current];
      assert Elements(stack) == Elements(rest) + {current};
      if current in visited {
        AlreadyVisited(store, digest, minRound, visited, Elements(rest), current);
        stack := rest;
        continue;
      }
      ghost var more :=
        if current in store && store[current].round > minRound then Elements(store[current].parents) else {};
      VisitKeepsWalked(store, digest, minRound, visited, Elements(rest), current, more);
      visited := visited + {current};
      stack := rest;
      if current in store && store[current].round >= minRound {
        if current in aufs {
          aufs := aufs[current := RecordSeen(aufs[current], round, author, reach)];
        }
        if store[current].round != minRound {
          ElementsConcat(rest, store[current].parents);
          stack := rest + store[current].parents;
        }
      }
      assert Elements(stack) == Elements(rest) + more;
    }
    assert Elements(stack) == {};
    RecordedIsAll(store, digest, minRound, visited, aufs0, aufs, round, author, reach);
  }

  lemma WalkStarts(store: History, digest: Digest, floor: Round)
    requires digest in store
    ensures Walked(store, digest, floor, {}, Elements([digest]))
  {
    assert digest in [digest];
  }

  lemma AlreadyVisited(store: History, digest: Digest, floor: Round, visited: set<Digest>, pending: set<Digest>,
      x: Digest)
    requires Walked(store, digest, floor, visited, pending + {x}) && x in visited
    ensures Walked(store, digest, floor, visited, pending)
  {
    hide Sees;
  }
}
