/** The DAG of certificates as every node would see it if nothing were ever
    pruned, and the leader sequence that this DAG determines on its own. */
module Dag {
  import opened Basics
  import opened Config

  /** What consensus and the executor read of a certificate. `parents` lists the
      parent digests in the ascending order of a BTreeSet. */
  datatype Certificate = Certificate(digest: Digest, origin: PublicKey, round: Round, parents: seq<Digest>)

  /** One committed batch, as consensus hands it to the executor. */
  datatype CommittedSubDag = CommittedSubDag(batchIndex: nat, leaderRound: Round, leaderDigest: Digest,
    certificates: seq<Certificate>)

  /** The certificates of a sequence of batches, one after the other. */
  function Flatten(batches: seq<CommittedSubDag>): seq<Certificate> {
    if batches == [] then [] else Flatten(batches[..|batches| - 1]) + batches[|batches| - 1].certificates
  }

  lemma FlattenTwo(bs: seq<CommittedSubDag>)
    requires |bs| == 2
    ensures Flatten(bs) == bs[0].certificates + bs[1].certificates
  {
    assert bs[..1] == [bs[0]] && bs[..1][..0] == [];
    assert Flatten(bs[..1]) == [] + bs[0].certificates;
  }

  /** Every certificate any node ever stored, genesis included. */
  type History = map<Digest, Certificate>

  ghost function ParentOrigins(h: History, x: Certificate): set<PublicKey> {
    set d | d in x.parents && d in h :: h[d].origin
  }

  ghost predicate WellFormed(h: History, c: Committee) {
    && (forall d :: d in h ==> h[d].digest == d && h[d].origin in c.authorities)
    && (forall d, e :: d in h && e in h && h[d].origin == h[e].origin && h[d].round == h[e].round ==> d == e)
    && (forall d :: d in h && h[d].round == 0 ==> h[d].parents == [])
    && (forall d {:trigger WellParented(h, c, h[d])} :: d in h && h[d].round > 0 ==> WellParented(h, c, h[d]))
  }

  /** Parents sit exactly one round below and carry a quorum of stake. */
  ghost predicate WellParented(h: History, c: Committee, x: Certificate) {
    && (forall p :: p in x.parents ==> p in h && h[p].round + 1 == x.round)
    && c.StakeOf(ParentOrigins(h, x)) >= c.QuorumThreshold()
  }

  /** `x` is in the history under its own digest. */
  ghost predicate Known(h: History, x: Certificate) {
    x.digest in h && h[x.digest] == x
  }

  /** There is a path of parent links from `a` down to `b`. */
  ghost predicate Reaches(h: History, a: Certificate, b: Certificate)
    decreases a.round
  {
    a == b || exists p :: p in a.parents && p in h && h[p].round + 1 == a.round && Reaches(h, h[p], b)
  }

  lemma ReachesItself(h: History, a: Certificate)
    ensures Reaches(h, a, a)
  {
  }

  lemma {:induction false} ReachesRound(h: History, a: Certificate, b: Certificate)
    requires Reaches(h, a, b)
    ensures b.round <= a.round
    ensures b.round == a.round ==> a == b
    decreases a.round
  {
    if a != b {
      var p :| p in a.parents && p in h && h[p].round + 1 == a.round && Reaches(h, h[p], b);
      ReachesRound(h, h[p], b);
    }
  }

  lemma {:induction false} ReachesTransitive(h: History, a: Certificate, b: Certificate, x: Certificate)
    requires Reaches(h, a, b) && Reaches(h, b, x)
    ensures Reaches(h, a, x)
    decreases a.round
  {
    if a != b {
      var p :| p in a.parents && p in h && h[p].round + 1 == a.round && Reaches(h, h[p], b);
      ReachesTransitive(h, h[p], b, x);
    }
  }

  /** A link down: `x` is a known parent of `y`. */
  ghost predicate ParentOf(h: History, x: Certificate, y: Certificate) {
    x.digest in y.parents && Known(h, x) && x.round + 1 == y.round
  }

  /** A path that ends strictly below its start has a last link. */
  lemma {:induction false} LastLink(h: History, a: Certificate, b: Certificate) returns (y: Certificate)
    requires Reaches(h, a, b) && a != b
    requires forall d :: d in h ==> h[d].digest == d
    ensures Reaches(h, a, y) && ParentOf(h, b, y)
    decreases a.round
  {
    var p :| p in a.parents && p in h && h[p].round + 1 == a.round && Reaches(h, h[p], b);
    if h[p] == b {
      y := a;
    } else {
      y := LastLink(h, h[p], b);
    }
  }

  lemma LinkExtends(h: History, a: Certificate, y: Certificate, b: Certificate)
    requires Reaches(h, a, y) && ParentOf(h, b, y)
    ensures Reaches(h, a, b)
  {
    assert Reaches(h, y, b) by {
      assert b.digest in y.parents && Reaches(h, h[b.digest], b);
    }
    ReachesTransitive(h, a, y, b);
  }

  // ---------------------------------------------------------------------
  // Support and the leader sequence
  // ---------------------------------------------------------------------

  /** The authorities whose certificate one round above `x` lists `x` as a parent. */
  ghost function Supporters(h: History, x: Certificate): set<PublicKey> {
    set d | d in h && h[d].round == x.round + 1 && x.digest in h[d].parents :: h[d].origin
  }

  /** Those of them whose certificate `y` reaches. */
  ghost function SeenSupporters(h: History, y: Certificate, x: Certificate): set<PublicKey> {
    set d | d in h && h[d].round == x.round + 1 && x.digest in h[d].parents && Reaches(h, y, h[d]) :: h[d].origin
  }

  ghost predicate Supported(h: History, c: Committee, x: Certificate) {
    Known(h, x) && c.StakeOf(Supporters(h, x)) >= c.ValidityThreshold()
  }

  /** A supported certificate is an ancestor of everything two or more rounds up. */
  lemma {:induction false} SupportedIsReached(h: History, c: Committee, x: Certificate, y: Certificate)
    requires WellFormed(h, c) && Supported(h, c, x) && Known(h, y) && y.round >= x.round + 2
    ensures Reaches(h, y, x)
    decreases y.round
  {
    assert WellParented(h, c, h[y.digest]);
    if y.round == x.round + 2 {
      QuorumMeetsValidity(c, ParentOrigins(h, y), Supporters(h, x));
      var name :| name in ParentOrigins(h, y) && name in Supporters(h, x);
      var p :| p in y.parents && p in h && h[p].origin == name;
      var s :| s in h && h[s].round == x.round + 1 && x.digest in h[s].parents && h[s].origin == name;
      assert p == s;
      assert x.digest in h[p].parents && Reaches(h, h[x.digest], x);
      assert Reaches(h, h[p], x);
    } else {
      assert ParentOrigins(h, y) != {};
      var name :| name in ParentOrigins(h, y);
      var p :| p in y.parents && p in h && h[p].origin == name;
      SupportedIsReached(h, c, x, h[p]);
    }
  }

  type Schedule = Round -> PublicKey

  ghost predicate IsLeaderAt(h: History, leaderOf: Schedule, r: Round, x: Certificate) {
    Known(h, x) && x.round == r && x.origin == leaderOf(r)
  }

  lemma DigestsName(h: History, c: Committee)
    requires WellFormed(h, c)
    ensures forall d :: d in h ==> h[d].digest == d
  {
  }

  /** One certificate per author and round. */
  lemma SamePlace(h: History, c: Committee, x: Certificate, y: Certificate)
    requires WellFormed(h, c) && Known(h, x) && Known(h, y)
    requires x.origin == y.origin && x.round == y.round
    ensures x == y
  {
  }

  /** Walking down from `cur` over the even rounds `r`, `r - 2`, ... not below
      `low`, pick each leader that the last picked one reaches. Oldest first. */
  ghost function Walk(h: History, leaderOf: Schedule, cur: Certificate, r: Round, low: nat): seq<Certificate>
    decreases r
  {
    if r < 2 || r < low then []
    else if exists x :: IsLeaderAt(h, leaderOf, r, x) && Reaches(h, cur, x) then
      var x :| IsLeaderAt(h, leaderOf, r, x) && Reaches(h, cur, x);
      Walk(h, leaderOf, x, r - 2, low) + [x]
    else
      Walk(h, leaderOf, cur, r - 2, low)
  }

  /** The whole leader sequence that committing `x` stands for. */
  ghost function LeaderSequence(h: History, leaderOf: Schedule, x: Certificate): seq<Certificate> {
    (if x.round < 2 then [] else Walk(h, leaderOf, x, x.round - 2, 2)) + [x]
  }

  lemma WalkPicks(h: History, c: Committee, leaderOf: Schedule, cur: Certificate, r: Round, low: nat, x: Certificate)
    requires WellFormed(h, c) && r >= 2 && r >= low
    requires IsLeaderAt(h, leaderOf, r, x) && Reaches(h, cur, x)
    ensures Walk(h, leaderOf, cur, r, low) == Walk(h, leaderOf, x, r - 2, low) + [x]
  {
  }

  /** A walk that passes a supported leader `x` continues with the walk of `x`. */
  lemma {:induction false} WalkThroughSupported(h: History, c: Committee, leaderOf: Schedule, x: Certificate,
      cur: Certificate, r: Round)
    requires WellFormed(h, c) && Supported(h, c, x) && IsLeaderAt(h, leaderOf, x.round, x)
    requires Known(h, cur) && cur.round >= r + 2 && r >= x.round >= 2
    requires r % 2 == 0 && x.round % 2 == 0
    ensures Walk(h, leaderOf, cur, r, 2) == LeaderSequence(h, leaderOf, x) + Walk(h, leaderOf, cur, r, x.round + 2)
    decreases r
  {
    hide WellFormed, Supported, Reaches;
    var low := x.round + 2;
    if r == x.round {
      SupportedIsReached(h, c, x, cur);
      WalkPicks(h, c, leaderOf, cur, r, 2, x);
      assert Walk(h, leaderOf, cur, r, low) == [];
    } else if exists y :: IsLeaderAt(h, leaderOf, r, y) && Reaches(h, cur, y) {
      var y :| IsLeaderAt(h, leaderOf, r, y) && Reaches(h, cur, y);
      WalkPicks(h, c, leaderOf, cur, r, 2, y);
      WalkPicks(h, c, leaderOf, cur, r, low, y);
      WalkThroughSupported(h, c, leaderOf, x, y, r - 2);
    } else {
      WalkThroughSupported(h, c, leaderOf, x, cur, r - 2);
    }
  }

  /** Of two supported leaders of even rounds, the older one's sequence is a
      prefix of the newer one's. */
  lemma SupportedSequencesAgree(h: History, c: Committee, leaderOf: Schedule, x: Certificate, y: Certificate)
    requires WellFormed(h, c) && Supported(h, c, x)
    requires IsLeaderAt(h, leaderOf, x.round, x) && IsLeaderAt(h, leaderOf, y.round, y)
    requires 2 <= x.round <= y.round && x.round % 2 == 0 && y.round % 2 == 0
    ensures LeaderSequence(h, leaderOf, x) <= LeaderSequence(h, leaderOf, y)
  {
    hide WellFormed, Supported, Reaches, Walk;
    if x.round == y.round {
      SamePlace(h, c, x, y);
    } else {
      WalkThroughSupported(h, c, leaderOf, x, y, y.round - 2);
    }
  }
}
