/** The committee: voting stake and the two thresholds every other component
    counts against. */
module Config {
  import opened Basics

  datatype Authority = Authority(stake: nat, workers: set<nat>)

  datatype Committee = Committee(authorities: map<PublicKey, Authority>) {

    /** Unknown names carry no stake. */
    function Stake(name: PublicKey): nat {
      if name in authorities then authorities[name].stake else 0
    }

    function StakeOf(names: set<PublicKey>): nat {
      if names == {} then 0
      else
        var name := Least(names);
        Stake(name) + StakeOf(names - {name})
    }

    function TotalStake(): nat {
      StakeOf(authorities.Keys)
    }

    function QuorumThreshold(): nat {
      2 * TotalStake() / 3 + 1
    }

    function ValidityThreshold(): nat {
      (TotalStake() + 2) / 3
    }
  }

  lemma {:induction false} StakeRemove(c: Committee, names: set<PublicKey>, x: PublicKey)
    requires x in names
    ensures c.StakeOf(names) == c.Stake(x) + c.StakeOf(names - {x})
  {
    var least := Least(names);
    if x != least {
      StakeRemove(c, names - {least}, x);
      assert names - {least} - {x} == names - {x} - {least};
      assert least in names - {x};
    }
  }

  lemma StakeAdd(c: Committee, names: set<PublicKey>, x: PublicKey)
    requires x !in names
    ensures c.StakeOf(names + {x}) == c.Stake(x) + c.StakeOf(names)
  {
    StakeRemove(c, names + {x}, x);
    assert names + {x} - {x} == names;
  }

  lemma {:induction false} StakeDisjointUnion(c: Committee, a: set<PublicKey>, b: set<PublicKey>)
    requires a !! b
    ensures c.StakeOf(a + b) == c.StakeOf(a) + c.StakeOf(b)
  {
    if a == {} {
      assert a + b == b;
    } else {
      var x := Least(a);
      StakeRemove(c, a + b, x);
      assert a + b - {x} == (a - {x}) + b;
      StakeDisjointUnion(c, a - {x}, b);
    }
  }

  lemma StakeMonotone(c: Committee, a: set<PublicKey>, b: set<PublicKey>)
    requires a <= b
    ensures c.StakeOf(a) <= c.StakeOf(b)
  {
    StakeDisjointUnion(c, a, b - a);
    assert a + (b - a) == b;
  }

  lemma {:induction false} StakeOutside(c: Committee, a: set<PublicKey>)
    requires a !! c.authorities.Keys
    ensures c.StakeOf(a) == 0
  {
    if a != {} {
      var x := Least(a);
      StakeOutside(c, a - {x});
    }
  }

  /** Any set of names, known or not, holds at most the total stake. */
  lemma StakeBounded(c: Committee, a: set<PublicKey>)
    ensures c.StakeOf(a) <= c.TotalStake()
  {
    var known := a * c.authorities.Keys;
    StakeDisjointUnion(c, known, a - known);
    assert known + (a - known) == a;
    StakeOutside(c, a - known);
    StakeMonotone(c, known, c.authorities.Keys);
  }

  /** What two sets share is what they hold together beyond the total. */
  lemma StakeOverlap(c: Committee, a: set<PublicKey>, b: set<PublicKey>)
    ensures c.StakeOf(a) + c.StakeOf(b) <= c.TotalStake() + c.StakeOf(a * b)
  {
    StakeDisjointUnion(c, a - b, a * b);
    assert (a - b) + (a * b) == a;
    StakeDisjointUnion(c, a - b, b);
    assert (a - b) + b == a + b;
    StakeBounded(c, a + b);
  }

  /** Two quorums share at least a validity threshold, so they share someone
      outside any set that holds less than that. */
  lemma QuorumsShareHonest(c: Committee, q1: set<PublicKey>, q2: set<PublicKey>, faulty: set<PublicKey>)
    requires c.StakeOf(q1) >= c.QuorumThreshold() && c.StakeOf(q2) >= c.QuorumThreshold()
    ensures c.StakeOf(q1 * q2) >= c.ValidityThreshold()
    ensures c.StakeOf(faulty) < c.ValidityThreshold() ==> exists name :: name in q1 && name in q2 && name !in faulty
  {
    StakeOverlap(c, q1, q2);
    if c.StakeOf(faulty) < c.ValidityThreshold() && q1 * q2 <= faulty {
      StakeMonotone(c, q1 * q2, faulty);
      assert false;
    }
    assert !(q1 * q2 <= faulty) ==> exists name :: name in q1 * q2 && name !in faulty;
  }

  /** A quorum always meets a set that reaches the validity threshold. */
  lemma QuorumMeetsValidity(c: Committee, q: set<PublicKey>, v: set<PublicKey>)
    requires c.StakeOf(q) >= c.QuorumThreshold() && c.StakeOf(v) >= c.ValidityThreshold()
    ensures exists name :: name in q && name in v
  {
    StakeOverlap(c, q, v);
    if q * v == {} {
      assert false;
    }
    var name :| name in q * v;
  }

  /** A quorum contains someone outside any set below the validity threshold. */
  lemma QuorumHasHonest(c: Committee, q: set<PublicKey>, faulty: set<PublicKey>)
    requires c.StakeOf(q) >= c.QuorumThreshold() && c.StakeOf(faulty) < c.ValidityThreshold()
    ensures exists name :: name in q && name !in faulty
  {
    QuorumsShareHonest(c, q, q, faulty);
  }

  /** The thresholds are exact complements: a set is a quorum, or what is left of the total
      stake reaches the validity threshold, and never both. */
  lemma ThresholdsComplement(c: Committee, a: set<PublicKey>)
    requires a <= c.authorities.Keys
    ensures c.QuorumThreshold() + c.ValidityThreshold() == c.TotalStake() + 1
    ensures c.StakeOf(a) >= c.QuorumThreshold() <==> c.StakeOf(c.authorities.Keys - a) < c.ValidityThreshold()
  {
    StakeDisjointUnion(c, a, c.authorities.Keys - a);
    assert a + (c.authorities.Keys - a) == c.authorities.Keys;
  }

  /** Whatever fails, as long as it is below the validity threshold the others form a
      quorum. */
  lemma OthersAreQuorum(c: Committee, faulty: set<PublicKey>)
    requires c.StakeOf(faulty) < c.ValidityThreshold()
    ensures c.StakeOf(c.authorities.Keys - faulty) >= c.QuorumThreshold()
  {
    var honest := c.authorities.Keys - faulty;
    assert c.authorities.Keys - honest == c.authorities.Keys * faulty;
    StakeMonotone(c, c.authorities.Keys * faulty, faulty);
    ThresholdsComplement(c, honest);
  }
}
