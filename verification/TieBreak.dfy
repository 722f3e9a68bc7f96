/** The deterministic order that settles whatever the verdicts leave open. */
module TieBreak {
  import opened Basics
  import opened Dag

  /** `a` comes strictly before `b`: by round, author and digest when both
      certificates are stored, by digest alone otherwise. */
  predicate TieLess(store: History, a: Digest, b: Digest) {
    if a in store && b in store then
      store[a].round < store[b].round
      || (store[a].round == store[b].round
          && (store[a].origin < store[b].origin || (store[a].origin == store[b].origin && a < b)))
    else a < b
  }

  /** On stored digests this is a strict total order. */
  lemma TieLessTotal(store: History, a: Digest, b: Digest, c: Digest)
    requires a in store && b in store && c in store
    ensures !TieLess(store, a, a)
    ensures TieLess(store, a, b) || TieLess(store, b, a) || a == b
    ensures TieLess(store, a, b) && TieLess(store, b, c) ==> TieLess(store, a, c)
  {
  }

  /** Without the stores' agreement it is not even transitive: 5 is stored at round
      1 and 3 at round 2, so 5 < 3, while the unstored 4 sits between them by digest. */
  lemma MixedOrdersCycle()
    ensures exists store: History :: TieLess(store, 3, 4) && TieLess(store, 4, 5) && TieLess(store, 5, 3)
  {
    var store: History := map[3 := Certificate(3, 0, 2, []), 5 := Certificate(5, 0, 1, [])];
    assert TieLess(store, 3, 4) && TieLess(store, 4, 5) && TieLess(store, 5, 3);
  }

  ghost predicate IsLeast(store: History, s: set<Digest>, m: Digest) {
    m in s && forall y :: y in s ==> y == m || TieLess(store, m, y)
  }

  lemma {:induction false} LeastOfExists(store: History, s: set<Digest>)
    requires s != {} && s <= store.Keys
    ensures exists m :: IsLeast(store, s, m)
  {
    var x :| x in s;
    var t := s - {x};
    assert forall y :: y in s ==> y == x || y in t;
    if t == {} {
      assert IsLeast(store, s, x);
    } else {
      LeastOfExists(store, t);
      var m :| IsLeast(store, t, m);
      var least := if TieLess(store, x, m) then x else m;
      assert IsLeast(store, s, least);
    }
  }

  function LeastOf(store: History, s: set<Digest>): (m: Digest)
    requires s != {} && s <= store.Keys
    ensures m in s && forall y :: y in s ==> y == m || TieLess(store, m, y)
  {
    LeastOfExists(store, s);
    assert exists m :: m in s && forall y :: y in s ==> y == m || TieLess(store, m, y) by {
      var m :| IsLeast(store, s, m);
    }
    var m :| m in s && forall y :: y in s ==> y == m || TieLess(store, m, y);
    m
  }

  /** The elements of a set in ascending order: what sorting any listing of distinct
      stored digests returns. */
  function Ascending(store: History, s: set<Digest>): seq<Digest>
    requires s <= store.Keys
  {
    if s == {} then [] else
      var m := LeastOf(store, s);
      [m] + Ascending(store, s - {m})
  }

  ghost predicate TieSorted(store: History, s: seq<Digest>) {
    forall i, j :: 0 <= i < j < |s| ==> TieLess(store, s[i], s[j])
  }

  lemma PrependLeast(store: History, m: Digest, rest: seq<Digest>, s: set<Digest>)
    requires IsLeast(store, s, m) && Elements(rest) == s - {m} && Distinct(rest) && TieSorted(store, rest)
    ensures Elements([m] + rest) == s && Distinct([m] + rest) && TieSorted(store, [m] + rest)
  {
    hide TieLess;
    assert forall i :: 0 <= i < |rest| ==> rest[i] in Elements(rest);
    assert forall x :: x in [m] + rest <==> x == m || x in Elements(rest);
    assert Elements([m] + rest) == s;
  }

  lemma {:induction false} AscendingIsSorted(store: History, s: set<Digest>)
    requires s <= store.Keys
    ensures Elements(Ascending(store, s)) == s && Distinct(Ascending(store, s))
    ensures TieSorted(store, Ascending(store, s))
  {
    if s != {} {
      var m := LeastOf(store, s);
      var rest := Ascending(store, s - {m});
      AscendingIsSorted(store, s - {m});
      assert Ascending(store, s) == [m] + rest;
      hide Ascending, TieLess;
      PrependLeast(store, m, rest, s);
    }
  }

  /** The sorted listing is unique, so no input order can show through. */
  lemma {:induction false} SortedIsAscending(store: History, s: seq<Digest>)
    requires Elements(s) <= store.Keys && TieSorted(store, s)
    ensures s == Ascending(store, Elements(s))
  {
    if s != [] {
      var rest := s[1..];
      assert s == [s[0]] + rest;
      forall k | 0 <= k < |rest|
        ensures rest[k] != s[0]
      {
        assert TieLess(store, s[0], s[k + 1]);
      }
      assert Elements(rest) == Elements(s) - {s[0]};
      assert forall y :: y in s ==> y == s[0] || TieLess(store, s[0], y);
      assert s[0] in Elements(s);
      assert LeastOf(store, Elements(s)) == s[0];
      SortedIsAscending(store, rest);
    }
  }
}
