/** Flattening the sub-DAG of a leader into the batch it commits. */
module SubDag {
  import opened Basics
  import opened Dag
  import opened TuskState

  /** Entries sit at their own round and author, digests name them, and only
      parentless certificates sit at round 0. */
  ghost predicate Keyed(dag: RoundMap) {
    && (forall r: Round, name: PublicKey :: Has(dag, r, name) ==>
      dag[r][name].round == r && dag[r][name].origin == name)
    && (forall x, y :: Holds(dag, x) && Holds(dag, y) && x.digest == y.digest ==> x == y)
    && (forall x :: Holds(dag, x) && x.round == 0 ==> x.parents == [])
  }

  /** The author's last committed round is exactly this one. */
  predicate Skipped(v: View, x: Certificate) {
    x.origin in v.lastCommitted && v.lastCommitted[x.origin] == x.round
  }

  /** The traversal moves from `a` to its parent `p`. */
  predicate Step(v: View, a: Certificate, p: Certificate) {
    Holds(v.dag, p) && p.round + 1 == a.round && p.digest in a.parents && !Skipped(v, p)
  }

  ghost predicate Flows(v: View, a: Certificate, b: Certificate)
    decreases a.round
  {
    a == b || exists p :: Step(v, a, p) && Flows(v, p, b)
  }

  lemma {:induction false} FlowsSnoc(v: View, a: Certificate, y: Certificate, b: Certificate)
    requires Flows(v, a, y) && Step(v, y, b)
    ensures Flows(v, a, b)
    decreases a.round
  {
    if a == y {
      assert Flows(v, b, b);
    } else {
      var p :| Step(v, a, p) && Flows(v, p, y);
      FlowsSnoc(v, p, y, b);
    }
  }

  lemma {:induction false} FlowsRound(v: View, a: Certificate, b: Certificate)
    requires Flows(v, a, b)
    ensures a == b || (b.round < a.round && Holds(v.dag, b) && !Skipped(v, b))
    decreases a.round
  {
    if a != b {
      var p :| Step(v, a, p) && Flows(v, p, b);
      FlowsRound(v, p, b);
    }
  }

  /** A set closed under the traversal's moves holds everything it reaches. */
  lemma {:induction false} FlowsStaysIn(v: View, s: set<Certificate>, a: Certificate, b: Certificate)
    requires forall x, p :: x in s && Step(v, x, p) ==> p in s
    requires a in s && Flows(v, a, b)
    ensures b in s
    decreases a.round
  {
    if a != b {
      var p :| Step(v, a, p) && Flows(v, p, b);
      FlowsStaysIn(v, s, p, b);
    }
  }

  // ---------------------------------------------------------------------
  // Stable sort by round
  // ---------------------------------------------------------------------

  ghost predicate SortedByRound(s: seq<Certificate>) {
    forall i, j :: 0 <= i < j < |s| ==> s[i].round <= s[j].round
  }

  function InsertByRound(x: Certificate, s: seq<Certificate>): seq<Certificate> {
    if s == [] then [x]
    else if x.round <= s[0].round then [x] + s
    else [s[0]] + InsertByRound(x, s[1..])
  }

  function SortByRound(s: seq<Certificate>): seq<Certificate> {
    if s == [] then [] else InsertByRound(s[0], SortByRound(s[1..]))
  }

  lemma {:induction false} InsertKeeps(x: Certificate, s: seq<Certificate>)
    ensures multiset(InsertByRound(x, s)) == multiset([x]) + multiset(s)
  {
    if s != [] {
      assert s == [s[0]] + s[1..];
      InsertKeeps(x, s[1..]);
    }
  }

  lemma {:induction false} InsertSorts(x: Certificate, s: seq<Certificate>)
    requires SortedByRound(s)
    ensures SortedByRound(InsertByRound(x, s))
  {
    if s != [] && x.round > s[0].round {
      var rest := InsertByRound(x, s[1..]);
      InsertSorts(x, s[1..]);
      InsertKeeps(x, s[1..]);
      forall i | 0 <= i < |rest|
        ensures s[0].round <= rest[i].round
      {
        assert rest[i] in multiset(rest);
        assert rest[i] == x || rest[i] in s[1..];
      }
    }
  }

  lemma {:induction false} SortByRoundCorrect(s: seq<Certificate>)
    ensures multiset(SortByRound(s)) == multiset(s)
    ensures SortedByRound(SortByRound(s))
  {
    if s != [] {
      assert s == [s[0]] + s[1..];
      SortByRoundCorrect(s[1..]);
      InsertKeeps(s[0], SortByRound(s[1..]));
      InsertSorts(s[0], SortByRound(s[1..]));
    }
  }

  function Retain(s: seq<Certificate>, v: View, gcDepth: Round): (r: seq<Certificate>)
    ensures forall x :: x in r <==> x in s && x.round + gcDepth >= v.lastCommittedRound
    ensures Distinct(s) ==> Distinct(r)
  {
    if s == [] then []
    else
      assert s == [s[0]] + s[1..];
      (if s[0].round + gcDepth >= v.lastCommittedRound then [s[0]] else []) + Retain(s[1..], v, gcDepth)
  }

  /** The certificates of one round, in the order listed. */
  function OfRound(s: seq<Certificate>, r: Round): seq<Certificate> {
    if s == [] then [] else (if s[0].round == r then [s[0]] else []) + OfRound(s[1..], r)
  }

  lemma {:induction false} InsertIsStable(x: Certificate, s: seq<Certificate>, r: Round)
    requires SortedByRound(s)
    ensures OfRound(InsertByRound(x, s), r) == OfRound([x] + s, r)
  {
    assert ([x] + s)[1..] == s;
    if s != [] && x.round > s[0].round {
      InsertIsStable(x, s[1..], r);
      assert ([x] + s[1..])[1..] == s[1..];
      assert ([s[0]] + InsertByRound(x, s[1..]))[1..] == InsertByRound(x, s[1..]);
    }
  }

  /** Certificates of one round keep their order. */
  lemma {:induction false} SortIsStable(s: seq<Certificate>, r: Round)
    ensures OfRound(SortByRound(s), r) == OfRound(s, r)
  {
    if s != [] {
      var rest := SortByRound(s[1..]);
      SortIsStable(s[1..], r);
      SortByRoundCorrect(s[1..]);
      InsertIsStable(s[0], rest, r);
      assert ([s[0]] + rest)[1..] == rest;
    }
  }

  lemma {:induction false} RetainKeepsRounds(s: seq<Certificate>, v: View, gcDepth: Round, r: Round)
    requires r + gcDepth >= v.lastCommittedRound
    ensures OfRound(Retain(s, v, gcDepth), r) == OfRound(s, r)
  {
    if s != [] {
      RetainKeepsRounds(s[1..], v, gcDepth, r);
      var rest := Retain(s[1..], v, gcDepth);
      if s[0].round + gcDepth >= v.lastCommittedRound {
        assert Retain(s, v, gcDepth) == [s[0]] + rest && ([s[0]] + rest)[1..] == rest;
      } else {
        assert Retain(s, v, gcDepth) == [] + rest == rest;
        assert OfRound(s, r) == [] + OfRound(s[1..], r);
      }
    }
  }

  // ---------------------------------------------------------------------
  // The traversal
  // ---------------------------------------------------------------------

  /** The certificate in memory with that round and digest. */
  ghost function Found(v: View, round: int, digest: Digest): Option<Certificate> {
    if exists p :: Holds(v.dag, p) && p.round == round && p.digest == digest then
      var p :| Holds(v.dag, p) && p.round == round && p.digest == digest;
      Some(p)
    else None
  }

  ghost function DigestsOf(s: seq<Certificate>): set<Digest> {
    set x | x in s :: x.digest
  }

  /** What the first `i` parents of `x` push: those in memory, in the order of the parents,
      that were not pushed before and are not skipped. */
  ghost function Pushed(v: View, x: Certificate, marked: set<Digest>, i: nat): seq<Certificate>
    requires i <= |x.parents|
  {
    if i == 0 then [] else
      var before := Pushed(v, x, marked, i - 1);
      var found := Found(v, x.round - 1, x.parents[i - 1]);
      if found.Some? && x.parents[i - 1] !in marked + DigestsOf(before) && !Skipped(v, found.value)
      then before + [found.value]
      else before
  }

  lemma {:induction false} PushedIsNew(v: View, x: Certificate, marked: set<Digest>, i: nat)
    requires i <= |x.parents|
    ensures DigestsOf(Pushed(v, x, marked, i)) <= Entries(v.dag) - marked
  {
    if i > 0 {
      PushedIsNew(v, x, marked, i - 1);
    }
  }

  /** Depth-first from the top of the stack, each certificate before what it pushes. */
  ghost function Visit(v: View, stack: seq<Certificate>, marked: set<Digest>): seq<Certificate>
    decreases Entries(v.dag) - marked, |stack|
  {
    if stack == [] then [] else
      var n := |stack| - 1;
      var pushed := Pushed(v, stack[n], marked, |stack[n].parents|);
      VisitEnds(v, stack[n], marked, pushed);
      [stack[n]] + Visit(v, stack[..n] + pushed, marked + DigestsOf(pushed))
  }

  lemma VisitEnds(v: View, x: Certificate, marked: set<Digest>, pushed: seq<Certificate>)
    requires pushed == Pushed(v, x, marked, |x.parents|)
    ensures pushed == [] || Entries(v.dag) - (marked + DigestsOf(pushed)) < Entries(v.dag) - marked
    ensures pushed == [] ==> marked + DigestsOf(pushed) == marked
  {
    hide Entries;
    PushedIsNew(v, x, marked, |x.parents|);
    if pushed != [] {
      assert pushed[0].digest in DigestsOf(pushed);
    }
  }

  // ---------------------------------------------------------------------
  // order_dag
  // ---------------------------------------------------------------------

  method FindParent(v: View, round: Round, parent: Digest) returns (found: Option<Certificate>)
    requires Keyed(v.dag)
    ensures found.Some? ==> Holds(v.dag, found.value) && found.value.round == round && found.value.digest == parent
    ensures found.None? ==> forall p :: Holds(v.dag, p) && p.round == round ==> p.digest != parent
  {
    found := None;
    if round in v.dag {
      var names := v.dag[round].Keys;
      while names != {}
        invariant names <= v.dag[round].Keys
        invariant forall p :: Holds(v.dag, p) && p.round == round && p.digest == parent ==> p.origin in names
        decreases names
      {
        var name :| name in names;
        assert Has(v.dag, round, name);
        if v.dag[round][name].digest == parent {
          return Some(v.dag[round][name]);
        }
        names := names - {name};
      }
    }
  }

  /** The exact content of a flattened sub-DAG, and its order. */
  ghost predicate Flattened(v: View, leader: Certificate, gcDepth: Round, xs: seq<Certificate>) {
    && Distinct(xs) && SortedByRound(xs)
    && (forall x :: x in xs <==> Flows(v, leader, x) && x.round + gcDepth >= v.lastCommittedRound)
    && VisitOrder(v, leader, gcDepth, xs)
  }

  /** Within a round, in the order of the traversal. */
  ghost predicate VisitOrder(v: View, leader: Certificate, gcDepth: Round, xs: seq<Certificate>) {
    forall r: Round {:trigger OfRound(xs, r)} :: r + gcDepth >= v.lastCommittedRound ==>
      OfRound(xs, r) == OfRound(Visit(v, [leader], {}), r)
  }

  ghost predicate Traversed(v: View, leader: Certificate, seen: seq<Certificate>, marked: set<Digest>) {
    && Distinct(seen) && leader in seen
    && (forall x :: x in seen ==> Flows(v, leader, x))
    && (forall x :: x in seen && x != leader ==> x.digest in marked)
    && (forall x :: Holds(v.dag, x) && x.digest in marked ==> x in seen)
  }

  lemma TraverseOne(v: View, leader: Certificate, seen: seq<Certificate>, marked: set<Digest>, x: Certificate,
      p: Certificate)
    requires Keyed(v.dag) && Traversed(v, leader, seen, marked)
    requires x in seen && Step(v, x, p) && p.digest !in marked
    ensures Traversed(v, leader, seen + [p], marked + {p.digest})
  {
    hide Flows, Skipped;
    FlowsSnoc(v, leader, x, p);
    FlowsRound(v, leader, x);
    assert p != leader;
    DistinctAppend(seen, p);
  }

  /** `seen` lists everything pushed so far; it is spread over the output and
      the stack. Whatever is in the output has had all its parents pushed. */
  ghost predicate Progress(v: View, leader: Certificate, seen: seq<Certificate>, marked: set<Digest>,
      ordered: seq<Certificate>, buffer: seq<Certificate>) {
    && Traversed(v, leader, seen, marked)
    && multiset(ordered) + multiset(buffer) == multiset(seen)
    && forall x, p :: x in ordered && Step(v, x, p) ==> p in seen
  }

  method OrderDag(v: View, leader: Certificate, gcDepth: Round) returns (ordered: seq<Certificate>)
    requires Keyed(v.dag) && leader.round > 0
    ensures Flattened(v, leader, gcDepth, ordered)
  {
    hide Flows, Step, Flattened, Skipped, Keyed, Entries, Pushed, DigestsOf, Traversed, Progress, Visit;
    ordered := [];
    var alreadyOrdered: set<Digest> := {};
    var buffer := [leader];
    ghost var seen := [leader];
    ghost var entries := Entries(v.dag);
    ProgressStarts(v, leader);
    assert [] + Visit(v, buffer, {}) == Visit(v, buffer, {});

    while buffer != []
      invariant Progress(v, leader, seen, alreadyOrdered, ordered, buffer)
      invariant Visit(v, [leader], {}) == ordered + Visit(v, buffer, alreadyOrdered)
      decreases entries - alreadyOrdered, |buffer|
    {
      var x := buffer[|buffer| - 1];
      VisitNext(v, buffer, alreadyOrdered, ordered);
      TopIsSeen(v, leader, seen, alreadyOrdered, ordered, buffer);
      ghost var stack, marked := buffer, alreadyOrdered;
      buffer := buffer[..|buffer| - 1];
      ghost var pushed;
      buffer, alreadyOrdered, pushed := PushParents(v, leader, x, buffer, alreadyOrdered, seen, entries);
      ProgressNext(v, leader, seen, marked, ordered, stack, pushed, alreadyOrdered);
      seen := seen + pushed;
      ordered := ordered + [x];
    }
    VisitEmpty(v, alreadyOrdered);
    assert ordered + [] == ordered;
    TraversalComplete(v, leader, seen, alreadyOrdered, ordered, gcDepth);
    ordered := SortByRound(Retain(ordered, v, gcDepth));
  }

  lemma VisitEmpty(v: View, marked: set<Digest>)
    ensures Visit(v, [], marked) == []
  {
  }

  lemma VisitNext(v: View, stack: seq<Certificate>, marked: set<Digest>, ordered: seq<Certificate>)
    requires stack != []
    ensures var n := |stack| - 1;
      var pushed := Pushed(v, stack[n], marked, |stack[n].parents|);
      ordered + Visit(v, stack, marked) ==
      ordered + [stack[n]] + Visit(v, stack[..n] + pushed, marked + DigestsOf(pushed))
  {
    hide Pushed, DigestsOf;
  }

  lemma TopIsSeen(v: View, leader: Certificate, seen: seq<Certificate>, marked: set<Digest>,
      ordered: seq<Certificate>, buffer: seq<Certificate>)
    requires Progress(v, leader, seen, marked, ordered, buffer) && buffer != []
    ensures Traversed(v, leader, seen, marked) && buffer[|buffer| - 1] in seen
  {
    hide Traversed, Step;
    assert buffer[|buffer| - 1] in multiset(seen);
  }

  /** The top of the stack moves to the output, what it pushes takes its place. */
  lemma ProgressNext(v: View, leader: Certificate, seen: seq<Certificate>, marked: set<Digest>,
      ordered: seq<Certificate>, buffer: seq<Certificate>, pushed: seq<Certificate>, marked': set<Digest>)
    requires Progress(v, leader, seen, marked, ordered, buffer) && buffer != []
    requires Traversed(v, leader, seen + pushed, marked')
    requires forall p :: Step(v, buffer[|buffer| - 1], p) ==> p in seen + pushed
    ensures var n := |buffer| - 1;
      Progress(v, leader, seen + pushed, marked', ordered + [buffer[n]], buffer[..n] + pushed)
  {
    hide Traversed, Step;
    var n := |buffer| - 1;
    assert buffer == buffer[..n] + [buffer[n]];
  }

  /** The digests of everything in memory. */
  ghost function Entries(dag: RoundMap): (entries: set<Digest>)
    ensures forall p :: Holds(dag, p) ==> p.digest in entries
  {
    set r, name | r in dag && name in dag[r] :: dag[r][name].digest
  }

  lemma ProgressStarts(v: View, leader: Certificate)
    requires Keyed(v.dag)
    ensures Progress(v, leader, [leader], {}, [], [leader])
  {
  }

  lemma TraversalComplete(v: View, leader: Certificate, seen: seq<Certificate>, marked: set<Digest>,
      ordered: seq<Certificate>, gcDepth: Round)
    requires Progress(v, leader, seen, marked, ordered, []) && ordered == Visit(v, [leader], {})
    ensures Flattened(v, leader, gcDepth, SortByRound(Retain(ordered, v, gcDepth)))
  {
    hide Flows, Step, SortByRound, Visit, OfRound;
    assert multiset(ordered) == multiset(seen);
    MultisetDistinct(seen, ordered);
    forall x | Flows(v, leader, x)
      ensures x in ordered
    {
      FlowsStaysIn(v, Elements(ordered), leader, x);
    }
    var kept := Retain(ordered, v, gcDepth);
    SortByRoundCorrect(kept);
    MultisetDistinct(kept, SortByRound(kept));
    forall r: Round | r + gcDepth >= v.lastCommittedRound
      ensures OfRound(SortByRound(kept), r) == OfRound(ordered, r)
    {
      SortIsStable(kept, r);
      RetainKeepsRounds(ordered, v, gcDepth, r);
    }
  }

  lemma SeenHaveRounds(v: View, leader: Certificate, seen: seq<Certificate>, marked: set<Digest>, x: Certificate)
    requires Keyed(v.dag) && leader.round > 0 && Traversed(v, leader, seen, marked) && x in seen
    ensures x.round > 0 || x.parents == []
  {
    hide Flows;
    FlowsRound(v, leader, x);
  }

  /** What was pushed before is listed. */
  lemma MarkedIsSeen(v: View, leader: Certificate, seen: seq<Certificate>, marked: set<Digest>, p: Certificate)
    requires Traversed(v, leader, seen, marked) && Holds(v.dag, p) && p.digest in marked
    ensures p in seen
  {
    hide Flows;
  }

  lemma FoundIsUnique(v: View, round: int, digest: Digest, found: Option<Certificate>)
    requires Keyed(v.dag)
    requires found.Some? ==> Holds(v.dag, found.value) && found.value.round == round && found.value.digest == digest
    requires found.None? ==> forall p :: Holds(v.dag, p) && p.round == round ==> p.digest != digest
    ensures found == Found(v, round, digest)
  {
  }

  lemma NoDigestsOf()
    ensures DigestsOf([]) == {}
  {
  }

  lemma DigestsSnoc(s: seq<Certificate>, x: Certificate)
    ensures DigestsOf(s + [x]) == DigestsOf(s) + {x.digest}
  {
    forall d
      ensures d in DigestsOf(s + [x]) <==> d in DigestsOf(s) || d == x.digest
    {
      if d in DigestsOf(s) {
        var y :| y in s && y.digest == d;
        assert y in s + [x];
      }
      if d == x.digest {
        assert x in s + [x];
      }
    }
  }

  /** The inner loop: push each parent that is neither pushed before nor skipped. */
  method PushParents(v: View, ghost leader: Certificate, x: Certificate, stack: seq<Certificate>, marked: set<Digest>,
                     ghost seen: seq<Certificate>, ghost entries: set<Digest>)
    returns (buffer: seq<Certificate>, alreadyOrdered: set<Digest>, ghost pushed: seq<Certificate>)
    requires Keyed(v.dag) && leader.round > 0 && Traversed(v, leader, seen, marked) && x in seen
    requires entries == Entries(v.dag)
    ensures buffer == stack + pushed && Traversed(v, leader, seen + pushed, alreadyOrdered)
    ensures pushed == Pushed(v, x, marked, |x.parents|) && alreadyOrdered == marked + DigestsOf(pushed)
    ensures forall p :: Step(v, x, p) ==> p in seen + pushed
    ensures (alreadyOrdered == marked && pushed == []) || entries - alreadyOrdered < entries - marked
  {
    hide Flows, Entries, Traversed, Skipped, DigestsOf, Found;
    assert DigestsOf([]) == {} by {
      NoDigestsOf();
    }
    buffer, alreadyOrdered, pushed := stack, marked, [];
    SeenHaveRounds(v, leader, seen, marked, x);
    assert seen + pushed == seen;
    var i := 0;
    while i < |x.parents|
      invariant 0 <= i <= |x.parents|
      invariant buffer == stack + pushed && Traversed(v, leader, seen + pushed, alreadyOrdered)
      invariant forall p :: Step(v, x, p) && p.digest in x.parents[..i] ==> p in seen + pushed
      invariant (alreadyOrdered == marked && pushed == []) || entries - alreadyOrdered < entries - marked
      invariant pushed == Pushed(v, x, marked, i) && alreadyOrdered == marked + DigestsOf(pushed)
    {
      var parent := x.parents[i];
      assert x.parents[..i + 1] == x.parents[..i] + [parent];
      var found := FindParent(v, x.round - 1, parent);
      FoundIsUnique(v, x.round - 1, parent, found);
      if found.Some? {
        if parent in alreadyOrdered {
          MarkedIsSeen(v, leader, seen + pushed, alreadyOrdered, found.value);
        }
        var skip := parent in alreadyOrdered || Skipped(v, found.value);
        if !skip {
          TraverseOne(v, leader, seen + pushed, alreadyOrdered, x, found.value);
          assert seen + pushed + [found.value] == seen + (pushed + [found.value]);
          DigestsSnoc(pushed, found.value);
          buffer := buffer + [found.value];
          pushed := pushed + [found.value];
          alreadyOrdered := alreadyOrdered + {parent};
        }
      }
      i := i + 1;
    }
    assert x.parents[..i] == x.parents;
  }
}
