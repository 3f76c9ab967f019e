/** Searches that lose a path: what the cost table keeps out of the queue, and
    two families of graphs in which a wanted path stays out. */
module SearchTraps {
  import opened AccessGraph
  import opened Sequences
  import opened PathSearch
  import opened SearchInvariants
  import opened SearchTheorems
  import opened AttackPathService
  import opened PathScore

  // --------------------------------------------------- the table and the states

  /** The table knows every generated state and nothing dearer. */
  ghost predicate Tabled(p: Progress)
  {
    forall y :: Known(p, y) && y.Hops() > 0 ==> InTable(p.best, y)
  }

  predicate InTable(best: Best, y: Route)
  {
    (y.Source(), y.End()) in best && best[(y.Source(), y.End())] <= y.cost
  }

  lemma {:induction false} ExpandTabled(q: Search, cur: Route, adj: seq<Relationship>, best: Best, y: Route)
    requires !q.algorithm.All? && IsRoute(q, cur) && y in Expand(q, cur, adj, best).routes
    requires forall e :: e in adj ==> e in Adjacent(q, cur.End())
    ensures InTable(Expand(q, cur, adj, best).best, y)
  {
    var i := |adj| - 1;
    var x := Expand(q, cur, adj[..i], best);
    if y in x.routes {
      ExpandTabled(q, cur, adj[..i], best, y);
      ExpandBest(q, cur, [adj[i]], x.best, (y.Source(), y.End()));
      ExpandLast(q, cur, adj, best);
    }
  }

  lemma ExpandLast(q: Search, cur: Route, adj: seq<Relationship>, best: Best)
    requires adj != []
    ensures Expand(q, cur, adj, best).best == Expand(q, cur, [adj[|adj| - 1]], Expand(q, cur, adj[..|adj| - 1], best).best).best
  {
    var e := adj[|adj| - 1];
    assert [e][..0] == [];
  }

  /** Only what beats the table is pushed. */
  lemma {:induction false} ExpandBeatsTable(q: Search, cur: Route, adj: seq<Relationship>, best: Best, y: Route)
    requires !q.algorithm.All? && cur.nodes != [] && y in Expand(q, cur, adj, best).routes
    ensures (y.Source(), y.End()) in best ==> y.cost < best[(y.Source(), y.End())]
  {
    var i := |adj| - 1;
    var x := Expand(q, cur, adj[..i], best);
    if y in x.routes {
      ExpandBeatsTable(q, cur, adj[..i], best, y);
    } else {
      ExpandBest(q, cur, adj[..i], best, (y.Source(), y.End()));
    }
  }

  lemma StepKeepsTabled(q: Search, p: Progress)
    requires Inv(q, p) && Tabled(p) && p.queue != [] && !q.algorithm.All?
    ensures Tabled(Step(q, p))
  {
    var p' := Step(q, p);
    var cur := Picked(q, p);
    StepShape(q, p);
    assert Known(p, cur);
    forall y | Known(p', y) && y.Hops() > 0 ensures InTable(p'.best, y) {
      if y in Pushed(q, p).routes {
        ExpandTabled(q, cur, Adjacent(q, cur.End()), p.best, y);
      } else if Expandable(q, cur) {
        ExpandBest(q, cur, Adjacent(q, cur.End()), p.best, (y.Source(), y.End()));
      }
    }
  }

  /** `d` is not generated by any turn of a sound search. */
  ghost predicate KeptOut(q: Search, d: Route)
  {
    forall p :: Inv(q, p) && Tabled(p) && p.queue != [] ==> d !in Pushed(q, p).routes
  }

  lemma {:induction false} NeverKnown(q: Search, p: Progress, d: Route)
    requires Wellformed(q) && !q.algorithm.All? && Inv(q, p) && Tabled(p)
    requires KeptOut(q, d) && !Known(p, d)
    ensures !Known(Explore(q, p), d)
    decreases Measure(q, p.queue)
  {
    if !Done(q, p) {
      StepShape(q, p);
      StepKeepsInv(q, p);
      StepKeepsTabled(q, p);
      StepDescends(q, p);
      NeverKnown(q, Step(q, p), d);
    }
  }

  lemma KeptOutOfSearch(q: Search, d: Route)
    requires Wellformed(q) && !q.algorithm.All? && KeptOut(q, d) && d.Hops() > 0
    ensures !Known(Discovered(q), d)
  {
    InitialInv(q);
    NeverKnown(q, Initial(q), d);
  }

  lemma PrefixOfPrefix<T>(s: seq<T>, m: nat, k: nat)
    requires k <= m <= |s|
    ensures s[..m][..k] == s[..k]
  {
  }

  /** The prefixes of a generated state have been generated. */
  lemma {:induction false} PrefixKnown(q: Search, p: Progress, y: Route, k: nat) returns (z: Route)
    requires Inv(q, p) && Known(p, y) && k <= y.Hops()
    ensures Known(p, z) && z.nodes == y.nodes[..k + 1] && z.rels == y.rels[..k]
    decreases y.Hops()
  {
    if k == y.Hops() {
      z := y;
    } else {
      z := PrefixKnown(q, p, Parent(y), k);
      PrefixOfPrefix(y.nodes, y.Hops(), k + 1);
      PrefixOfPrefix(y.rels, y.Hops() - 1, k);
    }
  }

  lemma NothingReturned(q: Search)
    requires Wellformed(q) && forall r :: Known(Discovered(q), r) ==> !Qualifies(q, r)
    ensures Returned(q) == []
  {
    ReturnedIsFound(q);
    FoundInOrder(q);
    if Returned(q) != [] {
      var y := Returned(q)[0];
      assert y in Discovered(q).found && Known(Discovered(q), y) && Qualifies(q, y);
    }
  }

  // --------------------------------------------------------------- the families

  ghost predicate Numbered(q: Search, n: nat)
  {
    |q.graph.nodes| == n && forall i :: 0 <= i < n ==> q.graph.nodes[i] == i
  }

  lemma NumberedNode(q: Search, n: nat, k: nat)
    requires Numbered(q, n) && k < n
    ensures k in q.graph.nodes
  {
    assert q.graph.nodes[k] == k;
  }

  ghost predicate Hop(e: Relationship, id: nat, from: NodeId, to: NodeId, w: nat)
  {
    e.id == id && e.source == from && e.target == to && EdgeWeight(e.kind) == w
  }

  ghost predicate FromZero(q: Search, t: NodeId)
  {
    && !q.algorithm.All? && q.directed && q.sources == [0] && q.targets == {t} && q.maxPaths > 0
    && forall e :: e in q.graph.relationships ==> e.kind in q.allowed
  }

  // ----------------------------------------- two relationships side by side

  /** Two relationships of equal weight from node 0 to node 1; only the path over
      the second one, which comes later in the order of ids, meets the score. */
  ghost predicate SideBySide(q: Search, e0: Relationship, e1: Relationship, n: nat)
  {
    && n >= 2 && Numbered(q, n) && FromZero(q, 1)
    && q.graph.relationships == [e0, e1] && Hop(e0, 0, 0, 1, 2) && Hop(e1, 1, 0, 1, 2)
    && forall r: Route :: (r.rels == [e0] ==> q.score(r) < q.minimumScore) && (r.rels == [e1] ==> q.score(r) >= q.minimumScore)
  }

  lemma BothIncident(q: Search, e0: Relationship, e1: Relationship)
    requires q.directed && e0.kind in q.allowed && e1.kind in q.allowed && e0.source == e1.source
    ensures Incident(q, [e0, e1], e0.source) == [e0, e1]
  {
    var es := [e0, e1];
    assert es[..0] == [] && es[..2] == es;
    IncidentNext(q, es, 0, e0.source);
    assert Incident(q, es[..1], e0.source) == [e0];
    IncidentNext(q, es, 1, e0.source);
  }

  lemma BothAdjacent(q: Search, e0: Relationship, e1: Relationship, n: nat)
    requires SideBySide(q, e0, e1, n)
    ensures Adjacent(q, 0) == [e0, e1]
  {
    assert e0 in q.graph.relationships && e1 in q.graph.relationships;
    BothIncident(q, e0, e1);
    SortOfTwo(e0, e1);
  }

  lemma SortOfTwo(e0: Relationship, e1: Relationship)
    requires e0.id <= e1.id
    ensures Sort(IdOrder(), [e0, e1]) == [e0, e1]
  {
    var lt := IdOrder();
    assert !lt(e1, e0);
    SortOfSorted(lt, [e0, e1]);
  }

  /** Whatever the table holds, the first relationship keeps out the second. */
  lemma SecondIsKeptOut(q: Search, e0: Relationship, e1: Relationship, n: nat)
    requires SideBySide(q, e0, e1, n)
    ensures KeptOut(q, Extend(Origin(0), e1, 1))
  {
    var d := Extend(Origin(0), e1, 1);
    forall p | Inv(q, p) && Tabled(p) && p.queue != [] ensures d !in Pushed(q, p).routes {
      if d in Pushed(q, p).routes {
        var cur := Picked(q, p);
        StepShape(q, p);
        assert Known(p, cur);
        ExpandSound(q, cur, Adjacent(q, cur.End()), p.best, d);
        assert Parent(d) == Origin(0) by { ParentOfOneHop(e1); }
        BothAdjacent(q, e0, e1, n);
        SecondNotPushed(q, e0, e1, p.best);
      }
    }
  }

  lemma ParentOfOneHop(e: Relationship)
    ensures Parent(Extend(Origin(0), e, 1)) == Origin(0)
  {
  }

  lemma SecondNotPushed(q: Search, e0: Relationship, e1: Relationship, best: Best)
    requires !q.algorithm.All? && Hop(e0, 0, 0, 1, 2) && Hop(e1, 1, 0, 1, 2) && 1 in q.graph.nodes
    ensures Extend(Origin(0), e1, 1) !in Expand(q, Origin(0), [e0, e1], best).routes
  {
    var o, d := Origin(0), Extend(Origin(0), e1, 1);
    var x := Expand(q, o, [e0], best);
    assert [e0][..0] == [] && [e0, e1][..1] == [e0];
    assert Expand(q, o, [], best) == Expansion([], best);
    assert d.rels[0] == e1 && forall r :: r in x.routes ==> r.rels[0] == e0;
    assert (0, 1) in x.best && x.best[(0, 1)] <= 2;
  }

  lemma SideBySideRoute(q: Search, e0: Relationship, e1: Relationship, n: nat, r: Route)
    requires SideBySide(q, e0, e1, n) && IsRoute(q, r) && Qualifies(q, r)
    ensures r == Extend(Origin(0), e1, 1)
  {
    assert Links(q, r.nodes[0], r.rels[0], r.nodes[0 + 1]);
    assert r.nodes[1] == 1 && r.End() == 1;
    assert r.rels == [r.rels[0]];
    ParentIsRoute(q, r);
    HopIsRoute(q, Parent(r));
  }

  lemma SideBySideFails(q: Search, e0: Relationship, e1: Relationship, n: nat) returns (r: Route)
    requires SideBySide(q, e0, e1, n) && Wellformed(q)
    ensures Returned(q) == [] && Rival(q, r) && Qualifies(q, r) && r.Hops() == 1
  {
    r := Extend(Origin(0), e1, 1);
    SecondIsKeptOut(q, e0, e1, n);
    KeptOutOfSearch(q, r);
    DiscoveredInv(q);
    forall y | Known(Discovered(q), y) ensures !Qualifies(q, y) {
      if Qualifies(q, y) {
        SideBySideRoute(q, e0, e1, n, y);
      }
    }
    NothingReturned(q);
    NumberedNode(q, n, 0);
    NumberedNode(q, n, 1);
    OriginIsRoute(q, 0);
    ExtendIsRoute(q, Origin(0), e1, 1);
  }

  lemma SetSideBySide(a: Algorithm, n: nat, depth: nat, minimum: int, floor: int) returns (q: Search, e0: Relationship, e1: Relationship)
    requires n >= 2 && floor < minimum <= MAX_SCORE && !a.All?
    ensures SideBySide(q, e0, e1, n) && Wellformed(q) && ScoredByService(q, floor)
    ensures q.algorithm == a && q.maxDepth == depth && q.minimumScore == minimum
  {
    e0, e1 := Relationship(0, MemberOf, 0, 1), Relationship(1, HasSshKey, 0, 1);
    var base := if minimum - 4 >= floor then minimum - 4 else floor;
    q := Search(Graph(seq(n, i requires 0 <= i < n => i), [e0, e1]), a, [0], {1}, {MemberOf, HasSshKey}, true, depth, 1, minimum,
                (r: Route) => TotalScore(base, r.rels), (r: Route) => 0);
    ScoreOfOne(base, e0);
    ScoreOfOne(base, e1);
    var share := (ns: seq<NodeId>) => base;
    assert ScoredFrom(q, share, floor);
  }

  // ------------------------------------------------------ a detour that is cheap

  /** A cheap chain 0-1-...-(depth+1), whose last node is the target, and a dear
      relationship from 0 to 2 that would save the one hop too many. */
  ghost predicate Detour(q: Search, n: nat, depth: nat)
  {
    var es := q.graph.relationships;
    && 3 <= depth && depth + 2 <= n && Numbered(q, n) && FromZero(q, depth + 1)
    && q.algorithm.Weighted? && q.maxDepth == depth && (forall r :: q.score(r) >= q.minimumScore)
    && |es| == depth + 2 && Hop(es[0], 0, 0, 2, 4)
    && forall j :: 0 < j < |es| ==> Hop(es[j], j, j - 1, j, 1)
  }

  lemma DetourLink(q: Search, n: nat, depth: nat, u: NodeId, e: Relationship, v: NodeId)
    requires Detour(q, n, depth) && Links(q, u, e, v)
    ensures (u == 0 && v == 2 && e == q.graph.relationships[0]) || (v == u + 1 <= depth + 1 && e == q.graph.relationships[v])
  {
    var es := q.graph.relationships;
    var j :| 0 <= j < |es| && es[j] == e;
    assert if j == 0 then Hop(e, 0, 0, 2, 4) else Hop(e, j, j - 1, j, 1);
  }

  /** Routes go up, by one node at a time after the first hop. */
  lemma {:induction false} DetourRoute(q: Search, n: nat, depth: nat, r: Route, i: nat)
    requires Detour(q, n, depth) && IsRoute(q, r) && 1 <= i <= r.Hops()
    ensures r.nodes[0] == 0 && (r.nodes[1] == 1 || (r.nodes[1] == 2 && r.rels[0] == q.graph.relationships[0]))
    ensures r.nodes[i] == r.nodes[1] + i - 1
    ensures i >= 2 ==> r.nodes[i] < |q.graph.relationships| && r.rels[i - 1] == q.graph.relationships[r.nodes[i]]
  {
    assert Links(q, r.nodes[i - 1], r.rels[i - 1], r.nodes[i - 1 + 1]);
    DetourLink(q, n, depth, r.nodes[i - 1], r.rels[i - 1], r.nodes[i]);
    if i > 1 {
      DetourRoute(q, n, depth, r, i - 1);
    }
  }

  lemma DetourAhead(q: Search, n: nat, depth: nat, r: Route, v: NodeId)
    requires Detour(q, n, depth) && IsRoute(q, r) && v in r.nodes
    ensures v <= r.End()
  {
    var i :| 0 <= i < |r.nodes| && r.nodes[i] == v;
    if i > 0 {
      DetourRoute(q, n, depth, r, i);
      DetourRoute(q, n, depth, r, r.Hops());
    } else if r.Hops() > 0 {
      DetourRoute(q, n, depth, r, r.Hops());
    }
  }

  /** The cheap hop on from a popped state near the source is accounted for. */
  lemma DetourCovered(q: Search, n: nat, depth: nat, p: Progress, r: Route)
    requires Detour(q, n, depth) && Inv(q, p) && r in p.popped && r.End() <= 2 && r.Hops() <= 2
    ensures Reached(q, p, r.Source(), r.End() + 1, r.cost + 1)
  {
    var v := r.End() + 1;
    var e := q.graph.relationships[v];
    assert Hop(e, v, v - 1, v, 1) && e in q.graph.relationships;
    assert Known(p, r);
    NumberedNode(q, n, v);
    if v in r.nodes {
      DetourAhead(q, n, depth, r, v);
    }
    assert Expandable(q, r) && Links(q, r.End(), e, v);
    assert Covered(q, p, r, e, v);
  }

  /** It leads to a state that is popped before anything that costs 4. */
  lemma DetourNext(q: Search, n: nat, depth: nat, p: Progress, r: Route) returns (y: Route)
    requires Detour(q, n, depth) && Inv(q, p) && p.queue != [] && Priority(q, Picked(q, p)) >= 4
    requires r in p.popped && r.cost <= 2 && r.End() <= 2 && r.Hops() <= 2 && r.Source() == 0
    ensures y in p.popped && Joins(y, 0, r.End() + 1) && y.cost <= r.cost + 1 && y.Hops() <= y.cost
  {
    DetourCovered(q, n, depth, p, r);
    y :| Known(p, y) && Joins(y, 0, r.End() + 1) && Priority(q, y) <= r.cost + 1;
    HopsBelowWeight(y.rels);
    StepShape(q, p);
  }

  lemma {:induction false} HopsBelowWeight(rels: seq<Relationship>)
    ensures |rels| <= Weight(rels)
  {
    if rels != [] {
      HopsBelowWeight(rels[..|rels| - 1]);
    }
  }

  function DearHop(q: Search): Route
  {
    if q.graph.relationships == [] then Origin(0) else Extend(Origin(0), q.graph.relationships[0], 2)
  }

  lemma DearHopParent(q: Search)
    requires q.graph.relationships != []
    ensures Parent(DearHop(q)) == Origin(0)
  {
  }

  lemma DearHopStarts(q: Search, n: nat, depth: nat, p: Progress)
    requires Detour(q, n, depth) && Inv(q, p) && p.queue != [] && Picked(q, p) == DearHop(q)
    ensures Origin(0) in p.popped && Priority(q, Picked(q, p)) == 4
  {
    StepShape(q, p);
    assert Known(p, DearHop(q)) && DearHop(q).Hops() > 0;
    DearHopParent(q);
  }

  /** When the dear hop is taken off the queue, the cheap chain has reached node 3
      already. */
  lemma DetourBlocks(q: Search, n: nat, depth: nat, p: Progress)
    requires Detour(q, n, depth) && Inv(q, p) && Tabled(p) && p.queue != []
    requires Picked(q, p) == DearHop(q)
    ensures (0, 3) in p.best && p.best[(0, 3)] <= 3
  {
    DearHopStarts(q, n, depth, p);
    var y1 := DetourNext(q, n, depth, p, Origin(0));
    var y2 := DetourNext(q, n, depth, p, y1);
    var y3 := DetourNext(q, n, depth, p, y2);
    assert Known(p, y3) && InTable(p.best, y3);
  }

  /** The dear hop and one more. */
  function Shortcut(q: Search): Route
  {
    if |q.graph.relationships| < 4 then Origin(0) else Extend(DearHop(q), q.graph.relationships[3], 3)
  }

  /** So the shortcut costs more than the table allows, and stays out. */
  lemma ShortcutIsKeptOut(q: Search, n: nat, depth: nat)
    requires Detour(q, n, depth)
    ensures KeptOut(q, Shortcut(q))
  {
    var d := Shortcut(q);
    ShortcutParent(q);
    forall p | Inv(q, p) && Tabled(p) && p.queue != [] ensures d !in Pushed(q, p).routes {
      if d in Pushed(q, p).routes {
        var cur := Picked(q, p);
        StepShape(q, p);
        assert Known(p, cur);
        ExpandSound(q, cur, Adjacent(q, cur.End()), p.best, d);
        DetourBlocks(q, n, depth, p);
        ExpandBeatsTable(q, cur, Adjacent(q, cur.End()), p.best, d);
        ShortcutCost(q, n, depth);
      }
    }
  }

  lemma ShortcutParent(q: Search)
    requires |q.graph.relationships| >= 4
    ensures Parent(Shortcut(q)) == DearHop(q)
  {
    assert DearHop(q).rels[..0] == [];
    ParentOfMore(DearHop(q), q.graph.relationships[3], 3);
  }

  lemma ParentOfMore(r: Route, e: Relationship, v: NodeId)
    requires |r.nodes| == |r.rels| + 1 && r.cost == Weight(r.rels)
    ensures Parent(Extend(r, e, v)) == r
  {
    var x := Extend(r, e, v);
    assert x.rels[..|x.rels| - 1] == r.rels && x.nodes[..|x.nodes| - 1] == r.nodes;
  }

  lemma ShortcutCost(q: Search, n: nat, depth: nat)
    requires Detour(q, n, depth)
    ensures Shortcut(q).cost == 5 && Shortcut(q).Source() == 0 && Shortcut(q).End() == 3
  {
    assert Hop(q.graph.relationships[3], 3, 2, 3, 1);
  }

  /** The only way to the target within the bound goes over the shortcut. */
  lemma TargetNeedsShortcut(q: Search, n: nat, depth: nat, p: Progress, y: Route)
    requires Detour(q, n, depth) && Inv(q, p) && Known(p, y) && Hit(q, y)
    ensures Known(p, Shortcut(q))
  {
    var h := y.Hops();
    DetourRoute(q, n, depth, y, h);
    assert y.nodes[1] == 2 && h >= 3;
    DetourRoute(q, n, depth, y, 2);
    var z := PrefixKnown(q, p, y, 2);
    var es := q.graph.relationships;
    assert z.nodes == [0, 2, 3] && z.rels == [es[0], es[3]];
    ShortcutParent(q);
    ParentIsRoute(q, z);
    assert z.rels[..1] == [es[0]] && z.nodes[..2] == [0, 2];
    ParentIsRoute(q, Parent(z));
    HopIsRoute(q, Parent(Parent(z)));
  }

  /** The way over the dear hop, `h` hops long. */
  function Dear(q: Search, h: nat): Route
    requires 1 <= h && h + 2 <= |q.graph.relationships|
  {
    if h == 1 then DearHop(q) else Extend(Dear(q, h - 1), q.graph.relationships[h + 1], h + 1)
  }

  lemma DearHopIsRival(q: Search, n: nat, depth: nat)
    requires Detour(q, n, depth)
    ensures Rival(q, DearHop(q)) && DearHop(q).Hops() == 1 && DearHop(q).End() == 2
  {
    var e := q.graph.relationships[0];
    assert e in q.graph.relationships;
    NumberedNode(q, n, 0);
    NumberedNode(q, n, 2);
    OriginIsRoute(q, 0);
    ExtendIsRoute(q, Origin(0), e, 2);
  }

  lemma DetourRival(q: Search, n: nat, depth: nat, p: Route, v: NodeId)
    requires Detour(q, n, depth) && Rival(q, p) && p.End() + 1 == v && 2 < v <= depth + 1
    ensures Rival(q, Extend(p, q.graph.relationships[v], v))
  {
    var e := q.graph.relationships[v];
    assert Hop(e, v, v - 1, v, 1) && e in q.graph.relationships;
    NumberedNode(q, n, v);
    if v in p.nodes {
      DetourAhead(q, n, depth, p, v);
    }
    ExtendIsRoute(q, p, e, v);
  }

  lemma {:induction false} DearIsRival(q: Search, n: nat, depth: nat, h: nat)
    requires Detour(q, n, depth) && 1 <= h <= depth
    ensures Rival(q, Dear(q, h)) && Dear(q, h).Hops() == h && Dear(q, h).End() == h + 1
  {
    if h == 1 {
      DearHopIsRival(q, n, depth);
    } else {
      DearIsRival(q, n, depth, h - 1);
      DetourRival(q, n, depth, Dear(q, h - 1), h + 1);
    }
  }

  lemma DetourFails(q: Search, n: nat, depth: nat) returns (r: Route)
    requires Detour(q, n, depth) && Wellformed(q)
    ensures Returned(q) == [] && Rival(q, r) && Qualifies(q, r) && r.Hops() == depth
  {
    r := Dear(q, depth);
    DearIsRival(q, n, depth, depth);
    ShortcutIsKeptOut(q, n, depth);
    KeptOutOfSearch(q, Shortcut(q));
    DiscoveredInv(q);
    forall y | Known(Discovered(q), y) ensures !Qualifies(q, y) {
      if Qualifies(q, y) {
        TargetNeedsShortcut(q, n, depth, Discovered(q), y);
      }
    }
    NothingReturned(q);
  }

  function ChainEdge(j: nat): Relationship
  {
    if j == 0 then Relationship(0, Uses, 0, 2) else Relationship(j, Grants, j - 1, j)
  }

  lemma SetDetour(n: nat, depth: nat, minimum: int, floor: int) returns (q: Search)
    requires 3 <= depth && depth + 2 <= n && minimum <= floor <= MAX_SCORE
    ensures Detour(q, n, depth) && Wellformed(q) && ScoredByService(q, floor) && q.minimumScore == minimum
  {
    var es := seq(depth + 2, j requires 0 <= j < depth + 2 => ChainEdge(j));
    q := Search(Graph(seq(n, i requires 0 <= i < n => i), es), Weighted, [0], {depth + 1}, {Uses, Grants}, true, depth, 1, minimum,
                (r: Route) => TotalScore(floor, r.rels), (r: Route) => 0);
    assert forall j :: 0 <= j < |es| ==> es[j] == ChainEdge(j);
    var share := (ns: seq<NodeId>) => floor;
    assert ScoredFrom(q, share, floor);
  }
}
