/** How far the promises of `shortest` and `weighted` mode reach: the depth bound
    is checked on the state in hand, while pruning remembers costs only, and the
    score is checked after a target has been taken off the queue. */
module SearchLimits {
  import opened AccessGraph
  import opened Sequences
  import opened PathSearch
  import opened SearchInvariants
  import opened SearchTheorems
  import opened AttackPathService
  import opened PathScore
  import opened SearchTraps

  /** For every wanted route within the depth bound that passes no other target, a
      path between its ends is returned that is no worse. */
  ghost predicate Delivers(q: Search)
  {
    forall r :: Rival(q, r) && Qualifies(q, r) && r.Hops() <= q.maxDepth ==> Answered(q, r)
  }

  ghost predicate Answered(q: Search, r: Route)
  {
    exists y :: y in Returned(q) && SameEnds(y, r) && Priority(q, y) <= Priority(q, r)
  }

  /** What a search is asked for, apart from the graph: its mode, the number of
      nodes and hops, the minimum score, and the least score that the nodes alone
      give any path. */
  datatype Setting = Setting(algorithm: Algorithm, nodes: nat, depth: nat, minimum: int, floor: int)

  /** An untruncated search of that kind whose paths score as the service scores
      them. */
  ghost predicate InClass(q: Search, c: Setting)
  {
    && Wellformed(q) && q.algorithm == c.algorithm && ScoredByService(q, c.floor)
    && |q.graph.nodes| == c.nodes && q.maxDepth == c.depth && q.minimumScore == c.minimum
    && |Returned(q)| < q.maxPaths
  }

  // -------------------------------------------------------- deep enough searches

  lemma AnsweredAt(q: Search, r: Route)
    requires Wellformed(q) && !q.algorithm.All? && AcceptsAll(q) && |Returned(q)| < q.maxPaths
    requires Rival(q, r) && Hit(q, r) && r.Hops() <= q.maxDepth
    requires q.algorithm.Weighted? ==> |q.graph.nodes| <= q.maxDepth + 1
    ensures Answered(q, r)
  {
    assert Joins(r, r.Source(), r.End());
    TargetsReturned(q, r.Source(), r.End());
    var y :| y in Returned(q) && Joins(y, r.Source(), r.End());
    var m :| 0 <= m < |Returned(q)| && Returned(q)[m] == y;
    var k := EarliestOfPair(Returned(q), m);
    if q.algorithm.Weighted? {
      WeightedIsCheapest(q, k, r);
    } else {
      ShortestIsShortest(q, k, r);
    }
    assert Returned(q)[k] in Returned(q) && SameEnds(Returned(q)[k], r);
  }

  // ----------------------------------------------------------- shallow searches

  /** Every direct hop out of an expanded source has been matched by a state of one
      hop that is no dearer, not merely by a cheap detour. */
  ghost predicate Direct(q: Search, p: Progress)
  {
    forall s, e, v :: Origin(s) in p.popped && Links(q, s, e, v) && v in q.graph.nodes && v != s ==>
      HopKnown(p, s, v, EdgeWeight(e.kind))
  }

  ghost predicate HopKnown(p: Progress, s: NodeId, v: NodeId, w: nat)
  {
    exists y :: Known(p, y) && Joins(y, s, v) && y.Hops() == 1 && y.cost <= w
  }

  /** Every generated state descends from its source, which has left the queue. */
  lemma {:induction false} SourceIsPopped(q: Search, p: Progress, y: Route)
    requires Inv(q, p) && Known(p, y) && y.Hops() > 0
    ensures Origin(y.Source()) in p.popped
    decreases y.Hops()
  {
    ParentIsRoute(q, y);
    if y.Hops() == 1 {
      HopIsRoute(q, Parent(y));
    } else {
      SourceIsPopped(q, p, Parent(y));
    }
  }

  /** So when a source is expanded, the table has no entry for it, and an entry
      made by the expansion is that of a direct hop. */
  lemma SourceExpansion(q: Search, p: Progress, s: NodeId, e: Relationship, v: NodeId)
    requires Inv(q, p) && p.queue != [] && !q.algorithm.All? && q.maxDepth > 0 && Picked(q, p) == Origin(s)
    requires Links(q, s, e, v) && v in q.graph.nodes && v != s
    ensures HopKnown(Step(q, p), s, v, EdgeWeight(e.kind))
  {
    var o, k := Origin(s), (s, v);
    var adj := Adjacent(q, s);
    StepShape(q, p);
    assert Known(p, o) && Pushed(q, p) == Expand(q, o, adj, p.best);
    AdjacentMember(q, s, e);
    ExpandComplete(q, o, adj, p.best, e, v);
    if Extend(o, e, v) in Pushed(q, p).routes {
      assert Joins(Extend(o, e, v), s, v);
    } else {
      ExpandBest(q, o, adj, p.best, k);
      if k in p.best {
        NoEntryYet(q, p, s, v);
      }
      var y :| y in Pushed(q, p).routes && Joins(y, s, v) && y.cost == Pushed(q, p).best[k];
      assert Known(Step(q, p), y);
    }
  }

  lemma NoEntryYet(q: Search, p: Progress, s: NodeId, v: NodeId)
    requires Inv(q, p) && p.queue != [] && Origin(s) in p.queue
    ensures (s, v) !in p.best
  {
    if (s, v) in p.best {
      var y :| Known(p, y) && Joins(y, s, v) && y.cost == p.best[(s, v)];
      SourceIsPopped(q, p, y);
      NotBoth(p.popped, p.queue, Origin(s));
    }
  }

  lemma StepKeepsDirect(q: Search, p: Progress)
    requires Inv(q, p) && Direct(q, p) && p.queue != [] && !q.algorithm.All? && q.maxDepth > 0
    ensures Direct(q, Step(q, p))
  {
    var p' := Step(q, p);
    StepShape(q, p);
    forall s, e, v | Origin(s) in p'.popped && Links(q, s, e, v) && v in q.graph.nodes && v != s
      ensures HopKnown(p', s, v, EdgeWeight(e.kind))
    {
      if Origin(s) in p.popped {
        assert HopKnown(p, s, v, EdgeWeight(e.kind));
        var y :| Known(p, y) && Joins(y, s, v) && y.Hops() == 1 && y.cost <= EdgeWeight(e.kind);
        assert Known(p', y);
      } else {
        SourceExpansion(q, p, s, e, v);
      }
    }
  }

  lemma {:induction false} ExploreKeepsDirect(q: Search, p: Progress)
    requires Wellformed(q) && Inv(q, p) && Direct(q, p) && !q.algorithm.All? && q.maxDepth > 0
    ensures Direct(q, Explore(q, p))
    decreases Measure(q, p.queue)
  {
    if !Done(q, p) {
      StepKeepsInv(q, p);
      StepKeepsDirect(q, p);
      StepDescends(q, p);
      ExploreKeepsDirect(q, Step(q, p));
    }
  }

  lemma DirectRouteMatched(q: Search, p: Progress, r: Route) returns (y: Route)
    requires Inv(q, p) && Direct(q, p) && p.queue == [] && Rival(q, r) && r.Hops() == 1
    ensures y in p.popped && SameEnds(y, r) && y.Hops() == 1 && y.cost <= r.cost
  {
    ParentIsRoute(q, r);
    HopIsRoute(q, Parent(r));
    assert Known(p, Origin(r.Source()));
    assert HopKnown(p, r.Source(), r.End(), EdgeWeight(r.rels[0].kind));
    y :| Known(p, y) && Joins(y, r.Source(), r.End()) && y.Hops() == 1 && y.cost <= EdgeWeight(r.rels[0].kind);
  }

  /** A route of at most two hops is matched by a popped state when the queue has
      been drained, whatever the table has pruned. */
  lemma ShortRouteMatched(q: Search, p: Progress, r: Route) returns (y: Route)
    requires Inv(q, p) && Direct(q, p) && p.queue == [] && q.algorithm.Weighted?
    requires Rival(q, r) && 1 <= r.Hops() <= 2 && r.Hops() <= q.maxDepth
    ensures y in p.popped && SameEnds(y, r) && y.Hops() > 0 && y.cost <= r.cost
  {
    if r.Hops() == 1 {
      y := DirectRouteMatched(q, p, r);
    } else {
      ParentIsRoute(q, r);
      var x := DirectRouteMatched(q, p, Parent(r));
      y := MatchedFurther(q, p, x, r);
    }
  }

  /** From a direct state at its middle node the search goes on to the end of `r`. */
  lemma MatchedFurther(q: Search, p: Progress, x: Route, r: Route) returns (y: Route)
    requires Inv(q, p) && p.queue == [] && q.algorithm.Weighted? && Rival(q, r) && r.Hops() == 2 <= q.maxDepth
    requires x in p.popped && x.Hops() == 1 && SameEnds(x, Parent(r)) && x.cost <= Parent(r).cost
    ensures y in p.popped && SameEnds(y, r) && y.Hops() > 0 && y.cost <= r.cost
  {
    var e, v := r.rels[1], r.End();
    ParentIsRoute(q, r);
    assert Known(p, x) && Expandable(q, x);
    assert v !in x.nodes by { assert x.nodes == [r.Source(), Parent(r).End()]; }
    assert Covered(q, p, x, e, v);
    y :| Known(p, y) && Joins(y, x.Source(), v) && Priority(q, y) <= Priority(q, x) + StepCost(q, e);
  }

  lemma AnsweredNearby(q: Search, r: Route)
    requires Wellformed(q) && q.algorithm.Weighted? && AcceptsAll(q) && |Returned(q)| < q.maxPaths
    requires Rival(q, r) && Hit(q, r) && r.Hops() <= q.maxDepth <= 2
    ensures Answered(q, r)
  {
    InitialInv(q);
    ExploreKeepsDirect(q, Initial(q));
    DiscoveredInv(q);
    ReturnedIsFound(q);
    var y := ShortRouteMatched(q, Discovered(q), r);
    PoppedTargetIsFound(q, y);
    assert y in Returned(q);
  }

  // ------------------------------------------------------------- the condition

  /** There is nothing to find, or no score is too low and either the mode is
      `shortest`, or it looks no more than two hops far, or the depth bound leaves
      room for every simple route. */
  predicate Safe(c: Setting)
  {
    || c.nodes == 1 || c.depth == 0 || c.minimum > MAX_SCORE
    || (c.minimum <= c.floor && (c.algorithm.Shortest? || c.depth <= 2 || c.nodes <= c.depth + 1))
  }

  /** When a `shortest` or `weighted` search keeps its promise on every graph of a
      given number of nodes. */
  lemma DeliveryCondition(c: Setting)
    requires c.nodes >= 1 && !c.algorithm.All? && c.floor <= MAX_SCORE
    ensures (forall q :: InClass(q, c) ==> Delivers(q)) <==> Safe(c)
  {
    if Safe(c) {
      forall q | InClass(q, c) ensures Delivers(q) {
        ClassDelivers(q, c);
      }
    } else if c.minimum > c.floor {
      MinimumScoreLosesPath(c);
    } else {
      DepthBoundLosesTarget(c);
    }
  }

  lemma ClassDelivers(q: Search, c: Setting)
    requires !c.algorithm.All? && InClass(q, c) && Safe(c) && c.floor <= MAX_SCORE
    ensures Delivers(q)
  {
    forall r ensures c.floor <= q.score(r) <= MAX_SCORE {
      ScoreInRange(q, c.floor, r);
    }
    forall r | Rival(q, r) && Qualifies(q, r) && r.Hops() <= c.depth ensures Answered(q, r) {
      RouteIsShort(q, r);
      if c.algorithm.Weighted? && c.depth <= 2 {
        AnsweredNearby(q, r);
      } else {
        AnsweredAt(q, r);
      }
    }
  }

  ghost predicate Loses(q: Search, hops: nat)
  {
    Returned(q) == [] && exists r :: Rival(q, r) && Qualifies(q, r) && r.Hops() == hops
  }

  /** Whatever the size of the graph, a `weighted` search over three or more hops
      can miss a target within its depth bound altogether, although the cap did not
      stop it, as soon as the graph has a node more than a route may visit. */
  lemma DepthBoundLosesTarget(c: Setting)
    requires c.algorithm.Weighted? && 3 <= c.depth && c.depth + 2 <= c.nodes && c.minimum <= c.floor <= MAX_SCORE
    ensures exists q :: InClass(q, c) && Loses(q, c.depth)
    ensures exists q :: InClass(q, c) && !Delivers(q)
  {
    var q := SetDetour(c.nodes, c.depth, c.minimum, c.floor);
    var r := DetourFails(q, c.nodes, c.depth);
    assert InClass(q, c) && Loses(q, c.depth) && !Answered(q, r);
  }

  /** A path that meets the minimum score is missed when a path between the same
      ends that does not meet it comes first, which takes no more than two nodes and
      a minimum that some path can miss and some path can meet. */
  lemma MinimumScoreLosesPath(c: Setting)
    requires c.nodes >= 2 && c.depth >= 1 && c.floor < c.minimum <= MAX_SCORE && !c.algorithm.All?
    ensures exists q :: InClass(q, c) && Loses(q, 1)
    ensures exists q :: InClass(q, c) && !Delivers(q)
  {
    var q, e0, e1 := SetSideBySide(c.algorithm, c.nodes, c.depth, c.minimum, c.floor);
    var r := SideBySideFails(q, e0, e1, c.nodes);
    assert InClass(q, c) && Loses(q, 1) && !Answered(q, r);
  }
}
