/** The search as the service runs it: adjacency map, worklist loop, ranking. */
module AttackPathService {
  import opened AccessGraph
  import opened Sequences
  import opened PathSearch
  import opened SearchInvariants
  import opened SearchTheorems

  // ----------------------------------------------------------------- ranking

  /** `a` sorts strictly before `b` in the returned list. */
  predicate Outranks(q: Search, a: Route, b: Route)
  {
    if q.algorithm.Weighted? then
      a.cost < b.cost || (a.cost == b.cost && q.score(a) > q.score(b))
    else
      || a.Hops() < b.Hops()
      || (a.Hops() == b.Hops()
          && (q.score(a) > q.score(b) || (q.score(a) == q.score(b) && q.idOrder(a) < q.idOrder(b))))
  }

  function RankOrder(q: Search): (Route, Route) -> bool
  {
    (a, b) => Outranks(q, a, b)
  }

  lemma RankOrderIsStrict(q: Search)
    ensures StrictOrder(RankOrder(q))
  {
  }

  /** The list a search returns. */
  function Returned(q: Search): seq<Route>
  {
    var ranked := Sort(RankOrder(q), Discovered(q).found);
    if |ranked| <= q.maxPaths then ranked else ranked[..q.maxPaths]
  }

  /** The final truncation never drops a path, and ranking neither. */
  lemma ReturnedIsFound(q: Search)
    requires Wellformed(q)
    ensures multiset(Returned(q)) == multiset(Discovered(q).found)
    ensures |Returned(q)| == |Discovered(q).found| <= q.maxPaths
    ensures forall r :: r in Returned(q) <==> r in Discovered(q).found
    ensures Ranked(q, Returned(q))
    ensures Distinct(Returned(q))
  {
    FoundInOrder(q);
    var found := Discovered(q).found;
    SortPermutes(RankOrder(q), found);
    SortIsRanked(q, found);
    SortKeepsDistinct(RankOrder(q), found);
    forall r ensures r in Returned(q) <==> r in found {
      SortMember(RankOrder(q), found, r);
    }
  }

  /** How a list of paths is ranked for the user: cheap paths first in `weighted`
      mode, short ones otherwise; among equals the higher score comes first, and
      outside `weighted` mode the earlier identifier after that. */
  ghost predicate Ranked(q: Search, paths: seq<Route>)
  {
    forall i, j :: 0 <= i < j < |paths| ==> RankedPair(q, paths[i], paths[j])
  }

  ghost predicate RankedPair(q: Search, a: Route, b: Route)
  {
    if q.algorithm.Weighted? then
      && a.cost <= b.cost
      && (a.cost == b.cost ==> q.score(a) >= q.score(b))
    else
      && a.Hops() <= b.Hops()
      && (a.Hops() == b.Hops() ==> q.score(a) >= q.score(b))
      && (a.Hops() == b.Hops() && q.score(a) == q.score(b) ==> q.idOrder(a) <= q.idOrder(b))
  }

  lemma SortIsRanked(q: Search, paths: seq<Route>)
    ensures Ranked(q, Sort(RankOrder(q), paths))
  {
    var lt, out := RankOrder(q), Sort(RankOrder(q), paths);
    RankOrderIsStrict(q);
    SortIsSorted(lt, paths);
    forall i, j | 0 <= i < j < |out| ensures RankedPair(q, out[i], out[j]) {
      assert !lt(out[j], out[i]);
    }
  }

  /** Paths that tie in weight and score are returned in the order in which the
      `weighted` search took them off its queue. */
  lemma TiesInOrderOfDiscovery(q: Search, i: nat, j: nat)
    requires Wellformed(q) && q.algorithm.Weighted? && i < j < |Returned(q)|
    requires Returned(q)[i].cost == Returned(q)[j].cost && q.score(Returned(q)[i]) == q.score(Returned(q)[j])
    ensures ComesBefore(Discovered(q).found, Returned(q)[i], Returned(q)[j])
  {
    ReturnedIsFound(q);
    RankOrderIsStrict(q);
    SortKeepsTies(RankOrder(q), Discovered(q).found);
    assert !RankOrder(q)(Returned(q)[i], Returned(q)[j]);
  }

  // ------------------------------------------------------- what is delivered

  /** In `weighted` mode on a graph whose simple routes all fit the depth bound,
      the first returned path of each source and target has the least total
      weight of all allowed routes between them that pass no other target. */
  lemma WeightedIsCheapest(q: Search, i: nat, r: Route)
    requires Wellformed(q) && q.algorithm.Weighted? && AcceptsAll(q)
    requires |q.graph.nodes| <= q.maxDepth + 1
    requires FirstOfPair(Returned(q), i) && Rival(q, r) && SameEnds(Returned(q)[i], r)
    ensures Returned(q)[i].cost <= r.cost
  {
    DeepEnoughCutsNothing(q);
    FirstReturnedIsMinimal(q, i, r);
  }

  /** In `shortest` mode the first returned path of each source and target has
      the fewest hops of all allowed routes between them that pass no other
      target, although pruning compares costs. */
  lemma ShortestIsShortest(q: Search, i: nat, r: Route)
    requires Wellformed(q) && q.algorithm.Shortest? && AcceptsAll(q)
    requires FirstOfPair(Returned(q), i) && Rival(q, r) && SameEnds(Returned(q)[i], r)
    ensures Returned(q)[i].Hops() <= r.Hops()
  {
    if r.Hops() <= q.maxDepth {
      FirstReturnedIsMinimal(q, i, r);
    } else {
      ReturnedIsFound(q);
      DiscoveredInv(q);
      FoundInOrder(q);
      assert Returned(q)[i] in Discovered(q).found;
      assert Known(Discovered(q), Returned(q)[i]);
    }
  }

  lemma FirstReturnedIsMinimal(q: Search, i: nat, r: Route)
    requires Wellformed(q) && !q.algorithm.All? && AcceptsAll(q)
    requires FirstOfPair(Returned(q), i) && SameEnds(Returned(q)[i], r) && InScope(q, Discovered(q), r)
    ensures Priority(q, Returned(q)[i]) <= Priority(q, r)
  {
    ReturnedIsFound(q);
    FoundInOrder(q);
    var out, found := Returned(q), Discovered(q).found;
    assert out[i] in found && Qualifies(q, out[i]);
    var m :| 0 <= m < |found| && found[m] == out[i];
    var k := EarliestOfPair(found, m);
    FirstFoundIsMinimal(q, k, r);
    assert found[k] in out;
    var j :| 0 <= j < |out| && out[j] == found[k];
    assert Joins(out[j], out[i].Source(), out[i].End());
    assert i == j || !Outranks(q, out[j], out[i]);
  }

  /** Unless truncated, a `shortest` search returns a path to a target exactly
      when some allowed route within the depth bound reaches it past no other
      target; a `weighted` one likewise when every simple route fits the bound. */
  lemma TargetsReturned(q: Search, s: NodeId, t: NodeId)
    requires Wellformed(q) && !q.algorithm.All? && AcceptsAll(q)
    requires q.algorithm.Weighted? ==> |q.graph.nodes| <= q.maxDepth + 1
    requires |Returned(q)| < q.maxPaths && t in q.targets
    ensures (exists y :: y in Returned(q) && Joins(y, s, t)) <==>
      (exists r :: Rival(q, r) && Joins(r, s, t) && r.Hops() <= q.maxDepth)
  {
    ReturnedIsFound(q);
    DiscoveredInv(q);
    FoundInOrder(q);
    if y :| y in Returned(q) && Joins(y, s, t) {
      assert Known(Discovered(q), y);
      assert Rival(q, y);
    }
    if r :| Rival(q, r) && Joins(r, s, t) && r.Hops() <= q.maxDepth {
      if q.algorithm.Weighted? {
        DeepEnoughCutsNothing(q);
      }
      EveryTargetIsFound(q, r);
      var y :| y in Discovered(q).found && SameEnds(y, r);
      assert y in Returned(q) && Hit(q, y) && Joins(y, s, t);
    }
  }

  /** An untruncated `all` search returns exactly the wanted paths, each once. */
  lemma AllReturnsExactly(q: Search, r: Route)
    requires Wellformed(q) && q.algorithm.All?
    ensures Distinct(Returned(q))
    ensures r in Returned(q) ==> Wanted(q, r)
    ensures |Returned(q)| < q.maxPaths && Wanted(q, r) ==> r in Returned(q)
    ensures Wanted(q, r) && r !in Returned(q) ==> forall x :: x in Returned(q) ==> x.Hops() <= r.Hops()
  {
    ReturnedIsFound(q);
    AllIsExact(q, r);
  }

  // ----------------------------------------------------------- the service

  /** The result of a search; the deadline check of the loop may abort it. */
  datatype Outcome = Paths(paths: seq<Route>) | TimedOut

  function Lookup(adjacency: map<NodeId, seq<Relationship>>, n: NodeId): seq<Relationship>
  {
    if n in adjacency then adjacency[n] else []
  }

  function Append(adjacency: map<NodeId, seq<Relationship>>, n: NodeId, rel: Relationship): (a: map<NodeId, seq<Relationship>>)
    ensures forall m :: Lookup(a, m) == Lookup(adjacency, m) + (if m == n then [rel] else [])
  {
    adjacency[n := Lookup(adjacency, n) + [rel]]
  }

  lemma IncidentNext(q: Search, rels: seq<Relationship>, k: nat, n: NodeId)
    requires k < |rels|
    ensures Incident(q, rels[..k + 1], n) == Incident(q, rels[..k], n) +
      (if rels[k].kind !in q.allowed then []
       else (if rels[k].source == n then [rels[k]] else []) + (if !q.directed && rels[k].target == n then [rels[k]] else []))
  {
    PrefixStep(rels, k);
  }

  /** The adjacency lists hold what is incident among `rels`. */
  ghost predicate Lists(q: Search, adjacency: map<NodeId, seq<Relationship>>, rels: seq<Relationship>)
  {
    forall n :: Lookup(adjacency, n) == Incident(q, rels, n)
  }

  function Listed(q: Search, adjacency: map<NodeId, seq<Relationship>>, rel: Relationship): map<NodeId, seq<Relationship>>
  {
    if rel.kind !in q.allowed then adjacency
    else if q.directed then Append(adjacency, rel.source, rel)
    else Append(Append(adjacency, rel.source, rel), rel.target, rel)
  }

  lemma ListedLists(q: Search, adjacency: map<NodeId, seq<Relationship>>, rels: seq<Relationship>, k: nat)
    requires k < |rels| && Lists(q, adjacency, rels[..k])
    ensures Lists(q, Listed(q, adjacency, rels[k]), rels[..k + 1])
  {
    PrefixStep(rels, k);
    forall n ensures Lookup(Listed(q, adjacency, rels[k]), n) == Incident(q, rels[..k + 1], n) {
      assert Lookup(adjacency, n) == Incident(q, rels[..k], n);
      IncidentNext(q, rels, k, n);
    }
  }

  method BuildAdjacency(q: Search) returns (adjacency: map<NodeId, seq<Relationship>>)
    ensures forall n :: Lookup(adjacency, n) == Incident(q, q.graph.relationships, n)
  {
    adjacency := map[];
    var rels := q.graph.relationships;
    for i := 0 to |rels|
      invariant Lists(q, adjacency, rels[..i])
    {
      var rel := rels[i];
      ListedLists(q, adjacency, rels, i);
      if rel.kind in q.allowed {
        adjacency := Append(adjacency, rel.source, rel);
        if !q.directed {
          adjacency := Append(adjacency, rel.target, rel);
        }
      }
    }
    assert rels[..|rels|] == rels;
  }

  lemma {:induction false} ExploreGrows(q: Search, p: Progress)
    ensures |Explore(q, p).popped| >= |p.popped| + (if Done(q, p) then 0 else 1)
    decreases Measure(q, p.queue)
  {
    if !Done(q, p) {
      StepDescends(q, p);
      ExploreGrows(q, Step(q, p));
    }
  }

  /** The inner loop: pushes the neighbours of `current` that are not pruned. */
  method PushNeighbours(q: Search, current: Route, adj: seq<Relationship>, queue: seq<Route>, best: Best)
    returns (queue': seq<Route>, best': Best)
    ensures queue' == queue + Expand(q, current, adj, best).routes
    ensures best' == Expand(q, current, adj, best).best
  {
    queue', best' := queue, best;
    for k := 0 to |adj|
      invariant queue' == queue + Expand(q, current, adj[..k], best).routes
      invariant best' == Expand(q, current, adj[..k], best).best
    {
      assert adj[..k + 1][..k] == adj[..k];
      var next := Opposite(adj[k], current.End());
      if next !in current.nodes && next in q.graph.nodes {
        var cost: nat := current.cost + EdgeWeight(adj[k].kind);
        var key := (current.Source(), next);
        if q.algorithm.All? || key !in best' || cost < best'[key] {
          if !q.algorithm.All? {
            best' := best'[key := cost];
          }
          queue' := queue' + [Route(current.nodes + [next], current.rels + [adj[k]], cost)];
        }
      }
    }
    assert adj[..|adj|] == adj;
  }

  ghost predicate InTime(expired: nat -> bool, turns: nat)
  {
    forall i: nat :: i < turns ==> !expired(i)
  }

  lemma InTimeStep(expired: nat -> bool, turns: nat)
    requires InTime(expired, turns) && !expired(turns)
    ensures InTime(expired, turns + 1)
  {
  }

  /** One turn: sorts, shifts, reports and pushes. `waiting` is the queue as the
      specification keeps it, in arrival order. */
  method Turn(q: Search, adjacency: map<NodeId, seq<Relationship>>, queue: seq<Route>, best: Best,
              paths: seq<Route>, seen: set<Route>, ghost waiting: seq<Route>, ghost popped: seq<Route>)
    returns (queue': seq<Route>, best': Best, paths': seq<Route>, seen': set<Route>, ghost next: Progress)
    requires waiting != []
    requires Sort(QueueOrder(q), queue) == Sort(QueueOrder(q), waiting)
    requires forall n :: Lookup(adjacency, n) == Incident(q, q.graph.relationships, n)
    requires Tracks(seen, paths)
    ensures next == Step(q, Progress(waiting, best, paths, popped))
    ensures best' == next.best && paths' == next.found
    ensures Sort(QueueOrder(q), queue') == Sort(QueueOrder(q), next.queue)
    ensures Tracks(seen', paths')
  {
    ghost var p := Progress(waiting, best, paths, popped);
    TurnOnSortedQueue(QueueOrder(q), queue, waiting, Pushed(q, p).routes);
    queue', best', paths', seen' := Sort(QueueOrder(q), queue), best, paths, seen;
    var current := queue'[0];
    queue' := queue'[1..];
    assert current == Picked(q, p);
    var hit := current.End() in q.targets && current.Hops() > 0;
    if hit && q.score(current) >= q.minimumScore && current !in seen' {
      TracksAppend(seen', paths', current);
      seen' := seen' + {current};
      paths' := paths' + [current];
    }
    if !(hit && !q.algorithm.All?) && current.Hops() < q.maxDepth {
      var adj := Sort(IdOrder(), Lookup(adjacency, current.End()));
      queue', best' := PushNeighbours(q, current, adj, queue', best);
    } else {
      assert queue' == queue' + Pushed(q, p).routes;
    }
    next := Step(q, p);
    StepParts(q, p);
  }

  ghost predicate Tracks(seen: set<Route>, paths: seq<Route>)
  {
    forall r :: r in seen <==> r in paths
  }

  lemma TracksAppend(seen: set<Route>, paths: seq<Route>, r: Route)
    requires Tracks(seen, paths)
    ensures Tracks(seen + {r}, paths + [r])
  {
  }

  lemma StepParts(q: Search, p: Progress)
    requires p.queue != []
    ensures Step(q, p).best == Pushed(q, p).best
    ensures Step(q, p).found == Report(q, Picked(q, p), p.found)
    ensures Step(q, p).queue == Without(p.queue, MinIndex(q, p.queue)) + Pushed(q, p).routes
  {
    assert Without(p.queue, MinIndex(q, p.queue)) + [] == Without(p.queue, MinIndex(q, p.queue));
  }

  /** `expired(i)` says what the deadline check of turn `i` finds. */
  method Discover(q: Search, expired: nat -> bool) returns (outcome: Outcome)
    ensures outcome.Paths? ==> outcome.paths == Returned(q) && Ranked(q, outcome.paths)
    ensures outcome.TimedOut? <==> !InTime(expired, |Discovered(q).popped|)
  {
    var adjacency := BuildAdjacency(q);
    var paths, seen := [], {};
    var best: Best := map[];
    var queue := Seeds(q, q.sources);
    var turn: nat := 0;
    ghost var p := Initial(q);
    while queue != [] && |paths| < q.maxPaths
      invariant turn == |p.popped|
      invariant Sort(QueueOrder(q), queue) == Sort(QueueOrder(q), p.queue)
      invariant best == p.best && paths == p.found
      invariant Tracks(seen, paths)
      invariant Explore(q, p) == Discovered(q)
      invariant InTime(expired, turn)
      decreases Measure(q, p.queue)
    {
      assert |queue| == |p.queue|;
      ExploreGrows(q, p);
      StepDescends(q, p);
      if expired(turn) {
        return TimedOut;
      }
      InTimeStep(expired, turn);
      turn := turn + 1;
      queue, best, paths, seen, p := Turn(q, adjacency, queue, best, paths, seen, p.queue, p.popped);
    }
    assert |queue| == |p.queue|;
    var ranked := Sort(RankOrder(q), paths);
    SortIsRanked(q, paths);
    return Paths(if |ranked| <= q.maxPaths then ranked else ranked[..q.maxPaths]);
  }
}
