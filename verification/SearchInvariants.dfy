/** What every turn of the search loop keeps. */
module SearchInvariants {
  import opened AccessGraph
  import opened Sequences
  import opened PathSearch

  /** The search has generated state `r`. */
  ghost predicate Known(p: Progress, r: Route)
  {
    r in p.queue || r in p.popped
  }

  ghost predicate Joins(r: Route, s: NodeId, v: NodeId)
  {
    r.Hops() > 0 && r.Source() == s && r.End() == v
  }

  /** Every generated state is a real route within the depth bound, descends
      from popped states only, and no existing source is forgotten. */
  ghost predicate Sound(q: Search, p: Progress)
  {
    && (forall r :: Known(p, r) ==>
          && IsRoute(q, r)
          && r.Hops() <= q.maxDepth
          && (q.algorithm.All? || InteriorClear(q, r))
          && (r.Hops() > 0 ==> Parent(r) in p.popped))
    && (forall s :: s in q.sources && s in q.graph.nodes ==> Known(p, Origin(s)))
  }

  /** States leave the queue in order of priority. */
  ghost predicate Ordered(q: Search, p: Progress)
  {
    && (forall i, j :: 0 <= i < j < |p.popped| ==> Priority(q, p.popped[i]) <= Priority(q, p.popped[j]))
    && (forall r, t :: r in p.popped && t in p.queue ==> Priority(q, r) <= Priority(q, t))
  }

  /** No state is generated twice. */
  ghost predicate Fresh(p: Progress)
  {
    Distinct(p.popped + p.queue)
  }

  /** Going on from `r` over `e` to `n` is accounted for: in `all` mode by that
      very route, otherwise by some state of the same pair that is no later. */
  ghost predicate Covered(q: Search, p: Progress, r: Route, e: Relationship, n: NodeId)
  {
    if q.algorithm.All? then Known(p, Extend(r, e, n))
    else Reached(q, p, r.Source(), n, Priority(q, r) + StepCost(q, e))
  }

  ghost predicate Reached(q: Search, p: Progress, s: NodeId, v: NodeId, bound: nat)
  {
    exists y :: Known(p, y) && Joins(y, s, v) && Priority(q, y) <= bound
  }

  ghost predicate Closed(q: Search, p: Progress)
  {
    forall r, e, n ::
      r in p.popped && Expandable(q, r)
      && Links(q, r.End(), e, n) && n in q.graph.nodes && n !in r.nodes
      ==> Covered(q, p, r, e, n)
  }

  /** Every entry of the cost table is the cost of a generated state. */
  ghost predicate Backed(p: Progress)
  {
    forall k :: k in p.best ==> exists y :: Known(p, y) && Joins(y, k.0, k.1) && y.cost == p.best[k]
  }

  ghost predicate Inv(q: Search, p: Progress)
  {
    Sound(q, p) && Ordered(q, p) && Fresh(p) && Closed(q, p) && Backed(p)
  }

  // ------------------------------------------------------- the shape of a turn

  function Picked(q: Search, p: Progress): Route
    requires p.queue != []
  {
    p.queue[MinIndex(q, p.queue)]
  }

  function Pushed(q: Search, p: Progress): Expansion
    requires p.queue != []
  {
    var cur := Picked(q, p);
    if Expandable(q, cur) then Expand(q, cur, Adjacent(q, cur.End()), p.best) else Expansion([], p.best)
  }

  lemma StepShape(q: Search, p: Progress)
    requires p.queue != []
    ensures Picked(q, p) in p.queue
    ensures Step(q, p).popped == p.popped + [Picked(q, p)]
    ensures Step(q, p).queue == Without(p.queue, MinIndex(q, p.queue)) + Pushed(q, p).routes
    ensures Step(q, p).best == Pushed(q, p).best
    ensures forall r :: Known(Step(q, p), r) <==> Known(p, r) || r in Pushed(q, p).routes
    ensures forall r :: r in p.queue ==> Priority(q, Picked(q, p)) <= Priority(q, r)
  {
    var i := MinIndex(q, p.queue);
    var p' := Step(q, p);
    assert p'.queue == Without(p.queue, i) + Pushed(q, p).routes;
    forall r ensures Known(p', r) <==> Known(p, r) || r in Pushed(q, p).routes {
      if r in p.queue && r != p.queue[i] {
        var j :| 0 <= j < |p.queue| && p.queue[j] == r;
        assert if j < i then Without(p.queue, i)[j] == r else Without(p.queue, i)[j - 1] == r;
      }
    }
    forall r | r in p.queue ensures Priority(q, p.queue[i]) <= Priority(q, r) {
      var j :| 0 <= j < |p.queue| && p.queue[j] == r;
      assert !Before(q, p.queue[j], p.queue[i]);
    }
  }

  /** Of the waiting states one with the least cost, or fewest hops, is taken, among
      those one that stands on the first node, and among those the oldest. */
  lemma PickedIsFirst(q: Search, p: Progress, j: nat)
    requires j < |p.queue| && p.queue != []
    ensures var i := MinIndex(q, p.queue);
      var a, b := p.queue[i], p.queue[j];
      && Picked(q, p) == a
      && (if q.algorithm.Weighted? then a.cost <= b.cost else a.Hops() <= b.Hops())
      && ((if q.algorithm.Weighted? then a.cost == b.cost else a.Hops() == b.Hops()) ==>
            a.End() <= b.End() && (a.End() == b.End() ==> i <= j))
  {
    assert !Before(q, p.queue[j], Picked(q, p));
    var lt := QueueOrder(q);
    assert StrictOrder(lt);
    if j < MinIndex(q, p.queue) {
      LeastIsFirst(lt, p.queue, j);
    }
  }

  // --------------------------------------------------------------- expansion

  /** Every pushed state is the popped one extended by a hop it may take. */
  lemma {:induction false} ExpandSound(q: Search, cur: Route, adj: seq<Relationship>, best: Best, r: Route)
    requires IsRoute(q, cur)
    requires forall e :: e in adj ==> e in Adjacent(q, cur.End())
    requires r in Expand(q, cur, adj, best).routes
    ensures IsRoute(q, r) && r.Hops() == cur.Hops() + 1 && Parent(r) == cur
    ensures r.Source() == cur.Source() && Priority(q, r) >= Priority(q, cur)
    ensures InteriorClear(q, cur) && !Hit(q, cur) ==> InteriorClear(q, r)
    ensures exists e :: e in adj && r == Extend(cur, e, Opposite(e, cur.End()))
  {
    var k := |adj| - 1;
    var x := Expand(q, cur, adj[..k], best);
    if r in x.routes {
      ExpandSound(q, cur, adj[..k], best, r);
    } else {
      var e := adj[k];
      AdjacentMember(q, cur.End(), e);
      ExtendIsRoute(q, cur, e, Opposite(e, cur.End()));
      ParentOfExtend(q, cur, e, Opposite(e, cur.End()));
    }
  }

  /** The cost table after an expansion: entries only improve, and a changed
      entry is the cost of a pushed state. */
  lemma {:induction false} ExpandBest(q: Search, cur: Route, adj: seq<Relationship>, best: Best, k: (NodeId, NodeId))
    requires cur.nodes != []
    ensures k in best ==> k in Expand(q, cur, adj, best).best && Expand(q, cur, adj, best).best[k] <= best[k]
    ensures k in Expand(q, cur, adj, best).best ==>
      || (k in best && best[k] == Expand(q, cur, adj, best).best[k])
      || exists y :: y in Expand(q, cur, adj, best).routes && Joins(y, k.0, k.1) && y.cost == Expand(q, cur, adj, best).best[k]
  {
    if adj != [] {
      var i := |adj| - 1;
      var x := Expand(q, cur, adj[..i], best);
      var full := Expand(q, cur, adj, best);
      ExpandBest(q, cur, adj[..i], best, k);
      assert forall y :: y in x.routes ==> y in full.routes;
      if full != x {
        var r := Extend(cur, adj[i], Opposite(adj[i], cur.End()));
        assert r in full.routes;
        assert Joins(r, r.Source(), r.End());
      }
    }
  }

  /** Every hop that may be taken is taken, or turned down for a cost already
      in the table. */
  lemma {:induction false} ExpandComplete(q: Search, cur: Route, adj: seq<Relationship>, best: Best, e: Relationship, n: NodeId)
    requires IsRoute(q, cur) && e in adj
    requires Links(q, cur.End(), e, n) && n in q.graph.nodes && n !in cur.nodes
    ensures
      var x := Expand(q, cur, adj, best);
      || Extend(cur, e, n) in x.routes
      || (!q.algorithm.All? && (cur.Source(), n) in x.best && x.best[(cur.Source(), n)] <= cur.cost + EdgeWeight(e.kind))
  {
    var i := |adj| - 1;
    var x := Expand(q, cur, adj[..i], best);
    assert n != cur.End();
    if e == adj[i] {
      assert Opposite(e, cur.End()) == n;
    } else {
      assert adj == adj[..i] + [adj[i]];
      ExpandComplete(q, cur, adj[..i], best, e, n);
      ExpandBest(q, cur, [adj[i]], x.best, (cur.Source(), n));
    }
  }

  /** A hop is listed at most once unless it leads back to where it starts. */
  ghost predicate NoRepeats(adj: seq<Relationship>, n: NodeId)
  {
    forall i, j :: 0 <= i < j < |adj| && adj[i] == adj[j] ==> Opposite(adj[i], n) == n
  }

  lemma {:induction false} ExpandFresh(q: Search, cur: Route, adj: seq<Relationship>, best: Best)
    requires IsRoute(q, cur) && NoRepeats(adj, cur.End())
    requires forall e :: e in adj ==> e in Adjacent(q, cur.End())
    ensures Distinct(Expand(q, cur, adj, best).routes)
  {
    if adj != [] {
      var i := |adj| - 1;
      var x := Expand(q, cur, adj[..i], best);
      assert NoRepeats(adj[..i], cur.End());
      ExpandFresh(q, cur, adj[..i], best);
      var n := Opposite(adj[i], cur.End());
      if Admits(q, cur, adj[i], x.best) {
        var r := Extend(cur, adj[i], n);
        if r in x.routes {
          ExpandSound(q, cur, adj[..i], best, r);
        }
      }
    }
  }

  lemma {:induction false} IncidentCount(q: Search, rels: seq<Relationship>, n: NodeId, e: Relationship)
    requires Distinct(rels) && Opposite(e, n) != n
    ensures multiset(Incident(q, rels, n))[e] <= 1
    ensures e !in rels ==> multiset(Incident(q, rels, n))[e] == 0
  {
    if rels != [] {
      var k := |rels| - 1;
      assert rels == rels[..k] + [rels[k]];
      IncidentCount(q, rels[..k], n, e);
    }
  }

  lemma AdjacentNoRepeats(q: Search, n: NodeId)
    requires Wellformed(q)
    ensures NoRepeats(Adjacent(q, n), n)
  {
    var adj := Adjacent(q, n);
    forall i, j | 0 <= i < j < |adj| && adj[i] == adj[j] ensures Opposite(adj[i], n) == n {
      if Opposite(adj[i], n) != n {
        Twice(adj, i, j);
        SortPermutes(IdOrder(), Incident(q, q.graph.relationships, n));
        assert Distinct(q.graph.relationships);
        IncidentCount(q, q.graph.relationships, n, adj[i]);
      }
    }
  }

  // ------------------------------------------------- what a turn keeps

  lemma StepKeepsSound(q: Search, p: Progress)
    requires Inv(q, p) && p.queue != []
    ensures Sound(q, Step(q, p))
  {
    var p' := Step(q, p);
    var cur := Picked(q, p);
    StepShape(q, p);
    forall r | Known(p', r)
      ensures IsRoute(q, r) && r.Hops() <= q.maxDepth && (q.algorithm.All? || InteriorClear(q, r))
      ensures r.Hops() > 0 ==> Parent(r) in p'.popped
    {
      if !Known(p, r) {
        ExpandSound(q, cur, Adjacent(q, cur.End()), p.best, r);
      }
    }
  }

  lemma StepKeepsOrdered(q: Search, p: Progress)
    requires Inv(q, p) && p.queue != []
    ensures Ordered(q, Step(q, p))
  {
    var p' := Step(q, p);
    var cur := Picked(q, p);
    StepShape(q, p);
    forall r, t | r in p'.popped && t in p'.queue ensures Priority(q, r) <= Priority(q, t) {
      assert r in p.popped || r == cur;
      if t in Pushed(q, p).routes {
        ExpandSound(q, cur, Adjacent(q, cur.End()), p.best, t);
      }
    }
  }

  lemma DistinctMove<T>(a: seq<T>, b: seq<T>, i: nat)
    requires Distinct(a + b) && i < |b|
    ensures Distinct((a + [b[i]]) + Without(b, i))
  {
    var s := a + b;
    var t := (a + [b[i]]) + Without(b, i);
    forall x, y | 0 <= x < y < |t| ensures t[x] != t[y] {
      var fx := if x < |a| then x else if x == |a| then |a| + i else if x <= |a| + i then x - 1 else x;
      var fy := if y < |a| then y else if y == |a| then |a| + i else if y <= |a| + i then y - 1 else y;
      assert s[fx] == t[x] && s[fy] == t[y] && fx != fy;
      if fx < fy { assert s[fx] != s[fy]; } else { assert s[fy] != s[fx]; }
    }
  }

  /** A pushed state is new: its parent has only just been popped. */
  lemma PushedIsNew(q: Search, p: Progress, r: Route)
    requires Inv(q, p) && p.queue != []
    requires r in Pushed(q, p).routes
    ensures !Known(p, r)
  {
    var cur := Picked(q, p);
    StepShape(q, p);
    assert Known(p, cur);
    ExpandSound(q, cur, Adjacent(q, cur.End()), p.best, r);
    NotBoth(p.popped, p.queue, cur);
  }

  lemma PushedDistinct(q: Search, p: Progress)
    requires Wellformed(q) && Inv(q, p) && p.queue != []
    ensures Distinct(Pushed(q, p).routes)
  {
    var cur := Picked(q, p);
    assert Known(p, cur);
    if Expandable(q, cur) {
      AdjacentNoRepeats(q, cur.End());
      ExpandFresh(q, cur, Adjacent(q, cur.End()), p.best);
    }
  }

  lemma MovedMember<T>(a: seq<T>, b: seq<T>, i: nat, x: T)
    requires i < |b| && x in (a + [b[i]]) + Without(b, i)
    ensures x in a || x in b
  {
  }

  lemma DistinctTurn<T>(a: seq<T>, b: seq<T>, i: nat, c: seq<T>)
    requires Distinct(a + b) && i < |b| && Distinct(c)
    requires forall x :: x in c ==> x !in a && x !in b
    ensures Distinct((a + [b[i]]) + (Without(b, i) + c))
  {
    var earlier := (a + [b[i]]) + Without(b, i);
    DistinctMove(a, b, i);
    forall x | x in earlier ensures x !in c {
      MovedMember(a, b, i, x);
    }
    DistinctConcat(earlier, c);
    assert earlier + c == (a + [b[i]]) + (Without(b, i) + c);
  }

  lemma StepKeepsFresh(q: Search, p: Progress)
    requires Wellformed(q) && Inv(q, p) && p.queue != []
    ensures Fresh(Step(q, p))
  {
    StepShape(q, p);
    PushedDistinct(q, p);
    forall r | r in Pushed(q, p).routes ensures r !in p.popped && r !in p.queue {
      PushedIsNew(q, p, r);
    }
    DistinctTurn(p.popped, p.queue, MinIndex(q, p.queue), Pushed(q, p).routes);
  }

  lemma NotBoth<T>(a: seq<T>, b: seq<T>, x: T)
    requires Distinct(a + b) && x in b
    ensures x !in a
  {
    var j :| 0 <= j < |b| && b[j] == x;
    forall i | 0 <= i < |a| ensures a[i] != x {
      assert (a + b)[i] != (a + b)[|a| + j];
    }
  }

  lemma StepKeepsBacked(q: Search, p: Progress)
    requires Inv(q, p) && p.queue != []
    ensures Backed(Step(q, p))
  {
    var p' := Step(q, p);
    var cur := Picked(q, p);
    StepShape(q, p);
    forall k | k in p'.best ensures exists y :: Known(p', y) && Joins(y, k.0, k.1) && y.cost == p'.best[k] {
      if Expandable(q, cur) {
        ExpandBest(q, cur, Adjacent(q, cur.End()), p.best, k);
      }
      if k in p.best && p.best[k] == p'.best[k] {
        var y :| Known(p, y) && Joins(y, k.0, k.1) && y.cost == p.best[k];
        assert Known(p', y);
      } else {
        var y :| y in Pushed(q, p).routes && Joins(y, k.0, k.1) && y.cost == p'.best[k];
        assert Known(p', y);
      }
    }
  }

  /** Hop order means that a generated state is at most one hop longer than the
      state in hand: its parent left the queue no later. */
  lemma KnownIsNear(q: Search, p: Progress, y: Route)
    requires Inv(q, p) && p.queue != [] && !q.algorithm.Weighted?
    requires Known(Step(q, p), y) && y.Hops() > 0
    ensures y.Hops() <= Picked(q, p).Hops() + 1
  {
    var cur := Picked(q, p);
    StepShape(q, p);
    assert Known(p, cur);
    if Known(p, y) {
      assert Parent(y) in p.popped;
      assert Priority(q, Parent(y)) <= Priority(q, cur);
    } else {
      ExpandSound(q, cur, Adjacent(q, cur.End()), p.best, y);
    }
  }

  lemma StepCovers(q: Search, p: Progress, e: Relationship, n: NodeId)
    requires Inv(q, p) && p.queue != [] && Backed(Step(q, p))
    requires Expandable(q, Picked(q, p))
    requires Links(q, Picked(q, p).End(), e, n) && n in q.graph.nodes && n !in Picked(q, p).nodes
    ensures Covered(q, Step(q, p), Picked(q, p), e, n)
  {
    var p' := Step(q, p);
    var cur := Picked(q, p);
    StepShape(q, p);
    assert Known(p, cur);
    AdjacentMember(q, cur.End(), e);
    ExpandComplete(q, cur, Adjacent(q, cur.End()), p.best, e, n);
    var c := Extend(cur, e, n);
    if c in Pushed(q, p).routes {
      assert Known(p', c) && Joins(c, cur.Source(), n);
    } else {
      var k := (cur.Source(), n);
      assert k in p'.best && p'.best[k] <= c.cost;
      var y :| Known(p', y) && Joins(y, k.0, k.1) && y.cost == p'.best[k];
      if !q.algorithm.Weighted? {
        KnownIsNear(q, p, y);
      }
    }
  }

  lemma StepKeepsClosed(q: Search, p: Progress)
    requires Inv(q, p) && p.queue != []
    requires Sound(q, Step(q, p)) && Backed(Step(q, p))
    ensures Closed(q, Step(q, p))
  {
    var p' := Step(q, p);
    StepShape(q, p);
    forall r, e, n |
      r in p'.popped && Expandable(q, r)
      && Links(q, r.End(), e, n) && n in q.graph.nodes && n !in r.nodes
      ensures Covered(q, p', r, e, n)
    {
      if r == Picked(q, p) {
        StepCovers(q, p, e, n);
      } else {
        assert Covered(q, p, r, e, n);
        if !q.algorithm.All? {
          var y :| Known(p, y) && Joins(y, r.Source(), n) && Priority(q, y) <= Priority(q, r) + StepCost(q, e);
          assert Known(p', y);
        }
      }
    }
  }

  lemma StepKeepsInv(q: Search, p: Progress)
    requires Wellformed(q) && Inv(q, p) && p.queue != []
    ensures Inv(q, Step(q, p))
  {
    StepKeepsSound(q, p);
    StepKeepsOrdered(q, p);
    StepKeepsFresh(q, p);
    StepKeepsBacked(q, p);
    StepKeepsClosed(q, p);
  }

  lemma {:induction false} SeedsDistinct(q: Search, sources: seq<NodeId>)
    requires Distinct(sources)
    ensures Distinct(Seeds(q, sources))
  {
    if sources != [] {
      var n := |sources| - 1;
      var before := Seeds(q, sources[..n]);
      SeedsDistinct(q, sources[..n]);
      forall r | r in before ensures r != Origin(sources[n]) {
        var s :| s in sources[..n] && s in q.graph.nodes && r == Origin(s);
        assert r.nodes == [s];
      }
      DistinctConcat(before, [Origin(sources[n])]);
    }
  }

  lemma InitialInv(q: Search)
    requires Wellformed(q)
    ensures Inv(q, Initial(q))
  {
    SeedsDistinct(q, q.sources);
    var p := Initial(q);
    assert p.popped + p.queue == p.queue;
    forall r | Known(p, r) ensures IsRoute(q, r) && r.Hops() == 0 && InteriorClear(q, r) {
      var s :| s in q.sources && s in q.graph.nodes && r == Origin(s);
      OriginIsRoute(q, s);
    }
  }

  lemma {:induction false} ExploreKeepsInv(q: Search, p: Progress)
    requires Wellformed(q) && Inv(q, p)
    ensures Inv(q, Explore(q, p))
    decreases Measure(q, p.queue)
  {
    if !Done(q, p) {
      StepKeepsInv(q, p);
      StepDescends(q, p);
      ExploreKeepsInv(q, Step(q, p));
    }
  }

  lemma DiscoveredInv(q: Search)
    requires Wellformed(q)
    ensures Inv(q, Discovered(q))
  {
    InitialInv(q);
    ExploreKeepsInv(q, Initial(q));
  }
}
