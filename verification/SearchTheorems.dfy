/** What a search delivers: completeness of `all`, minimality of `shortest` and
    `weighted`, and the order of what is reported. */
module SearchTheorems {
  import opened AccessGraph
  import opened Sequences
  import opened PathSearch
  import opened SearchInvariants

  /** A route that competes in `shortest` and `weighted` mode, where targets are
      not walked through. */
  ghost predicate Rival(q: Search, r: Route)
  {
    IsRoute(q, r) && InteriorClear(q, r)
  }

  /** The depth bound turned no hop away. */
  ghost predicate NoCut(q: Search, popped: seq<Route>)
  {
    forall r, e, n ::
      r in popped && r.Hops() >= q.maxDepth && !Hit(q, r) && Links(q, r.End(), e, n) && n in q.graph.nodes
      ==> n in r.nodes
  }

  /** The rivals over which a search is minimal: in `shortest` mode those within
      the depth bound, in `weighted` mode all of them, provided nothing was cut. */
  ghost predicate InScope(q: Search, p: Progress, r: Route)
  {
    Rival(q, r) && if q.algorithm.Weighted? then NoCut(q, p.popped) else r.Hops() <= q.maxDepth
  }

  // ------------------------------------------------------------- the frontier

  /** A popped state has reached every node it went through, no later than it
      reached its end. */
  lemma {:induction false} PrefixReached(q: Search, p: Progress, x: Route, v: NodeId)
    requires Inv(q, p) && Known(p, x) && v in x.nodes && v != x.Source()
    ensures Reached(q, p, x.Source(), v, Priority(q, x))
    decreases x.Hops()
  {
    if v == x.End() {
      assert Joins(x, x.Source(), v);
    } else {
      ParentIsRoute(q, x);
      var u := Parent(x);
      assert Known(p, u);
      assert x.nodes == u.nodes + [x.End()];
      PrefixReached(q, p, u, v);
      var y :| Known(p, y) && Joins(y, u.Source(), v) && Priority(q, y) <= Priority(q, u);
      assert Joins(y, x.Source(), v) && Priority(q, y) <= Priority(q, x);
    }
  }

  /** One more hop from a popped state that stands where rival `r`'s parent ends. */
  lemma FrontierHop(q: Search, p: Progress, r: Route, x: Route)
    requires Inv(q, p) && !q.algorithm.All? && InScope(q, p, r) && r.Hops() > 0
    requires x in p.popped
    requires x.Source() == r.Source() && x.End() == Parent(r).End() && Priority(q, x) <= Priority(q, Parent(r)) && !Hit(q, x)
    ensures Reached(q, p, r.Source(), r.End(), Priority(q, r))
  {
    ParentIsRoute(q, r);
    assert Known(p, x);
    var e := r.rels[|r.rels| - 1];
    var v := r.End();
    assert Priority(q, r) == Priority(q, Parent(r)) + StepCost(q, e);
    if v in x.nodes {
      assert v != x.Source() by { assert Parent(r).nodes[0] != v; }
      PrefixReached(q, p, x, v);
      var y :| Known(p, y) && Joins(y, x.Source(), v) && Priority(q, y) <= Priority(q, x);
      assert Priority(q, y) <= Priority(q, r);
    } else {
      assert Links(q, x.End(), e, v);
      assert Expandable(q, x);
      assert Covered(q, p, x, e, v);
      var y :| Known(p, y) && Joins(y, x.Source(), v) && Priority(q, y) <= Priority(q, x) + StepCost(q, e);
      assert Priority(q, y) <= Priority(q, r);
    }
  }

  ghost predicate Pending(q: Search, p: Progress, bound: nat)
  {
    exists t :: t in p.queue && Priority(q, t) <= bound
  }

  /** At every moment each rival is either already matched by a generated state
      of its pair, or some waiting state precedes it. */
  lemma {:induction false} Frontier(q: Search, p: Progress, r: Route)
    requires Inv(q, p) && !q.algorithm.All? && InScope(q, p, r)
    ensures
      || Pending(q, p, Priority(q, r))
      || (if r.Hops() == 0 then r in p.popped else Reached(q, p, r.Source(), r.End(), Priority(q, r)))
    decreases r.Hops()
  {
    if r.Hops() == 0 {
      HopIsRoute(q, r);
      assert Known(p, Origin(r.nodes[0]));
    } else {
      ParentIsRoute(q, r);
      var u := Parent(r);
      Frontier(q, p, u);
      if Pending(q, p, Priority(q, u)) {
        var t :| t in p.queue && Priority(q, t) <= Priority(q, u);
        assert Priority(q, t) <= Priority(q, r);
      } else if u.Hops() == 0 {
        FrontierHop(q, p, r, u);
      } else {
        var y :| Known(p, y) && Joins(y, u.Source(), u.End()) && Priority(q, y) <= Priority(q, u);
        assert y in p.popped;
        FrontierHop(q, p, r, y);
      }
    }
  }

  // ------------------------------------------------------------- minimality

  /** The first entry of `s` for its pair of ends. */
  ghost predicate FirstOfPair(s: seq<Route>, i: nat)
  {
    && i < |s|
    && forall j :: 0 <= j < i ==> !Joins(s[j], s[i].Source(), s[i].End())
  }

  ghost predicate SameEnds(a: Route, b: Route)
  {
    a.Source() == b.Source() && a.End() == b.End()
  }

  ghost predicate Minimal(q: Search, p: Progress)
  {
    forall i: nat, r :: FirstOfPair(p.popped, i) && p.popped[i].Hops() > 0 && SameEnds(p.popped[i], r) && InScope(q, p, r)
      ==> Priority(q, p.popped[i]) <= Priority(q, r)
  }

  lemma PickedIsMinimal(q: Search, p: Progress, r: Route)
    requires Inv(q, p) && p.queue != [] && !q.algorithm.All?
    requires SameEnds(Picked(q, p), r) && InScope(q, p, r) && Picked(q, p).Hops() > 0
    requires forall y :: y in p.popped ==> !Joins(y, r.Source(), r.End())
    ensures Priority(q, Picked(q, p)) <= Priority(q, r)
  {
    var cur := Picked(q, p);
    StepShape(q, p);
    assert Known(p, cur) && cur.Source() != cur.End();
    Frontier(q, p, r);
    if Pending(q, p, Priority(q, r)) {
      var t :| t in p.queue && Priority(q, t) <= Priority(q, r);
    }
  }

  lemma StepMinimalAt(q: Search, p: Progress, i: nat, r: Route)
    requires Inv(q, p) && p.queue != [] && !q.algorithm.All? && Minimal(q, p)
    requires FirstOfPair(p.popped + [Picked(q, p)], i) && InScope(q, p, r)
    requires (p.popped + [Picked(q, p)])[i].Hops() > 0 && SameEnds((p.popped + [Picked(q, p)])[i], r)
    ensures Priority(q, (p.popped + [Picked(q, p)])[i]) <= Priority(q, r)
  {
    var s := p.popped + [Picked(q, p)];
    if i < |p.popped| {
      assert s[i] == p.popped[i];
      assert forall j :: 0 <= j < i ==> s[j] == p.popped[j];
      assert FirstOfPair(p.popped, i);
    } else {
      forall y | y in p.popped ensures !Joins(y, r.Source(), r.End()) {
        var j :| 0 <= j < |p.popped| && p.popped[j] == y;
        assert s[j] == y;
      }
      PickedIsMinimal(q, p, r);
    }
  }

  lemma StepKeepsMinimal(q: Search, p: Progress)
    requires Inv(q, p) && p.queue != [] && !q.algorithm.All? && Minimal(q, p)
    ensures Minimal(q, Step(q, p))
  {
    var p' := Step(q, p);
    assert p'.popped == p.popped + [Picked(q, p)];
    forall i: nat, r |
      FirstOfPair(p'.popped, i) && p'.popped[i].Hops() > 0 && SameEnds(p'.popped[i], r) && InScope(q, p', r)
      ensures Priority(q, p'.popped[i]) <= Priority(q, r)
    {
      ScopeShrinks(q, p, p', r);
      StepMinimalAt(q, p, i, r);
    }
  }

  lemma ScopeShrinks(q: Search, p: Progress, p': Progress, r: Route)
    requires InScope(q, p', r) && forall x :: x in p.popped ==> x in p'.popped
    ensures InScope(q, p, r)
  {
  }

  lemma {:induction false} ExploreKeepsMinimal(q: Search, p: Progress)
    requires Wellformed(q) && Inv(q, p) && !q.algorithm.All? && Minimal(q, p)
    ensures Minimal(q, Explore(q, p))
    decreases Measure(q, p.queue)
  {
    if !Done(q, p) {
      StepKeepsInv(q, p);
      StepKeepsMinimal(q, p);
      StepDescends(q, p);
      ExploreKeepsMinimal(q, Step(q, p));
    }
  }

  /** In `shortest` and `weighted` mode the first state popped for a pair is
      minimal among all rivals in scope, capped or not. */
  lemma FirstPoppedIsMinimal(q: Search, i: nat, r: Route)
    requires Wellformed(q) && !q.algorithm.All?
    requires FirstOfPair(Discovered(q).popped, i) && Discovered(q).popped[i].Hops() > 0
    requires SameEnds(Discovered(q).popped[i], r) && InScope(q, Discovered(q), r)
    ensures Priority(q, Discovered(q).popped[i]) <= Priority(q, r)
  {
    InitialInv(q);
    ExploreKeepsMinimal(q, Initial(q));
  }

  /** With as many hops allowed as a simple route can have, nothing is cut. */
  lemma DeepEnoughCutsNothing(q: Search)
    requires Wellformed(q) && |q.graph.nodes| <= q.maxDepth + 1
    ensures NoCut(q, Discovered(q).popped)
  {
    DiscoveredInv(q);
    var p := Discovered(q);
    forall r, e, n |
      r in p.popped && r.Hops() >= q.maxDepth && !Hit(q, r) && Links(q, r.End(), e, n) && n in q.graph.nodes
      ensures n in r.nodes
    {
      assert Known(p, r);
      RouteIsShort(q, r);
    }
  }

  // --------------------------------------------------------------- reporting

  /** The popped states that are reported, in pop order. */
  function Reported(q: Search, popped: seq<Route>): (rs: seq<Route>)
    ensures forall r :: r in rs <==> r in popped && Qualifies(q, r)
  {
    if popped == [] then [] else
      var n := |popped| - 1;
      assert popped == popped[..n] + [popped[n]];
      var rs := Reported(q, popped[..n]);
      if Qualifies(q, popped[n]) then rs + [popped[n]] else rs
  }

  lemma {:induction false} ReportedSorted(q: Search, s: seq<Route>)
    requires Distinct(s)
    requires forall i, j :: 0 <= i < j < |s| ==> Priority(q, s[i]) <= Priority(q, s[j])
    ensures Distinct(Reported(q, s))
    ensures forall i, j :: 0 <= i < j < |Reported(q, s)| ==> Priority(q, Reported(q, s)[i]) <= Priority(q, Reported(q, s)[j])
  {
    if s != [] {
      var n := |s| - 1;
      var rs := Reported(q, s[..n]);
      ReportedSorted(q, s[..n]);
      forall r | r in rs ensures r != s[n] && Priority(q, r) <= Priority(q, s[n]) {
        var j :| 0 <= j < n && s[j] == r;
      }
    }
  }

  ghost predicate FoundIsReported(q: Search, p: Progress)
  {
    p.found == Reported(q, p.popped)
  }

  lemma StepKeepsFound(q: Search, p: Progress)
    requires Wellformed(q) && Inv(q, p) && p.queue != [] && FoundIsReported(q, p)
    ensures FoundIsReported(q, Step(q, p)) && |Step(q, p).found| <= |p.found| + 1
  {
    var p' := Step(q, p);
    StepShape(q, p);
    NotBoth(p.popped, p.queue, Picked(q, p));
    assert p'.popped[..|p'.popped| - 1] == p.popped;
  }

  lemma {:induction false} ExploreKeepsFound(q: Search, p: Progress)
    requires Wellformed(q) && Inv(q, p) && FoundIsReported(q, p) && |p.found| <= q.maxPaths
    ensures FoundIsReported(q, Explore(q, p)) && |Explore(q, p).found| <= q.maxPaths
    decreases Measure(q, p.queue)
  {
    if !Done(q, p) {
      StepKeepsInv(q, p);
      StepKeepsFound(q, p);
      StepDescends(q, p);
      ExploreKeepsFound(q, Step(q, p));
    }
  }

  /** Every reported path is a popped route on a target that meets the minimum
      score; none is reported twice, none beyond the cap, and in `weighted` mode
      costs, otherwise hops, never decrease from one report to the next. */
  lemma FoundInOrder(q: Search)
    requires Wellformed(q)
    ensures FoundIsReported(q, Discovered(q))
    ensures Distinct(Discovered(q).found) && |Discovered(q).found| <= q.maxPaths
    ensures forall i, j :: 0 <= i < j < |Discovered(q).found| ==>
      Priority(q, Discovered(q).found[i]) <= Priority(q, Discovered(q).found[j])
  {
    InitialInv(q);
    ExploreKeepsFound(q, Initial(q));
    DiscoveredInv(q);
    var p := Discovered(q);
    forall i, j | 0 <= i < j < |p.popped| ensures p.popped[i] != p.popped[j] {
      assert (p.popped + p.queue)[i] != (p.popped + p.queue)[j];
    }
    ReportedSorted(q, p.popped);
  }

  // ----------------------------------------------------- completeness of `all`

  /** The paths an `all` search is asked for. */
  ghost predicate Wanted(q: Search, r: Route)
  {
    IsRoute(q, r) && 1 <= r.Hops() <= q.maxDepth && r.End() in q.targets && q.score(r) >= q.minimumScore
  }

  lemma {:induction false} AllReaches(q: Search, p: Progress, r: Route)
    requires Inv(q, p) && q.algorithm.All? && IsRoute(q, r) && r.Hops() <= q.maxDepth
    ensures r in p.popped || exists t :: t in p.queue && t.Hops() <= r.Hops()
    decreases r.Hops()
  {
    if r.Hops() == 0 {
      HopIsRoute(q, r);
      assert Known(p, Origin(r.nodes[0]));
    } else {
      ParentIsRoute(q, r);
      var u := Parent(r);
      AllReaches(q, p, u);
      if u in p.popped {
        assert Covered(q, p, u, r.rels[|r.rels| - 1], r.End());
        assert Known(p, r);
      } else {
        var t :| t in p.queue && t.Hops() <= u.Hops();
        assert t.Hops() <= r.Hops();
      }
    }
  }

  /** An `all` search reports wanted paths only; when the cap did not stop it, it
      reports every one of them; when the cap did, each omitted path is at least
      as long as each reported one. */
  lemma AllIsExact(q: Search, r: Route)
    requires Wellformed(q) && q.algorithm.All?
    ensures r in Discovered(q).found ==> Wanted(q, r)
    ensures |Discovered(q).found| < q.maxPaths && Wanted(q, r) ==> r in Discovered(q).found
    ensures Wanted(q, r) && r !in Discovered(q).found ==> forall x :: x in Discovered(q).found ==> x.Hops() <= r.Hops()
  {
    var p := Discovered(q);
    DiscoveredInv(q);
    FoundInOrder(q);
    if r in p.found {
      assert Known(p, r);
    }
    if Wanted(q, r) {
      AllReaches(q, p, r);
      if r !in p.popped {
        var t :| t in p.queue && t.Hops() <= r.Hops();
        forall x | x in p.found ensures x.Hops() <= r.Hops() {
          assert Priority(q, x) <= Priority(q, t);
        }
      }
    }
  }

  // ----------------------------------------- delivery of `shortest`, `weighted`

  /** No path to a target is turned down for its score. */
  ghost predicate AcceptsAll(q: Search)
  {
    forall r :: IsRoute(q, r) && Hit(q, r) ==> q.score(r) >= q.minimumScore
  }

  lemma {:induction false} EarliestOfPair(s: seq<Route>, i: nat) returns (k: nat)
    requires i < |s| && s[i].Hops() > 0
    ensures FirstOfPair(s, k) && s[k].Hops() > 0 && SameEnds(s[k], s[i])
    decreases i
  {
    if j :| 0 <= j < i && Joins(s[j], s[i].Source(), s[i].End()) {
      k := EarliestOfPair(s, j);
    } else {
      k := i;
    }
  }

  lemma PoppedTargetIsFound(q: Search, y: Route)
    requires Wellformed(q) && AcceptsAll(q)
    requires y in Discovered(q).popped && Hit(q, y)
    ensures y in Discovered(q).found
  {
    DiscoveredInv(q);
    FoundInOrder(q);
    assert Known(Discovered(q), y);
  }

  lemma FirstIsLeast(q: Search, found: seq<Route>, i: nat, y: Route)
    requires forall i, j :: 0 <= i < j < |found| ==> Priority(q, found[i]) <= Priority(q, found[j])
    requires FirstOfPair(found, i) && y in found && Joins(y, found[i].Source(), found[i].End())
    ensures Priority(q, found[i]) <= Priority(q, y)
  {
    var j :| 0 <= j < |found| && found[j] == y;
    assert i <= j;
  }

  /** The first path reported for a pair is minimal: fewest hops in `shortest`
      mode, least total weight in `weighted` mode. */
  lemma FirstFoundIsMinimal(q: Search, i: nat, r: Route)
    requires Wellformed(q) && !q.algorithm.All? && AcceptsAll(q)
    requires FirstOfPair(Discovered(q).found, i)
    requires SameEnds(Discovered(q).found[i], r) && InScope(q, Discovered(q), r)
    ensures Priority(q, Discovered(q).found[i]) <= Priority(q, r)
  {
    var found, popped := Discovered(q).found, Discovered(q).popped;
    FoundInOrder(q);
    assert found[i] in found;
    var m :| 0 <= m < |popped| && popped[m] == found[i];
    assert Hit(q, popped[m]);
    var k := EarliestOfPair(popped, m);
    FirstPoppedIsMinimal(q, k, r);
    PoppedTargetIsFound(q, popped[k]);
    FirstIsLeast(q, found, i, popped[k]);
  }

  lemma DrainedMatches(q: Search, p: Progress, r: Route) returns (y: Route)
    requires Inv(q, p) && !q.algorithm.All? && InScope(q, p, r) && Hit(q, r) && p.queue == []
    ensures y in p.popped && SameEnds(y, r) && Hit(q, y)
  {
    Frontier(q, p, r);
    y :| Known(p, y) && Joins(y, r.Source(), r.End()) && Priority(q, y) <= Priority(q, r);
  }

  /** Unless the cap stops the search, every target with a rival route in scope
      is reported. */
  lemma EveryTargetIsFound(q: Search, r: Route)
    requires Wellformed(q) && !q.algorithm.All? && AcceptsAll(q)
    requires |Discovered(q).found| < q.maxPaths
    requires InScope(q, Discovered(q), r) && Hit(q, r)
    ensures exists y :: y in Discovered(q).found && SameEnds(y, r)
  {
    var p := Discovered(q);
    DiscoveredInv(q);
    var y := DrainedMatches(q, p, r);
    PoppedTargetIsFound(q, y);
  }
}
