/** Choke points: how many of the discovered paths run through a node. */
module ChokePoints {
  import opened AccessGraph
  import opened Sequences
  import opened PathSearch
  import opened SearchInvariants
  import opened SearchTheorems
  import opened AttackPathService

  datatype Stat = Stat(paths: set<Route>, sources: set<NodeId>, targets: set<NodeId>)

  const NoPaths := Stat({}, {}, {})

  datatype ChokePoint = ChokePoint(node: NodeId, pathCount: nat, percentage: real, sourceCount: nat, targetCount: nat)

  /** The nodes of a path without its two ends. */
  function Interior(r: Route): seq<NodeId>
  {
    if |r.nodes| < 2 then [] else r.nodes[1..|r.nodes| - 1]
  }

  function Add(s: Stat, path: Route): Stat
  {
    Stat(s.paths + {path}, s.sources + {path.Source()}, s.targets + {path.End()})
  }

  /** The entry of node `n` once all `paths` are aggregated. */
  function StatOf(paths: seq<Route>, n: NodeId): Stat
  {
    if paths == [] then NoPaths else
      var k := |paths| - 1;
      var s := StatOf(paths[..k], n);
      if n in Interior(paths[k]) then Add(s, paths[k]) else s
  }

  function Through(paths: seq<Route>, n: NodeId): set<Route>
  {
    set p | p in paths && n in Interior(p)
  }

  lemma ThroughLast(before: seq<Route>, p: Route, n: NodeId)
    ensures Through(before + [p], n) == Through(before, n) + (if n in Interior(p) then {p} else {})
  {
  }

  /** The entry lists the paths `through` with their sources and targets. */
  ghost predicate Describes(s: Stat, through: set<Route>)
  {
    && s.paths == through
    && (forall x :: x in s.sources <==> exists p :: p in through && p.Source() == x)
    && (forall x :: x in s.targets <==> exists p :: p in through && p.End() == x)
  }

  lemma DescribesMore(s: Stat, through: set<Route>, path: Route)
    requires Describes(s, through)
    ensures Describes(Add(s, path), through + {path})
  {
    var more := through + {path};
    assert path in more;
    forall x | x in s.sources ensures exists p :: p in more && p.Source() == x {
      var p :| p in through && p.Source() == x;
      assert p in more;
    }
    forall x | x in s.targets ensures exists p :: p in more && p.End() == x {
      var p :| p in through && p.End() == x;
      assert p in more;
    }
  }

  /** A node's entry holds exactly the paths that run through it, with their
      sources and targets. */
  lemma {:induction false} StatMeaning(paths: seq<Route>, n: NodeId)
    ensures Describes(StatOf(paths, n), Through(paths, n))
  {
    if paths != [] {
      var k := |paths| - 1;
      StatMeaning(paths[..k], n);
      assert paths == paths[..k] + [paths[k]];
      ThroughLast(paths[..k], paths[k], n);
      DescribesMore(StatOf(paths[..k], n), Through(paths[..k], n), paths[k]);
    }
  }

  // ------------------------------------------------------------- the tally

  function Entry(stats: map<NodeId, Stat>, n: NodeId): Stat
  {
    if n in stats then stats[n] else NoPaths
  }

  /** `stats` aggregates `paths` and, of one more path, the nodes in `extra`. */
  ghost predicate Tallied(paths: seq<Route>, path: Route, extra: seq<NodeId>, stats: map<NodeId, Stat>, keys: seq<NodeId>)
  {
    && Distinct(keys)
    && (forall n :: n in keys <==> n in stats)
    && (forall n :: n in stats ==> stats[n].paths != {})
    && (forall n :: Entry(stats, n) == if n in extra then Add(StatOf(paths, n), path) else StatOf(paths, n))
  }

  lemma EnterKeepsTally(paths: seq<Route>, path: Route, extra: seq<NodeId>, n: NodeId, stats: map<NodeId, Stat>, keys: seq<NodeId>)
    requires n !in extra && Tallied(paths, path, extra, stats, keys)
    ensures Tallied(paths, path, extra + [n], stats[n := Add(Entry(stats, n), path)], if n in stats then keys else keys + [n])
  {
    var stats' := stats[n := Add(Entry(stats, n), path)];
    forall m ensures Entry(stats', m) == if m in extra + [n] then Add(StatOf(paths, m), path) else StatOf(paths, m) {
      if m != n {
        assert Entry(stats', m) == Entry(stats, m);
        assert m in extra + [n] <==> m in extra;
      }
    }
    assert path in stats'[n].paths;
  }

  lemma PathDone(paths: seq<Route>, path: Route, stats: map<NodeId, Stat>, keys: seq<NodeId>, next: Route)
    requires Tallied(paths, path, Interior(path), stats, keys)
    ensures Tallied(paths + [path], next, [], stats, keys)
  {
    assert (paths + [path])[..|paths|] == paths;
  }

  /** The aggregation loop over the discovered paths. */
  method Tally(paths: seq<Route>) returns (stats: map<NodeId, Stat>, keys: seq<NodeId>)
    requires (forall p :: p in paths ==> Distinct(p.nodes))
    ensures Distinct(keys) && (forall n :: n in keys <==> n in stats)
    ensures forall n :: n in stats ==> stats[n] == StatOf(paths, n) && stats[n].paths != {}
    ensures forall n :: n !in stats ==> StatOf(paths, n) == NoPaths
  {
    stats, keys := map[], [];
    ghost var any := Origin(0);
    for i := 0 to |paths|
      invariant Tallied(paths[..i], any, [], stats, keys)
    {
      var path := paths[i];
      var inner := Interior(path);
      assert inner[..0] == [];
      for k := 0 to |inner|
        invariant Tallied(paths[..i], path, inner[..k], stats, keys)
      {
        assert inner[k] !in inner[..k] by { assert forall j :: 0 <= j < k ==> inner[j] == path.nodes[j + 1]; }
        assert inner[..k + 1] == inner[..k] + [inner[k]];
        EnterKeepsTally(paths[..i], path, inner[..k], inner[k], stats, keys);
        keys := if inner[k] in stats then keys else keys + [inner[k]];
        stats := stats[inner[k] := Add(Entry(stats, inner[k]), path)];
      }
      assert inner[..|inner|] == inner;
      PathDone(paths[..i], path, stats, keys, any);
      assert paths[..i + 1] == paths[..i] + [path];
    }
    assert paths[..|paths|] == paths;
    forall n ensures Entry(stats, n) == StatOf(paths, n) {
    }
  }

  // ------------------------------------------------------------ the ranking

  /** The share of `count` in `total`, in percent rounded to two decimals. */
  function Percent(count: nat, total: nat): real
  {
    if total == 0 then 0.0 else
      ((count * 10000) as real / total as real + 0.5).Floor as real / 100.0
  }

  function PointOf(paths: seq<Route>, n: NodeId): ChokePoint
  {
    var s := StatOf(paths, n);
    ChokePoint(n, |s.paths|, Percent(|s.paths|, |paths|), |s.sources|, |s.targets|)
  }

  predicate Above(a: ChokePoint, b: ChokePoint)
  {
    || a.pathCount > b.pathCount
    || (a.pathCount == b.pathCount
        && (a.percentage > b.percentage || (a.percentage == b.percentage && a.node < b.node)))
  }

  function PointOrder(): (ChokePoint, ChokePoint) -> bool
  {
    (a: ChokePoint, b: ChokePoint) => Above(a, b)
  }

  datatype Analysis = Points(points: seq<ChokePoint>) | AnalysisTimedOut

  /** What an analysis reports for `paths`: one entry for every node inside some
      path, highest first. */
  ghost predicate Reports(points: seq<ChokePoint>, paths: seq<Route>)
  {
    && (forall i, j :: 0 <= i < j < |points| ==> points[i].node != points[j].node && !Above(points[j], points[i]))
    && (forall c :: c in points <==> c == PointOf(paths, c.node) && Through(paths, c.node) != {})
  }

  method Analyse(q: Search, expired: nat -> bool) returns (result: Analysis)
    requires Wellformed(q)
    ensures result.Points? ==> Reports(result.points, Returned(q.(algorithm := All)))
    ensures result.Points? ==> Measured(result.points, Returned(q.(algorithm := All)))
    ensures result.AnalysisTimedOut? <==> !InTime(expired, |Discovered(q.(algorithm := All)).popped|)
  {
    var all := q.(algorithm := All);
    var outcome := Discover(all, expired);
    if outcome.TimedOut? {
      return AnalysisTimedOut;
    }
    var paths := outcome.paths;
    forall p | p in paths ensures Distinct(p.nodes) {
      AllReturnsExactly(all, p);
    }
    var stats, keys := Tally(paths);
    var points := Evaluate(paths, stats, keys);
    PointsReported(paths, keys, points);
    ReportsMeasured(Sort(PointOrder(), points), paths);
    return Points(Sort(PointOrder(), points));
  }

  /** Turns the entries into counts. */
  method Evaluate(paths: seq<Route>, stats: map<NodeId, Stat>, keys: seq<NodeId>) returns (points: seq<ChokePoint>)
    requires forall n :: n in keys ==> n in stats && stats[n] == StatOf(paths, n)
    ensures |points| == |keys| && forall i :: 0 <= i < |keys| ==> points[i] == PointOf(paths, keys[i])
  {
    points := [];
    for k := 0 to |keys|
      invariant |points| == k && forall i :: 0 <= i < k ==> points[i] == PointOf(paths, keys[i])
    {
      var s := stats[keys[k]];
      points := points + [ChokePoint(keys[k], |s.paths|, Percent(|s.paths|, |paths|), |s.sources|, |s.targets|)];
    }
  }

  lemma PointsReported(paths: seq<Route>, keys: seq<NodeId>, points: seq<ChokePoint>)
    requires Distinct(keys) && |points| == |keys|
    requires forall n :: n in keys <==> StatOf(paths, n).paths != {}
    requires forall i :: 0 <= i < |keys| ==> points[i] == PointOf(paths, keys[i])
    ensures Reports(Sort(PointOrder(), points), paths)
  {
    forall c ensures c in points <==> c == PointOf(paths, c.node) && Through(paths, c.node) != {} {
      PointListed(paths, keys, points, c);
    }
    forall i, j | 0 <= i < j < |points| ensures points[i] != points[j] {
      assert points[i].node == keys[i] && points[j].node == keys[j];
    }
    RankingReports(paths, points);
  }

  /** An entry counts the paths that run through its node and their distinct sources
      and targets, and shows their share in percent, off by half a hundredth at most
      and without further decimals. */
  ghost predicate Measures(c: ChokePoint, paths: seq<Route>)
  {
    var through := set p | p in paths && c.node in Interior(p);
    && c.pathCount == |through| && through != {}
    && c.sourceCount == |set p | p in through :: p.Source()| && c.targetCount == |set p | p in through :: p.End()|
    && CloseTo(c.percentage, c.pathCount, |paths|)
  }

  ghost predicate CloseTo(percentage: real, count: nat, total: nat)
  {
    && -0.005 * total as real <= percentage * total as real - 100.0 * count as real <= 0.005 * total as real
    && percentage * 100.0 == (percentage * 100.0).Floor as real
  }

  /** One entry per node, the most frequented first, then by share and by node. */
  ghost predicate Measured(points: seq<ChokePoint>, paths: seq<Route>)
  {
    && (forall c :: c in points ==> Measures(c, paths))
    && (forall p, n :: p in paths && n in Interior(p) ==> exists i :: 0 <= i < |points| && points[i].node == n)
    && (forall i, j :: 0 <= i < j < |points| ==>
          && points[i].pathCount >= points[j].pathCount
          && (points[i].pathCount == points[j].pathCount ==> points[i].percentage >= points[j].percentage)
          && (points[i].pathCount == points[j].pathCount && points[i].percentage == points[j].percentage ==>
                points[i].node < points[j].node))
  }

  lemma PercentIsClose(count: nat, total: nat)
    requires total > 0
    ensures CloseTo(Percent(count, total), count, total)
  {
    var t, k := total as real, count as real;
    var share := (count * 10000) as real / t;
    assert (count * 10000) as real == 10000.0 * k;
    ShareTimes(10000.0 * k, t);
    var f := (share + 0.5).Floor;
    assert Percent(count, total) * 100.0 == f as real;
    Between(share, f as real, t, k);
  }

  lemma ShareTimes(x: real, t: real)
    requires t > 0.0
    ensures x / t * t == x
  {
  }

  lemma Between(share: real, f: real, t: real, k: real)
    requires t > 0.0 && share * t == 10000.0 * k && share - 0.5 <= f <= share + 0.5
    ensures -0.005 * t <= f / 100.0 * t - 100.0 * k <= 0.005 * t
  {
    var d := f - share;
    var whole, off := f * t, d * t;
    assert whole == 10000.0 * k + off by { assert f == share + d; Spread(share, d, t); }
    Bounded(d, t);
    Hundredth(f, t);
    assert f / 100.0 * t == whole / 100.0;
  }

  lemma Spread(a: real, b: real, t: real)
    ensures (a + b) * t == a * t + b * t
  {
  }

  lemma Hundredth(f: real, t: real)
    ensures f / 100.0 * t == f * t / 100.0
  {
  }

  lemma Bounded(d: real, t: real)
    requires t > 0.0 && -0.5 <= d <= 0.5
    ensures -0.5 * t <= d * t <= 0.5 * t
  {
  }

  lemma PointMeasures(paths: seq<Route>, n: NodeId)
    requires Through(paths, n) != {}
    ensures Measures(PointOf(paths, n), paths)
  {
    StatMeaning(paths, n);
    var s, through := StatOf(paths, n), Through(paths, n);
    assert through == set p | p in paths && n in Interior(p);
    assert s.sources == set p | p in through :: p.Source();
    assert s.targets == set p | p in through :: p.End();
    var p :| p in through;
    assert |paths| > 0;
    PercentIsClose(|s.paths|, |paths|);
  }

  lemma ReportsMeasured(points: seq<ChokePoint>, paths: seq<Route>)
    requires Reports(points, paths)
    ensures Measured(points, paths)
  {
    forall c | c in points ensures Measures(c, paths) {
      PointMeasures(paths, c.node);
    }
    forall p, n | p in paths && n in Interior(p) ensures exists i :: 0 <= i < |points| && points[i].node == n {
      assert p in Through(paths, n);
      assert PointOf(paths, n) in points;
      var i :| 0 <= i < |points| && points[i] == PointOf(paths, n);
    }
    forall i, j | 0 <= i < j < |points|
      ensures points[i].pathCount >= points[j].pathCount
      ensures points[i].pathCount == points[j].pathCount ==> points[i].percentage >= points[j].percentage
      ensures points[i].pathCount == points[j].pathCount && points[i].percentage == points[j].percentage ==>
                points[i].node < points[j].node
    {
      assert !Above(points[j], points[i]) && points[i].node != points[j].node;
    }
  }

  lemma PointListed(paths: seq<Route>, keys: seq<NodeId>, points: seq<ChokePoint>, c: ChokePoint)
    requires |points| == |keys|
    requires forall n :: n in keys <==> StatOf(paths, n).paths != {}
    requires forall i :: 0 <= i < |keys| ==> points[i] == PointOf(paths, keys[i])
    ensures c in points <==> c == PointOf(paths, c.node) && Through(paths, c.node) != {}
  {
    StatMeaning(paths, c.node);
    if c.node in keys {
      var i :| 0 <= i < |keys| && keys[i] == c.node;
      assert points[i] == PointOf(paths, c.node) && points[i] in points;
    }
  }

  lemma RankingReports(paths: seq<Route>, points: seq<ChokePoint>)
    requires Distinct(points)
    requires forall c :: c in points <==> c == PointOf(paths, c.node) && Through(paths, c.node) != {}
    ensures Reports(Sort(PointOrder(), points), paths)
  {
    var out := Sort(PointOrder(), points);
    SortIsSorted(PointOrder(), points);
    SortKeepsDistinct(PointOrder(), points);
    forall c ensures c in out <==> c in points {
      SortMember(PointOrder(), points, c);
    }
    forall i, j | 0 <= i < j < |out| ensures out[i].node != out[j].node && !Above(out[j], out[i]) {
      assert out[i] in out && out[j] in out;
      assert !PointOrder()(out[j], out[i]);
    }
  }

  // ------------------------------------------------------- what the count says

  /** The search on the graph without node `n`. */
  function Remove(q: Search, n: NodeId): Search
  {
    q.(graph := Graph(Filter(q.graph.nodes, (m: NodeId) => m != n),
                      Filter(q.graph.relationships, (e: Relationship) => e.source != n && e.target != n)))
  }

  /** The routes of the reduced graph are the routes that avoid the node. */
  lemma RemoveRoutes(q: Search, n: NodeId, r: Route)
    ensures IsRoute(Remove(q, n), r) <==> IsRoute(q, r) && n !in r.nodes
  {
    var q' := Remove(q, n);
    if IsRoute(q, r) && n !in r.nodes {
      forall i | 0 <= i < |r.rels| ensures Links(q', r.nodes[i], r.rels[i], r.nodes[i + 1]) {
        assert Links(q, r.nodes[i], r.rels[i], r.nodes[i + 1]);
      }
    }
    if IsRoute(q', r) {
      forall i | 0 <= i < |r.rels| ensures Links(q, r.nodes[i], r.rels[i], r.nodes[i + 1]) {
        assert Links(q', r.nodes[i], r.rels[i], r.nodes[i + 1]);
      }
      forall m | m in r.nodes ensures m in q.graph.nodes && m != n {
        assert m in q'.graph.nodes;
      }
    }
  }

  lemma EndsAreNotInterior(q: Search, r: Route, n: NodeId)
    requires IsRoute(q, r) && n != r.Source() && n != r.End()
    ensures n in r.nodes <==> n in Interior(r)
  {
    if n in r.nodes {
      var i :| 0 <= i < |r.nodes| && r.nodes[i] == n;
      assert Interior(r)[i - 1] == n;
    }
  }

  lemma ThroughAll(paths: seq<Route>, n: NodeId)
    requires Distinct(paths)
    ensures |Through(paths, n)| == |paths| <==> forall p :: p in paths ==> n in Interior(p)
  {
    DistinctCount(paths);
    assert Through(paths, n) <= Elements(paths);
    if |Through(paths, n)| == |paths| {
      SubsetEqual(Through(paths, n), Elements(paths));
      forall p | p in paths ensures n in Interior(p) {
        assert p in Elements(paths);
      }
    }
    if forall p :: p in paths ==> n in Interior(p) {
      assert Through(paths, n) == Elements(paths);
    }
  }

  /** With one source and one target, no score filter and an untruncated,
      non-empty result, a node other than the two is on every discovered path
      exactly when deleting it leaves no path from source to target within the
      depth bound. */
  lemma ChokePointIsCut(q: Search, s: NodeId, t: NodeId, n: NodeId)
    requires Wellformed(q) && q.algorithm.All? && AcceptsAll(q)
    requires q.sources == [s] && q.targets == {t} && n != s && n != t
    requires 0 < |Returned(q)| < q.maxPaths
    ensures PointOf(Returned(q), n).pathCount == |Returned(q)| <==> !exists r :: Wanted(Remove(q, n), r)
  {
    var paths := Returned(q);
    AllReturnsExactly(q, paths[0]);
    StatMeaning(paths, n);
    ThroughAll(paths, n);
    if p :| p in paths && n !in Interior(p) {
      WantedWithout(q, s, t, n, p);
    }
    if r :| Wanted(Remove(q, n), r) {
      WantedWithout(q, s, t, n, r);
    }
  }

  lemma WantedWithout(q: Search, s: NodeId, t: NodeId, n: NodeId, r: Route)
    requires Wellformed(q) && q.algorithm.All? && q.sources == [s] && q.targets == {t} && n != s && n != t
    requires |Returned(q)| < q.maxPaths
    ensures Wanted(Remove(q, n), r) <==> r in Returned(q) && n !in Interior(r)
  {
    AllReturnsExactly(q, r);
    RemoveRoutes(q, n, r);
    if IsRoute(q, r) && Hit(q, r) {
      EndsAreNotInterior(q, r, n);
    }
  }

  lemma WholeShare(t: real)
    requires t > 0.0
    ensures (10000.0 * t) / t == 10000.0
  {
  }

  lemma ShareOfLess(count: nat, total: nat)
    requires count < total <= 200
    ensures count * 10000 <= 9950 * total
  {
  }

  /** Up to the service's cap of 200 paths, only a node on every path is shown
      with 100 percent. */
  lemma FullShare(count: nat, total: nat)
    requires count <= total && 0 < total <= 200
    ensures Percent(count, total) == 100.0 <==> count == total
  {
    var share := (count * 10000) as real / total as real;
    if count < total {
      ShareOfLess(count, total);
      assert share <= 9950.0;
    } else {
      WholeShare(total as real);
    }
  }

  // ------------------------------------------------------------ conservation

  function SumOfCounts(paths: seq<Route>, nodes: seq<NodeId>): nat
  {
    if nodes == [] then 0 else
      SumOfCounts(paths, nodes[..|nodes| - 1]) + |StatOf(paths, nodes[|nodes| - 1]).paths|
  }

  function SumOfInteriors(paths: seq<Route>): nat
  {
    if paths == [] then 0 else SumOfInteriors(paths[..|paths| - 1]) + |Interior(paths[|paths| - 1])|
  }

  /** How many of `nodes` lie inside `p`. */
  function Hits(p: Route, nodes: seq<NodeId>): nat
  {
    if nodes == [] then 0 else
      Hits(p, nodes[..|nodes| - 1]) + (if nodes[|nodes| - 1] in Interior(p) then 1 else 0)
  }

  lemma MeetGrows<T>(inner: set<T>, before: set<T>, x: T)
    requires x !in before
    ensures |inner * (before + {x})| == |inner * before| + (if x in inner then 1 else 0)
  {
    assert inner * (before + {x}) == inner * before + (if x in inner then {x} else {});
  }

  lemma {:induction false} HitsCount(p: Route, nodes: seq<NodeId>)
    requires Distinct(nodes)
    ensures Hits(p, nodes) == |Elements(Interior(p)) * Elements(nodes)|
  {
    var inner := Elements(Interior(p));
    if nodes == [] {
      assert inner * Elements(nodes) == {};
    } else {
      var k := |nodes| - 1;
      HitsCount(p, nodes[..k]);
      ElementsSplit(nodes);
      MeetGrows(inner, Elements(nodes[..k]), nodes[k]);
    }
  }

  lemma {:induction false} CountsGrow(paths: seq<Route>, p: Route, nodes: seq<NodeId>)
    requires p !in paths
    ensures SumOfCounts(paths + [p], nodes) == SumOfCounts(paths, nodes) + Hits(p, nodes)
  {
    if nodes != [] {
      var n := nodes[|nodes| - 1];
      CountsGrow(paths, p, nodes[..|nodes| - 1]);
      assert (paths + [p])[..|paths|] == paths;
      StatMeaning(paths, n);
      assert p !in Through(paths, n);
    }
  }

  lemma AllInside(p: Route, nodes: seq<NodeId>)
    requires Distinct(p.nodes) && Distinct(nodes) && forall n :: n in Interior(p) ==> n in nodes
    ensures Hits(p, nodes) == |Interior(p)|
  {
    HitsCount(p, nodes);
    assert Elements(Interior(p)) * Elements(nodes) == Elements(Interior(p));
    DistinctCount(Interior(p));
  }

  /** Double counting: over any list of nodes that covers the insides of all
      paths, the path counts add up to the insides' total length. */
  lemma {:induction false} CountsAddUp(paths: seq<Route>, nodes: seq<NodeId>)
    requires Distinct(paths) && Distinct(nodes) && forall p :: p in paths ==> Distinct(p.nodes)
    requires forall p, n :: p in paths && n in Interior(p) ==> n in nodes
    ensures SumOfCounts(paths, nodes) == SumOfInteriors(paths)
  {
    if paths == [] {
      NoCounts(nodes);
    } else {
      var k := |paths| - 1;
      assert paths == paths[..k] + [paths[k]];
      CountsAddUp(paths[..k], nodes);
      CountsGrow(paths[..k], paths[k], nodes);
      AllInside(paths[k], nodes);
    }
  }

  lemma {:induction false} NoCounts(nodes: seq<NodeId>)
    ensures SumOfCounts([], nodes) == 0
  {
    if nodes != [] {
      NoCounts(nodes[..|nodes| - 1]);
    }
  }

  function NodesOf(points: seq<ChokePoint>): (nodes: seq<NodeId>)
    ensures |nodes| == |points| && forall i :: 0 <= i < |points| ==> nodes[i] == points[i].node
  {
    seq(|points|, i requires 0 <= i < |points| => points[i].node)
  }

  /** The sum of the reported path counts. */
  function TotalCount(points: seq<ChokePoint>): nat
  {
    if points == [] then 0 else TotalCount(points[..|points| - 1]) + points[|points| - 1].pathCount
  }

  /** The sum of the paths' depths less one each. */
  function TotalInner(paths: seq<Route>): int
  {
    if paths == [] then 0 else TotalInner(paths[..|paths| - 1]) + paths[|paths| - 1].Hops() - 1
  }

  lemma {:induction false} TotalIsSum(paths: seq<Route>, points: seq<ChokePoint>)
    requires forall i :: 0 <= i < |points| ==> points[i] == PointOf(paths, points[i].node)
    ensures TotalCount(points) == SumOfCounts(paths, NodesOf(points))
  {
    if points != [] {
      var k := |points| - 1;
      TotalIsSum(paths, points[..k]);
      assert NodesOf(points)[..k] == NodesOf(points[..k]);
    }
  }

  lemma {:induction false} InnerIsSum(paths: seq<Route>)
    requires forall p :: p in paths ==> p.Hops() >= 1 && |p.nodes| == p.Hops() + 1
    ensures TotalInner(paths) == SumOfInteriors(paths)
  {
    if paths != [] {
      var k := |paths| - 1;
      assert paths == paths[..k] + [paths[k]];
      InnerIsSum(paths[..k]);
    }
  }

  /** The path counts that an analysis reports add up to the depths, less one each,
      of the paths it is based on. */
  lemma ReportedCountsAddUp(q: Search, points: seq<ChokePoint>)
    requires Wellformed(q) && q.algorithm.All? && Reports(points, Returned(q))
    ensures TotalCount(points) == TotalInner(Returned(q))
  {
    var paths, nodes := Returned(q), NodesOf(points);
    forall p | p in paths ensures p.Hops() >= 1 && |p.nodes| == p.Hops() + 1 && Distinct(p.nodes) {
      AllReturnsExactly(q, p);
    }
    ReturnedIsFound(q);
    forall i | 0 <= i < |points| ensures points[i] == PointOf(paths, points[i].node) {
      assert points[i] in points;
    }
    forall p, n | p in paths && n in Interior(p) ensures n in nodes {
      PointReported(paths, points, p, n);
    }
    TotalIsSum(paths, points);
    CountsAddUp(paths, nodes);
    InnerIsSum(paths);
  }

  lemma PointReported(paths: seq<Route>, points: seq<ChokePoint>, p: Route, n: NodeId)
    requires Reports(points, paths) && p in paths && n in Interior(p)
    ensures n in NodesOf(points)
  {
    assert p in Through(paths, n);
    assert PointOf(paths, n) in points;
    var i :| 0 <= i < |points| && points[i] == PointOf(paths, n);
    assert NodesOf(points)[i] == n;
  }
}
