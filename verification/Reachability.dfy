/** The breadth-first reachability behind the blast radius, and its agreement
    with the path search. */
module Reachability {
  import opened AccessGraph
  import opened Sequences
  import opened PathSearch
  import opened SearchInvariants
  import opened SearchTheorems
  import opened AttackPathService

  /** Some walk of exactly `k` allowed hops leads from `s` to `v`. */
  ghost predicate Walk(q: Search, s: NodeId, v: NodeId, k: nat)
    decreases k
  {
    if k == 0 then s == v else exists u, e :: Walk(q, s, u, k - 1) && Links(q, u, e, v)
  }

  /** `v` is `k` hops away from `s` and not nearer. */
  ghost predicate Distance(q: Search, s: NodeId, v: NodeId, k: nat)
  {
    Walk(q, s, v, k) && forall j: nat :: j < k ==> !Walk(q, s, v, j)
  }

  /** `v` lies within the depth bound of the search. */
  ghost predicate Within(q: Search, s: NodeId, v: NodeId)
  {
    exists k: nat :: k <= q.maxDepth && Walk(q, s, v, k)
  }

  datatype Visit = Visit(id: NodeId, depth: nat)

  /** `seen` lists the reached nodes in order of arrival. */
  datatype Reach = Reach(seen: seq<NodeId>, relationships: seq<Relationship>, maximumDepth: nat)

  /** `e` is walked from one of the earlier nodes to `v`, one level deeper. */
  ghost predicate TreeEdge(q: Search, depth: map<NodeId, nat>, earlier: seq<NodeId>, e: Relationship, v: NodeId)
  {
    exists u :: u in earlier && u in depth && v in depth && Links(q, u, e, v) && depth[v] == depth[u] + 1
  }

  ghost predicate Tree(q: Search, depth: map<NodeId, nat>, seen: seq<NodeId>, rels: seq<Relationship>)
  {
    && |seen| == |rels| + 1
    && forall i :: 0 <= i < |rels| ==> TreeEdge(q, depth, seen[..i + 1], rels[i], seen[i + 1])
  }

  ghost predicate Grown(q: Search, s: NodeId, r: Reach, depth: map<NodeId, nat>)
  {
    && Distinct(r.seen)
    && (forall v :: v in r.seen <==> v in depth)
    && Tree(q, depth, r.seen, r.relationships)
    && r.seen[0] == s && s in depth && depth[s] == 0
    && (forall v :: v in depth ==> Walk(q, s, v, depth[v]) && depth[v] <= r.maximumDepth)
    && (exists v :: v in depth && depth[v] == r.maximumDepth)
  }

  /** Node `u` has been dealt with as far as the relationships in `rels` go. */
  ghost predicate Handled(q: Search, depth: map<NodeId, nat>, u: NodeId, rels: seq<Relationship>)
    requires u in depth
  {
    forall e, v :: e in rels && Links(q, u, e, v) ==> v in depth && depth[v] <= depth[u] + 1
  }

  ghost predicate Waiting(queue: seq<Visit>, v: NodeId)
  {
    exists i :: 0 <= i < |queue| && queue[i].id == v
  }

  /** The queue runs over at most two levels, the nodes off it are handled. */
  ghost predicate Level(q: Search, depth: map<NodeId, nat>, queue: seq<Visit>, low: nat)
  {
    && (forall i :: 0 <= i < |queue| ==> queue[i].id in depth && depth[queue[i].id] == queue[i].depth && low <= queue[i].depth)
    && (forall i, j :: 0 <= i < j < |queue| ==> queue[i].depth <= queue[j].depth)
    && (forall v :: v in depth ==> depth[v] <= low + 1 && depth[v] <= q.maxDepth)
  }

  lemma TreeGrows(q: Search, depth: map<NodeId, nat>, seen: seq<NodeId>, rels: seq<Relationship>, u: NodeId, e: Relationship, v: NodeId)
    requires Tree(q, depth, seen, rels) && u in seen && u in depth && v !in depth && Links(q, u, e, v)
    ensures Tree(q, depth[v := depth[u] + 1], seen + [v], rels + [e])
  {
    var depth', seen', rels' := depth[v := depth[u] + 1], seen + [v], rels + [e];
    forall i | 0 <= i < |rels'| ensures TreeEdge(q, depth', seen'[..i + 1], rels'[i], seen'[i + 1]) {
      if i < |rels| {
        assert TreeEdge(q, depth, seen[..i + 1], rels[i], seen[i + 1]);
        assert seen'[..i + 1] == seen[..i + 1];
      } else {
        assert seen'[..i + 1] == seen;
      }
    }
  }

  function Deeper(a: nat, b: nat): nat { if a > b then a else b }

  lemma GrowsBy(q: Search, s: NodeId, r: Reach, depth: map<NodeId, nat>, u: NodeId, e: Relationship, v: NodeId)
    requires Grown(q, s, r, depth) && u in depth && v !in depth && Links(q, u, e, v)
    ensures Grown(q, s, Reach(r.seen + [v], r.relationships + [e], Deeper(depth[u] + 1, r.maximumDepth)), depth[v := depth[u] + 1])
  {
    var depth' := depth[v := depth[u] + 1];
    var m := Deeper(depth[u] + 1, r.maximumDepth);
    TreeGrows(q, depth, r.seen, r.relationships, u, e, v);
    assert Walk(q, s, v, depth[u] + 1) by { assert Walk(q, s, u, depth[u]) && Links(q, u, e, v); }
    var top :| top in depth && depth[top] == r.maximumDepth;
    assert if m == r.maximumDepth then depth'[top] == m else depth'[v] == m;
  }

  /** All ids a search can ever see. */
  function Universe(q: Search, s: NodeId): set<NodeId>
  {
    {s} + (set e | e in q.graph.relationships :: e.source) + (set e | e in q.graph.relationships :: e.target)
  }

  ghost function Unseen(q: Search, s: NodeId, depth: map<NodeId, nat>): nat { |Universe(q, s) - depth.Keys| }

  lemma LinkedInUniverse(q: Search, s: NodeId, u: NodeId, e: Relationship, v: NodeId)
    requires Links(q, u, e, v)
    ensures v in Universe(q, s)
  {
  }

  /** `queue` after taking its head and pushing, while `current`'s relationships
      are being gone through. */
  ghost predicate Visiting(q: Search, s: NodeId, r: Reach, depth: map<NodeId, nat>, queue: seq<Visit>, current: Visit, done: seq<Relationship>)
  {
    && Grown(q, s, r, depth)
    && Level(q, depth, queue, current.depth)
    && current.id in depth && depth[current.id] == current.depth
    && Handled(q, depth, current.id, done)
    && OthersHandled(q, depth, queue, current.id)
    && depth.Keys <= Universe(q, s)
  }

  ghost predicate Between(q: Search, s: NodeId, r: Reach, depth: map<NodeId, nat>, queue: seq<Visit>)
  {
    && Grown(q, s, r, depth)
    && (if queue == [] then forall v :: v in depth ==> depth[v] <= q.maxDepth else Level(q, depth, queue, queue[0].depth))
    && (forall v :: v in depth && !Waiting(queue, v) && depth[v] < q.maxDepth ==> Handled(q, depth, v, q.graph.relationships))
    && depth.Keys <= Universe(q, s)
  }

  lemma StillHandled(q: Search, depth: map<NodeId, nat>, u: NodeId, rels: seq<Relationship>, v: NodeId, d: nat)
    requires u in depth && v !in depth && Handled(q, depth, u, rels)
    ensures Handled(q, depth[v := d], u, rels)
  {
  }

  lemma HandledMore(q: Search, depth: map<NodeId, nat>, u: NodeId, done: seq<Relationship>, e: Relationship, v: NodeId)
    requires u in depth && v !in depth && Handled(q, depth, u, done) && v == Opposite(e, u) && e in q.graph.relationships
    ensures Handled(q, depth[v := depth[u] + 1], u, done + [e])
  {
    var depth': map<NodeId, nat> := depth[v := depth[u] + 1];
    assert v != u;
    forall f, w | f in done + [e] && Links(q, u, f, w) ensures w in depth' && depth'[w] <= depth'[u] + 1 {
      if f !in done {
        UsableLinks(q, e, u, w);
      }
    }
  }

  lemma UniverseShrinks(q: Search, s: NodeId, depth: map<NodeId, nat>, v: NodeId, d: nat)
    requires v in Universe(q, s) && v !in depth
    ensures Unseen(q, s, depth[v := d]) < Unseen(q, s, depth)
  {
    assert Universe(q, s) - depth[v := d].Keys == (Universe(q, s) - depth.Keys) - {v};
  }

  lemma LevelGrows(q: Search, depth: map<NodeId, nat>, queue: seq<Visit>, low: nat, v: NodeId)
    requires Level(q, depth, queue, low) && low < q.maxDepth && v !in depth
    ensures Level(q, depth[v := low + 1], queue + [Visit(v, low + 1)], low)
  {
  }

  lemma KeysGrow(depth: map<NodeId, nat>, all: set<NodeId>, v: NodeId, d: nat)
    requires depth.Keys <= all && v in all
    ensures depth[v := d].Keys <= all
  {
  }

  lemma SeenGrows(q: Search, s: NodeId, r: Reach, depth: map<NodeId, nat>, u: NodeId, e: Relationship, v: NodeId, d: nat)
    requires Grown(q, s, r, depth) && depth.Keys <= Universe(q, s)
    requires u in depth && d == depth[u] + 1 && Links(q, u, e, v) && v !in depth
    ensures Grown(q, s, Reach(r.seen + [v], r.relationships + [e], Deeper(d, r.maximumDepth)), depth[v := d])
    ensures depth[v := d].Keys <= Universe(q, s)
  {
    GrowsBy(q, s, r, depth, u, e, v);
    LinkedInUniverse(q, s, u, e, v);
    KeysGrow(depth, Universe(q, s), v, d);
  }

  lemma QueueGrows(q: Search, depth: map<NodeId, nat>, queue: seq<Visit>, current: Visit, done: seq<Relationship>,
                   e: Relationship, v: NodeId, d: nat)
    requires Level(q, depth, queue, current.depth) && current.depth < q.maxDepth && d == current.depth + 1
    requires current.id in depth && depth[current.id] == current.depth && Handled(q, depth, current.id, done)
    requires OthersHandled(q, depth, queue, current.id)
    requires Links(q, current.id, e, v) && v !in depth && v == Opposite(e, current.id)
    ensures Level(q, depth[v := d], queue + [Visit(v, d)], current.depth)
    ensures Handled(q, depth[v := d], current.id, done + [e])
    ensures OthersHandled(q, depth[v := d], queue + [Visit(v, d)], current.id)
  {
    LevelGrows(q, depth, queue, current.depth, v);
    HandledMore(q, depth, current.id, done, e, v);
    RestHandled(q, depth, queue, current.id, v, d);
  }

  lemma VisitNew(q: Search, s: NodeId, r: Reach, depth: map<NodeId, nat>, queue: seq<Visit>, current: Visit, done: seq<Relationship>,
                 e: Relationship, v: NodeId)
    requires Visiting(q, s, r, depth, queue, current, done) && current.depth < q.maxDepth
    requires Links(q, current.id, e, v) && v !in depth && v == Opposite(e, current.id)
    ensures
      var d := current.depth + 1;
      Visiting(q, s, Reach(r.seen + [v], r.relationships + [e], Deeper(d, r.maximumDepth)),
               depth[v := d], queue + [Visit(v, d)], current, done + [e])
  {
    var d := current.depth + 1;
    SeenGrows(q, s, r, depth, current.id, e, v, d);
    QueueGrows(q, depth, queue, current, done, e, v, d);
  }

  /** All nodes off the queue, `but` excepted, are handled. */
  ghost predicate OthersHandled(q: Search, depth: map<NodeId, nat>, queue: seq<Visit>, but: NodeId)
  {
    forall v :: v in depth && !Waiting(queue, v) && v != but && depth[v] < q.maxDepth ==>
      Handled(q, depth, v, q.graph.relationships)
  }

  lemma RestHandled(q: Search, depth: map<NodeId, nat>, queue: seq<Visit>, but: NodeId, v: NodeId, d: nat)
    requires OthersHandled(q, depth, queue, but) && v !in depth
    ensures OthersHandled(q, depth[v := d], queue + [Visit(v, d)], but)
  {
    var depth', queue' := depth[v := d], queue + [Visit(v, d)];
    forall w | w in depth' && !Waiting(queue', w) && w != but && depth'[w] < q.maxDepth
      ensures Handled(q, depth', w, q.graph.relationships)
    {
      WaitingLonger(queue, Visit(v, d), w);
      StillHandled(q, depth, w, q.graph.relationships, v, d);
    }
  }

  lemma WaitingLonger(queue: seq<Visit>, x: Visit, w: NodeId)
    ensures Waiting(queue + [x], w) <==> Waiting(queue, w) || w == x.id
  {
    if Waiting(queue, w) {
      var i :| 0 <= i < |queue| && queue[i].id == w;
      assert (queue + [x])[i].id == w;
    }
    assert (queue + [x])[|queue|] == x;
  }

  lemma VisitOld(q: Search, s: NodeId, r: Reach, depth: map<NodeId, nat>, queue: seq<Visit>, current: Visit, done: seq<Relationship>,
                 e: Relationship)
    requires Visiting(q, s, r, depth, queue, current, done)
    requires e in q.graph.relationships && (!Usable(q, e, current.id) || Opposite(e, current.id) in r.seen)
    ensures Visiting(q, s, r, depth, queue, current, done + [e])
  {
    forall f, v | f in done + [e] && Links(q, current.id, f, v) ensures v in depth && depth[v] <= current.depth + 1 {
      UsableLinks(q, f, current.id, v);
    }
  }

  predicate Usable(q: Search, e: Relationship, n: NodeId)
  {
    e.kind in q.allowed && (e.source == n || (!q.directed && e.target == n))
  }

  lemma UsableLinks(q: Search, e: Relationship, n: NodeId, v: NodeId)
    requires e in q.graph.relationships
    ensures Links(q, n, e, v) ==> Usable(q, e, n) && (v == Opposite(e, n) || v == n)
    ensures Usable(q, e, n) ==> Links(q, n, e, Opposite(e, n))
  {
  }

  lemma WaitingTail(queue: seq<Visit>, v: NodeId)
    requires queue != []
    ensures Waiting(queue, v) <==> v == queue[0].id || Waiting(queue[1..], v)
  {
    if Waiting(queue, v) && v != queue[0].id {
      var i :| 0 <= i < |queue| && queue[i].id == v;
      assert queue[1..][i - 1].id == v;
    }
  }

  lemma Begin(q: Search, s: NodeId, r: Reach, depth: map<NodeId, nat>, queue: seq<Visit>)
    requires Between(q, s, r, depth, queue) && queue != []
    ensures Visiting(q, s, r, depth, queue[1..], queue[0], [])
  {
    forall v | v in depth && !Waiting(queue[1..], v) && v != queue[0].id && depth[v] < q.maxDepth
      ensures Handled(q, depth, v, q.graph.relationships)
    {
      WaitingTail(queue, v);
    }
  }

  lemma Finish(q: Search, s: NodeId, r: Reach, depth: map<NodeId, nat>, queue: seq<Visit>, current: Visit, done: seq<Relationship>)
    requires Visiting(q, s, r, depth, queue, current, done)
    requires current.depth < q.maxDepth ==> done == q.graph.relationships
    ensures Between(q, s, r, depth, queue)
  {
  }

  method Explored(q: Search, source: NodeId) returns (r: Reach)
    ensures Spans(q, source, r)
  {
    r := Reach([source], [], 0);
    var queue := [Visit(source, 0)];
    ghost var depth: map<NodeId, nat> := map[source := 0];
    assert depth.Keys <= Universe(q, source);
    assert queue[0].id == source;
    while queue != []
      invariant Between(q, source, r, depth, queue)
      decreases Unseen(q, source, depth), |queue|
    {
      Begin(q, source, r, depth, queue);
      var current := queue[0];
      queue := queue[1..];
      ghost var done := [];
      if current.depth < q.maxDepth {
        r, queue, depth := VisitAll(q, source, r, queue, current, depth);
        done := q.graph.relationships;
      }
      Finish(q, source, r, depth, queue, current, done);
    }
    Closed(q, source, r, depth);
  }

  /** Follows one relationship of the visited node, if it leads to a new one. */
  method VisitOne(q: Search, source: NodeId, r0: Reach, queue0: seq<Visit>, current: Visit, rel: Relationship,
                  ghost depth0: map<NodeId, nat>, ghost done: seq<Relationship>)
    returns (r: Reach, queue: seq<Visit>, ghost depth: map<NodeId, nat>)
    requires Visiting(q, source, r0, depth0, queue0, current, done) && current.depth < q.maxDepth
    requires rel in q.graph.relationships
    ensures Visiting(q, source, r, depth, queue, current, done + [rel])
    ensures Unseen(q, source, depth) < Unseen(q, source, depth0) || (depth == depth0 && queue == queue0)
  {
    r, queue, depth := r0, queue0, depth0;
    var next := Opposite(rel, current.id);
    UsableLinks(q, rel, current.id, next);
    if Usable(q, rel, current.id) && next !in r.seen {
      VisitNew(q, source, r, depth, queue, current, done, rel, next);
      LinkedInUniverse(q, source, current.id, rel, next);
      UniverseShrinks(q, source, depth, next, current.depth + 1);
      r := Reach(r.seen + [next], r.relationships + [rel], Deeper(current.depth + 1, r.maximumDepth));
      queue := queue + [Visit(next, current.depth + 1)];
      depth := depth[next := current.depth + 1];
    } else {
      VisitOld(q, source, r, depth, queue, current, done, rel);
    }
  }

  /** The inner loop: goes through the relationships of one visited node. */
  method VisitAll(q: Search, source: NodeId, r0: Reach, queue0: seq<Visit>, current: Visit, ghost depth0: map<NodeId, nat>)
    returns (r: Reach, queue: seq<Visit>, ghost depth: map<NodeId, nat>)
    requires Visiting(q, source, r0, depth0, queue0, current, []) && current.depth < q.maxDepth
    ensures Visiting(q, source, r, depth, queue, current, q.graph.relationships)
    ensures Unseen(q, source, depth) < Unseen(q, source, depth0) || (depth == depth0 && queue == queue0)
  {
    r, queue, depth := r0, queue0, depth0;
    var rels := q.graph.relationships;
    for k := 0 to |rels|
      invariant Visiting(q, source, r, depth, queue, current, rels[..k])
      invariant Unseen(q, source, depth) < Unseen(q, source, depth0) || (depth == depth0 && queue == queue0)
    {
      PrefixStep(rels, k);
      r, queue, depth := VisitOne(q, source, r, queue, current, rels[k], depth, rels[..k]);
    }
    assert rels[..|rels|] == rels;
  }

  /** The reached nodes are those within the depth bound, the reported depth is
      the distance of the farthest, and the reported relationships form a
      breadth-first tree: each later node hangs on an earlier one that is exactly
      one hop nearer to the source. */
  ghost predicate Spans(q: Search, s: NodeId, r: Reach)
  {
    && Distinct(r.seen) && |r.seen| == |r.relationships| + 1 && r.seen[0] == s
    && (forall v :: v in r.seen <==> Within(q, s, v))
    && (exists v :: v in r.seen && Distance(q, s, v, r.maximumDepth))
    && (forall v :: v in r.seen ==> exists k: nat :: k <= r.maximumDepth && Distance(q, s, v, k))
    && (forall i :: 0 <= i < |r.relationships| ==> Hangs(q, s, r.seen[..i + 1], r.relationships[i], r.seen[i + 1]))
  }

  ghost predicate Hangs(q: Search, s: NodeId, earlier: seq<NodeId>, e: Relationship, v: NodeId)
  {
    exists u, k: nat :: u in earlier && Links(q, u, e, v) && Distance(q, s, u, k) && Distance(q, s, v, k + 1)
  }

  lemma {:induction false} WalksReach(q: Search, s: NodeId, r: Reach, depth: map<NodeId, nat>, v: NodeId, k: nat)
    requires Between(q, s, r, depth, []) && Walk(q, s, v, k) && k <= q.maxDepth
    ensures v in depth && depth[v] <= k
    decreases k
  {
    if k > 0 {
      var u, e :| Walk(q, s, u, k - 1) && Links(q, u, e, v);
      WalksReach(q, s, r, depth, u, k - 1);
      assert !Waiting([], u);
      assert Handled(q, depth, u, q.graph.relationships);
    }
  }

  lemma Nearest(q: Search, s: NodeId, r: Reach, depth: map<NodeId, nat>, v: NodeId)
    requires Between(q, s, r, depth, []) && v in depth
    ensures Distance(q, s, v, depth[v])
  {
    forall j: nat | j < depth[v] ensures !Walk(q, s, v, j) {
      if Walk(q, s, v, j) {
        WalksReach(q, s, r, depth, v, j);
      }
    }
  }

  lemma Closed(q: Search, s: NodeId, r: Reach, depth: map<NodeId, nat>)
    requires Between(q, s, r, depth, [])
    ensures Spans(q, s, r)
  {
    forall v ensures v in r.seen <==> Within(q, s, v) {
      if k: nat :| k <= q.maxDepth && Walk(q, s, v, k) {
        WalksReach(q, s, r, depth, v, k);
      }
      if v in depth {
        assert depth[v] <= q.maxDepth && Walk(q, s, v, depth[v]);
      }
    }
    forall v | v in depth ensures Distance(q, s, v, depth[v]) {
      Nearest(q, s, r, depth, v);
    }
    forall i | 0 <= i < |r.relationships| ensures Hangs(q, s, r.seen[..i + 1], r.relationships[i], r.seen[i + 1]) {
      assert TreeEdge(q, depth, r.seen[..i + 1], r.relationships[i], r.seen[i + 1]);
      var u :| u in r.seen[..i + 1] && u in depth && Links(q, u, r.relationships[i], r.seen[i + 1]) && depth[r.seen[i + 1]] == depth[u] + 1;
      assert Distance(q, s, u, depth[u]) && Distance(q, s, r.seen[i + 1], depth[u] + 1);
    }
  }

  // ------------------------------------------------------------ blast radius

  datatype BlastRadius = NodeNotFound | Radius(reachableNodeCount: int, maximumDepth: nat, affectedNodes: seq<NodeId>)

  /** Counts and lists the existing nodes within reach of `nodeId`, itself left
      out. */
  method Blast(q: Search, nodeId: NodeId) returns (b: BlastRadius)
    ensures b.NodeNotFound? <==> nodeId !in q.graph.nodes
    ensures b.Radius? ==> b.reachableNodeCount == |b.affectedNodes| && Distinct(b.affectedNodes)
    ensures b.Radius? ==> forall v :: v in b.affectedNodes <==>
      v in q.graph.nodes && v != nodeId && Within(q, nodeId, v)
    ensures b.Radius? ==> exists v :: Within(q, nodeId, v) && Distance(q, nodeId, v, b.maximumDepth)
    ensures b.Radius? ==> forall v :: Within(q, nodeId, v) ==> exists k: nat :: k <= b.maximumDepth && Distance(q, nodeId, v, k)
  {
    if nodeId !in q.graph.nodes {
      return NodeNotFound;
    }
    var r := Explored(q, nodeId);
    var nodes := Filter(r.seen, (v: NodeId) => v in q.graph.nodes);
    var affected := Filter(nodes, (v: NodeId) => v != nodeId);
    FilterKeepsDistinct(r.seen, (v: NodeId) => v in q.graph.nodes);
    FilterKeepsDistinct(nodes, (v: NodeId) => v != nodeId);
    OneLess(nodes, nodeId, affected);
    return Radius(|nodes| - 1, r.maximumDepth, affected);
  }

  lemma OneLess(s: seq<NodeId>, x: NodeId, t: seq<NodeId>)
    requires Distinct(s) && Distinct(t) && x in s && forall y :: y in t <==> y in s && y != x
    ensures |t| == |s| - 1
  {
    DistinctCount(s);
    DistinctCount(t);
    assert Elements(t) == Elements(s) - {x};
  }

  // ------------------------------------------- agreement with the path search

  /** Both ends of every allowed relationship exist. */
  ghost predicate NoDangling(q: Search)
  {
    forall e :: e in q.graph.relationships ==> e.source in q.graph.nodes && e.target in q.graph.nodes
  }

  function PathsTo(q: Search, s: NodeId, v: NodeId): Search
  {
    q.(algorithm := All, sources := [s], targets := {v})
  }

  lemma {:induction false} RouteWalks(q: Search, s: NodeId, v: NodeId, r: Route, i: nat)
    requires IsRoute(PathsTo(q, s, v), r) && i < |r.nodes|
    ensures Walk(q, s, r.nodes[i], i)
    decreases i
  {
    if i > 0 {
      RouteWalks(q, s, v, r, i - 1);
      assert Links(PathsTo(q, s, v), r.nodes[i - 1], r.rels[i - 1], r.nodes[i - 1 + 1]);
      assert Links(q, r.nodes[i - 1], r.rels[i - 1], r.nodes[i]);
    }
  }

  /** A node at distance `k` is the end of a simple route of `k` hops. */
  lemma {:induction false} DistanceRoute(q: Search, s: NodeId, v: NodeId, n: NodeId, k: nat) returns (r: Route)
    requires NoDangling(q) && s in q.graph.nodes && Distance(q, s, n, k)
    ensures IsRoute(PathsTo(q, s, v), r) && r.Hops() == k && r.Source() == s && r.End() == n
    decreases k
  {
    var q' := PathsTo(q, s, v);
    if k == 0 {
      r := Origin(s);
      OriginIsRoute(q', s);
    } else {
      var u, e :| Walk(q, s, u, k - 1) && Links(q, u, e, n);
      forall j: nat | j < k - 1 ensures !Walk(q, s, u, j) {
        if Walk(q, s, u, j) {
          assert Walk(q, s, n, j + 1);
        }
      }
      var p := DistanceRoute(q, s, v, u, k - 1);
      forall i | 0 <= i < |p.nodes| ensures p.nodes[i] != n {
        RouteWalks(q, s, v, p, i);
      }
      assert Links(q', u, e, n);
      r := Extend(p, e, n);
      ExtendIsRoute(q', p, e, n);
    }
  }

  /** The search without the relationships that dangle. */
  function Cleaned(q: Search): Search
  {
    q.(graph := Graph(q.graph.nodes, Filter(q.graph.relationships, AttachedTo(q.graph.nodes))))
  }

  function AttachedTo(nodes: seq<NodeId>): Relationship -> bool
  {
    (e: Relationship) => e.source in nodes && e.target in nodes
  }

  lemma CleanedLinks(q: Search, a: NodeId, e: Relationship, b: NodeId)
    ensures Links(Cleaned(q), a, e, b) <==> Links(q, a, e, b) && a in q.graph.nodes && b in q.graph.nodes
  {
  }

  lemma CleanedRoute(q: Search, r: Route)
    ensures IsRoute(Cleaned(q), r) <==> IsRoute(q, r)
  {
    var q' := Cleaned(q);
    if IsRoute(q, r) {
      forall i | 0 <= i < |r.rels| ensures Links(q', r.nodes[i], r.rels[i], r.nodes[i + 1]) {
        assert r.nodes[i] in r.nodes && r.nodes[i + 1] in r.nodes;
        CleanedLinks(q, r.nodes[i], r.rels[i], r.nodes[i + 1]);
      }
    }
    if IsRoute(q', r) {
      forall i | 0 <= i < |r.rels| ensures Links(q, r.nodes[i], r.rels[i], r.nodes[i + 1]) {
        CleanedLinks(q, r.nodes[i], r.rels[i], r.nodes[i + 1]);
      }
    }
  }

  lemma {:induction false} CleanedWalk(q: Search, s: NodeId, v: NodeId, k: nat)
    requires Walk(Cleaned(q), s, v, k)
    ensures Walk(q, s, v, k) && (k > 0 ==> s in q.graph.nodes)
    decreases k
  {
    if k > 0 {
      var u, e :| Walk(Cleaned(q), s, u, k - 1) && Links(Cleaned(q), u, e, v);
      CleanedLinks(q, u, e, v);
      CleanedWalk(q, s, u, k - 1);
    }
  }

  lemma {:induction false} SomeDistance(q: Search, s: NodeId, v: NodeId, k: nat) returns (d: nat)
    requires Walk(q, s, v, k)
    ensures d <= k && Distance(q, s, v, d)
  {
    if j: nat :| j < k && Walk(q, s, v, j) {
      d := SomeDistance(q, s, v, j);
    } else {
      d := k;
    }
  }

  /** An uncapped `all` search from `s` to another node returns a path exactly when
      some walk within the bound leads there over existing nodes. */
  lemma PathIffWalk(q: Search, s: NodeId, v: NodeId)
    requires v != s && Wellformed(PathsTo(q, s, v)) && AcceptsAll(PathsTo(q, s, v))
    requires |Returned(PathsTo(q, s, v))| < q.maxPaths
    ensures Returned(PathsTo(q, s, v)) != [] <==> Within(Cleaned(q), s, v)
  {
    if Within(Cleaned(q), s, v) {
      NearIsReturned(q, s, v);
    }
    if Returned(PathsTo(q, s, v)) != [] {
      ReturnedIsWithin(q, s, v);
    }
  }

  lemma NearIsReturned(q: Search, s: NodeId, v: NodeId)
    requires v != s && Within(Cleaned(q), s, v)
    requires Wellformed(PathsTo(q, s, v)) && AcceptsAll(PathsTo(q, s, v))
    requires |Returned(PathsTo(q, s, v))| < q.maxPaths
    ensures Returned(PathsTo(q, s, v)) != []
  {
    var j: nat :| j <= q.maxDepth && Walk(Cleaned(q), s, v, j);
    CleanedWalk(q, s, v, j);
    var k := SomeDistance(Cleaned(q), s, v, j);
    var p := CleanRoute(q, s, v, k);
    AllReturnsExactly(PathsTo(q, s, v), p);
  }

  lemma CleanRoute(q: Search, s: NodeId, v: NodeId, k: nat) returns (p: Route)
    requires v != s && s in q.graph.nodes && Distance(Cleaned(q), s, v, k)
    ensures IsRoute(PathsTo(q, s, v), p) && p.Hops() == k && k > 0 && p.End() == v
  {
    assert NoDangling(Cleaned(q));
    p := DistanceRoute(Cleaned(q), s, v, v, k);
    assert Cleaned(PathsTo(q, s, v)) == PathsTo(Cleaned(q), s, v);
    CleanedRoute(PathsTo(q, s, v), p);
  }

  lemma ReturnedIsWithin(q: Search, s: NodeId, v: NodeId)
    requires Wellformed(PathsTo(q, s, v)) && Returned(PathsTo(q, s, v)) != []
    ensures Within(Cleaned(q), s, v)
  {
    var p := Returned(PathsTo(q, s, v))[0];
    assert p in Returned(PathsTo(q, s, v));
    AllReturnsExactly(PathsTo(q, s, v), p);
    assert Cleaned(PathsTo(q, s, v)) == PathsTo(Cleaned(q), s, v);
    CleanedRoute(PathsTo(q, s, v), p);
    RouteWalks(Cleaned(q), s, v, p, p.Hops());
  }

  /** The two algorithms agree on another node, whether it is within reach and
      whether an uncapped `all` search to it returns a path, unless every walk to it
      within the bound passes an id that has no node; without dangling relationships
      they always agree. */
  lemma ReachableIffPath(q: Search, s: NodeId, v: NodeId, r: Reach)
    requires Spans(q, s, r) && v != s
    requires Wellformed(PathsTo(q, s, v)) && AcceptsAll(PathsTo(q, s, v))
    requires |Returned(PathsTo(q, s, v))| < q.maxPaths
    ensures (v in r.seen <==> Returned(PathsTo(q, s, v)) != []) <==> (Within(q, s, v) ==> Within(Cleaned(q), s, v))
    ensures NoDangling(q) ==> (v in r.seen <==> Returned(PathsTo(q, s, v)) != [])
  {
    PathIffWalk(q, s, v);
    if k: nat :| k <= q.maxDepth && Walk(Cleaned(q), s, v, k) {
      CleanedWalk(q, s, v, k);
    }
    if NoDangling(q) && Within(q, s, v) {
      var k: nat :| k <= q.maxDepth && Walk(q, s, v, k);
      NothingToClean(q, s, v, k);
    }
  }

  lemma {:induction false} NothingToClean(q: Search, s: NodeId, v: NodeId, k: nat)
    requires NoDangling(q) && Walk(q, s, v, k)
    ensures Walk(Cleaned(q), s, v, k)
    decreases k
  {
    if k > 0 {
      var u, e :| Walk(q, s, u, k - 1) && Links(q, u, e, v);
      NothingToClean(q, s, u, k - 1);
      CleanedLinks(q, u, e, v);
    }
  }

  /** They do disagree when the only way leads over an id without a node. */
  lemma DanglingDisagrees(q: Search, e: Relationship, f: Relationship, missing: NodeId)
    requires q.graph.nodes == [0, 1] && q.graph.relationships == [e, f] && q.sources == [0] && missing > 1
    requires e.source == 0 && e.target == missing && f.source == missing && f.target == 1
    requires e.kind in q.allowed && f.kind in q.allowed && q.maxDepth >= 2
    ensures Within(q, 0, 1) && !Within(Cleaned(q), 0, 1)
  {
    assert Links(q, 0, e, missing) && Links(q, missing, f, 1);
    assert Walk(q, 0, 0, 0);
    assert Walk(q, 0, missing, 1);
    assert Walk(q, 0, 1, 2);
    forall u, g ensures !Links(Cleaned(q), u, g, 1) {
      CleanedLinks(q, u, g, 1);
    }
  }
}
