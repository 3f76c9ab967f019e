/** What one turn of the worklist loop of `discover` does to its variables, and
    the whole search as the repetition of that turn. */
module PathSearch {
  import opened AccessGraph
  import opened Sequences

  type Best = map<(NodeId, NodeId), nat>

  /** The loop's variables; `popped` is the history of the states taken off the
      queue, oldest first. */
  datatype Progress = Progress(queue: seq<Route>, best: Best, found: seq<Route>, popped: seq<Route>)

  // ---------------------------------------------------------------- ordering

  /** What the queue is ordered by: cost in `weighted` mode, hops otherwise. */
  function Priority(q: Search, r: Route): nat
  {
    if q.algorithm.Weighted? then r.cost else r.Hops()
  }

  function StepCost(q: Search, e: Relationship): (c: nat)
    ensures c >= 1
  {
    if q.algorithm.Weighted? then EdgeWeight(e.kind) else 1
  }

  /** `a` sorts strictly before `b` in the queue. */
  predicate Before(q: Search, a: Route, b: Route)
  {
    Priority(q, a) < Priority(q, b) || (Priority(q, a) == Priority(q, b) && a.End() < b.End())
  }

  function QueueOrder(q: Search): (Route, Route) -> bool
  {
    (a, b) => Before(q, a, b)
  }

  /** The position of the state that the service's stable sort puts first. */
  function MinIndex(q: Search, queue: seq<Route>): (i: nat)
    requires queue != []
    ensures i < |queue|
    ensures forall j :: 0 <= j < |queue| ==> !Before(q, queue[j], queue[i])
  {
    LeastIsLeast(QueueOrder(q), queue);
    LeastIndex(QueueOrder(q), queue)
  }

  // --------------------------------------------------------------- adjacency

  /** The adjacency list of node `n`: each allowed relationship once under its
      source and, in undirected mode, once more under its target. */
  function Incident(q: Search, rels: seq<Relationship>, n: NodeId): (list: seq<Relationship>)
    ensures |list| <= 2 * |rels|
    ensures forall e :: e in list ==> e in rels && e.kind in q.allowed && (e.source == n || (!q.directed && e.target == n))
    ensures forall e :: e in rels && e.kind in q.allowed && (e.source == n || (!q.directed && e.target == n)) ==> e in list
  {
    if rels == [] then [] else
      var e := rels[|rels| - 1];
      var before := Incident(q, rels[..|rels| - 1], n);
      if e.kind !in q.allowed then before else
        before + (if e.source == n then [e] else []) + (if !q.directed && e.target == n then [e] else [])
  }

  function IdOrder(): (Relationship, Relationship) -> bool
  {
    (a: Relationship, b: Relationship) => a.id < b.id
  }

  /** The adjacency list in the order in which the loop visits it. */
  function Adjacent(q: Search, n: NodeId): seq<Relationship>
  {
    Sort(IdOrder(), Incident(q, q.graph.relationships, n))
  }

  lemma AdjacentMember(q: Search, n: NodeId, e: Relationship)
    ensures e in Adjacent(q, n) <==>
      e in q.graph.relationships && e.kind in q.allowed && (e.source == n || (!q.directed && e.target == n))
    ensures |Adjacent(q, n)| <= 2 * |q.graph.relationships|
  {
    SortMember(IdOrder(), Incident(q, q.graph.relationships, n), e);
  }

  // --------------------------------------------------------------- expansion

  /** The other end of `e` seen from `n`. */
  function Opposite(e: Relationship, n: NodeId): NodeId
  {
    if e.source == n then e.target else e.source
  }

  predicate Admits(q: Search, cur: Route, e: Relationship, best: Best)
  {
    var n := Opposite(e, cur.End());
    && n !in cur.nodes
    && n in q.graph.nodes
    && (q.algorithm.All? || (cur.Source(), n) !in best || cur.cost + EdgeWeight(e.kind) < best[(cur.Source(), n)])
  }

  datatype Expansion = Expansion(routes: seq<Route>, best: Best)

  /** The states pushed for the relationships in `adj`, in order, and the cost
      table after them. */
  function Expand(q: Search, cur: Route, adj: seq<Relationship>, best: Best): (x: Expansion)
    ensures |x.routes| <= |adj|
    ensures forall r :: r in x.routes ==> r.Hops() == cur.Hops() + 1
  {
    if adj == [] then Expansion([], best) else
      var k := |adj| - 1;
      var x := Expand(q, cur, adj[..k], best);
      if Admits(q, cur, adj[k], x.best) then
        var n := Opposite(adj[k], cur.End());
        var r := Extend(cur, adj[k], n);
        Expansion(x.routes + [r], if q.algorithm.All? then x.best else x.best[(cur.Source(), n) := r.cost])
      else x
  }

  /** A state that stands on a target after at least one hop. */
  predicate Hit(q: Search, r: Route)
  {
    r.End() in q.targets && r.Hops() > 0
  }

  predicate Qualifies(q: Search, r: Route)
  {
    Hit(q, r) && q.score(r) >= q.minimumScore
  }

  /** Whether the loop goes on to the neighbours of a popped state. */
  predicate Expandable(q: Search, r: Route)
  {
    (q.algorithm.All? || !Hit(q, r)) && r.Hops() < q.maxDepth
  }

  function Report(q: Search, cur: Route, found: seq<Route>): seq<Route>
  {
    if Qualifies(q, cur) && cur !in found then found + [cur] else found
  }

  function Step(q: Search, p: Progress): (r: Progress)
    requires p.queue != []
    ensures |r.popped| == |p.popped| + 1
  {
    var i := MinIndex(q, p.queue);
    var cur := p.queue[i];
    var rest := Without(p.queue, i);
    var found := Report(q, cur, p.found);
    if Expandable(q, cur) then
      var x := Expand(q, cur, Adjacent(q, cur.End()), p.best);
      Progress(rest + x.routes, x.best, found, p.popped + [cur])
    else
      Progress(rest, p.best, found, p.popped + [cur])
  }

  // ------------------------------------------------------------- termination

  /** An upper bound on the states that can still descend from a state with
      `depth` hops left, itself included. */
  function Subtree(fanout: nat, depth: nat): (n: nat)
    ensures n >= 1
  {
    if depth == 0 then 1 else (fanout + 1) * Subtree(fanout, depth - 1)
  }

  function Fanout(q: Search): nat { 2 * |q.graph.relationships| }

  function Potential(q: Search, r: Route): (n: nat)
    ensures n >= 1
  {
    Subtree(Fanout(q), if r.Hops() <= q.maxDepth then q.maxDepth - r.Hops() else 0)
  }

  function Measure(q: Search, queue: seq<Route>): nat
  {
    if queue == [] then 0 else Measure(q, queue[..|queue| - 1]) + Potential(q, queue[|queue| - 1])
  }

  lemma {:induction false} MeasureConcat(q: Search, a: seq<Route>, b: seq<Route>)
    ensures Measure(q, a + b) == Measure(q, a) + Measure(q, b)
  {
    if b == [] {
      assert a + b == a;
    } else {
      var n := |b| - 1;
      assert (a + b)[..|a + b| - 1] == a + b[..n];
      MeasureConcat(q, a, b[..n]);
    }
  }

  lemma {:induction false} MeasureBound(q: Search, rs: seq<Route>, w: nat)
    requires forall r :: r in rs ==> Potential(q, r) <= w
    ensures Measure(q, rs) <= |rs| * w
  {
    if rs != [] {
      var k := |rs| - 1;
      MeasureBound(q, rs[..k], w);
      assert rs[k] in rs;
      Scale(k, k, w);
    }
  }

  lemma MeasureWithout(q: Search, queue: seq<Route>, i: nat)
    requires i < |queue|
    ensures Measure(q, Without(queue, i)) == Measure(q, queue) - Potential(q, queue[i])
  {
    assert queue == queue[..i] + ([queue[i]] + queue[i + 1..]);
    MeasureConcat(q, queue[..i], [queue[i]] + queue[i + 1..]);
    MeasureConcat(q, [queue[i]], queue[i + 1..]);
    MeasureConcat(q, queue[..i], queue[i + 1..]);
    assert [queue[i]][..0] == [];
  }

  lemma Scale(a: nat, b: nat, w: nat)
    requires a <= b
    ensures a * w <= b * w
    ensures (b + 1) * w == b * w + w
  {
  }

  lemma ChildrenBound(q: Search, cur: Route, routes: seq<Route>)
    requires cur.Hops() < q.maxDepth
    requires |routes| <= Fanout(q) && forall r :: r in routes ==> r.Hops() == cur.Hops() + 1
    ensures Measure(q, routes) < Potential(q, cur)
  {
    var w := Subtree(Fanout(q), q.maxDepth - cur.Hops() - 1);
    MeasureBound(q, routes, w);
    Scale(|routes|, Fanout(q), w);
  }

  /** Every turn of the loop shrinks the measure, whatever the graph's cycles. */
  lemma StepDescends(q: Search, p: Progress)
    requires p.queue != []
    ensures Measure(q, Step(q, p).queue) < Measure(q, p.queue)
  {
    var i := MinIndex(q, p.queue);
    var cur := p.queue[i];
    MeasureWithout(q, p.queue, i);
    if Expandable(q, cur) {
      var x := Expand(q, cur, Adjacent(q, cur.End()), p.best);
      ChildrenBound(q, cur, x.routes);
      MeasureConcat(q, Without(p.queue, i), x.routes);
    }
  }

  // --------------------------------------------------------------- the search

  predicate Done(q: Search, p: Progress)
  {
    p.queue == [] || |p.found| >= q.maxPaths
  }

  function Explore(q: Search, p: Progress): (r: Progress)
    ensures Done(q, r)
    decreases Measure(q, p.queue)
  {
    if Done(q, p) then p else
      StepDescends(q, p);
      Explore(q, Step(q, p))
  }

  /** The initial queue: the sources that exist in the graph. */
  function Seeds(q: Search, sources: seq<NodeId>): (rs: seq<Route>)
    ensures forall r :: r in rs <==> exists s :: s in sources && s in q.graph.nodes && r == Origin(s)
  {
    if sources == [] then [] else
      var n := |sources| - 1;
      var before := Seeds(q, sources[..n]);
      assert sources == sources[..n] + [sources[n]];
      if sources[n] in q.graph.nodes then before + [Origin(sources[n])] else before
  }

  function Initial(q: Search): Progress { Progress(Seeds(q, q.sources), map[], [], []) }

  function Discovered(q: Search): Progress { Explore(q, Initial(q)) }
}
