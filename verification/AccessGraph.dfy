/** The identity graph that every search walks: nodes, typed relationships and
    the routes (simple relationship paths) between nodes. */
module AccessGraph {
  import opened Sequences

  /** A node identifier. Identifiers are numbered in the order in which the
      service compares them, so `<` is the service's own tie-break. */
  type NodeId = nat

  datatype RelationshipType =
    | Grants | HasRole | HasSudoPolicy | HasSshKey | MemberOf | Trusts
    | AuthenticatesTo | HasAccessTo | Uses | RunsOn | Other(name: string)

  datatype Relationship = Relationship(id: nat, kind: RelationshipType, source: NodeId, target: NodeId)

  datatype Graph = Graph(nodes: seq<NodeId>, relationships: seq<Relationship>)

  /** A sequence of relationships walked from `nodes[0]`, with its total weight. */
  datatype Route = Route(nodes: seq<NodeId>, rels: seq<Relationship>, cost: nat) {
    function Hops(): nat { |rels| }

    /** The first and the last node (0 if there is none, which no route of a
        search is). */
    function Source(): NodeId { if nodes == [] then 0 else nodes[0] }

    function End(): NodeId { if nodes == [] then 0 else nodes[|nodes| - 1] }
  }

  datatype Algorithm = Shortest | Weighted | All

  /** One search request over one graph. `targets` are the nodes that the target
      classification selected, `score` is the risk score of a finished path and
      `idOrder` the position of its identifier among all path identifiers. */
  datatype Search = Search(
    graph: Graph,
    algorithm: Algorithm,
    sources: seq<NodeId>,
    targets: set<NodeId>,
    allowed: set<RelationshipType>,
    directed: bool,
    maxDepth: nat,
    maxPaths: nat,
    minimumScore: int,
    score: Route -> int,
    idOrder: Route -> int)

  function EdgeWeight(kind: RelationshipType): (w: nat)
    ensures 1 <= w <= 5
    ensures w == 1 <==> kind in {Grants, HasRole, HasSudoPolicy}
    ensures w == 2 <==> kind in {HasSshKey, MemberOf}
    ensures w == 3 <==> kind in {Trusts, AuthenticatesTo, HasAccessTo}
    ensures w == 4 <==> kind in {Uses, RunsOn}
  {
    match kind
    case Grants => 1
    case HasRole => 1
    case HasSudoPolicy => 1
    case HasSshKey => 2
    case MemberOf => 2
    case Trusts => 3
    case AuthenticatesTo => 3
    case HasAccessTo => 3
    case Uses => 4
    case RunsOn => 4
    case Other(_) => 5
  }

  function Weight(rels: seq<Relationship>): nat
  {
    if rels == [] then 0 else Weight(rels[..|rels| - 1]) + EdgeWeight(rels[|rels| - 1].kind)
  }

  /** What the services take for granted of a stored graph and of the source list
      derived from it: identifiers are unique. Relationships may dangle. */
  ghost predicate Wellformed(q: Search)
  {
    && Distinct(q.graph.nodes)
    && Distinct(q.sources)
    && forall i, j :: 0 <= i < j < |q.graph.relationships| ==> q.graph.relationships[i].id != q.graph.relationships[j].id
  }

  /** Relationship `e` may be walked from `a` to `b`. */
  predicate Links(q: Search, a: NodeId, e: Relationship, b: NodeId)
  {
    && e in q.graph.relationships
    && e.kind in q.allowed
    && (|| (e.source == a && e.target == b)
        || (!q.directed && e.target == a && e.source == b))
  }

  ghost predicate Connected(q: Search, r: Route)
    requires |r.nodes| == |r.rels| + 1
  {
    forall i :: 0 <= i < |r.rels| ==> Links(q, r.nodes[i], r.rels[i], r.nodes[i + 1])
  }

  /** The independent notion of a path: a simple, allowed walk over existing
      nodes that leaves one of the sources. */
  ghost predicate IsRoute(q: Search, r: Route)
  {
    && |r.nodes| == |r.rels| + 1
    && r.nodes[0] in q.sources
    && (forall n :: n in r.nodes ==> n in q.graph.nodes)
    && Distinct(r.nodes)
    && Connected(q, r)
    && r.cost == Weight(r.rels)
  }

  /** No node strictly between the ends is a target. */
  ghost predicate InteriorClear(q: Search, r: Route)
  {
    forall i :: 0 < i < |r.nodes| - 1 ==> r.nodes[i] !in q.targets
  }

  function Origin(s: NodeId): Route { Route([s], [], 0) }

  function Extend(r: Route, e: Relationship, n: NodeId): Route
  {
    Route(r.nodes + [n], r.rels + [e], r.cost + EdgeWeight(e.kind))
  }

  /** The route without its last hop. */
  function Parent(r: Route): Route
    requires |r.rels| > 0 && |r.nodes| > 0
  {
    Route(r.nodes[..|r.nodes| - 1], r.rels[..|r.rels| - 1], Weight(r.rels[..|r.rels| - 1]))
  }

  lemma OriginIsRoute(q: Search, s: NodeId)
    requires s in q.sources && s in q.graph.nodes
    ensures IsRoute(q, Origin(s)) && InteriorClear(q, Origin(s))
  {
  }

  lemma HopIsRoute(q: Search, r: Route)
    requires IsRoute(q, r) && r.Hops() == 0
    ensures r == Origin(r.nodes[0])
  {
  }

  /** Appending a hop to a route gives a route exactly when the hop is allowed
      and leads to an existing node the route has not visited. */
  lemma ExtendIsRoute(q: Search, r: Route, e: Relationship, n: NodeId)
    requires IsRoute(q, r)
    ensures IsRoute(q, Extend(r, e, n)) <==> Links(q, r.End(), e, n) && n in q.graph.nodes && n !in r.nodes
    ensures InteriorClear(q, Extend(r, e, n)) <==> InteriorClear(q, r) && (r.Hops() > 0 ==> r.End() !in q.targets)
  {
    var x := Extend(r, e, n);
    assert x.rels[..|x.rels| - 1] == r.rels;
    assert x.nodes[|x.nodes| - 1] == n && x.nodes[|r.rels|] == r.End();
    assert forall i :: 0 <= i < |r.nodes| ==> x.nodes[i] == r.nodes[i];
    assert forall i :: 0 <= i < |r.rels| ==> x.rels[i] == r.rels[i];
    if Links(q, r.End(), e, n) && n in q.graph.nodes && n !in r.nodes {
      assert Connected(q, x);
    }
    if IsRoute(q, x) {
      assert Links(q, x.nodes[|r.rels|], x.rels[|r.rels|], x.nodes[|r.rels| + 1]);
      assert n in x.nodes;
    }
    if InteriorClear(q, x) {
      forall i | 0 < i < |r.nodes| - 1 ensures r.nodes[i] !in q.targets {
        assert x.nodes[i] !in q.targets;
      }
      if r.Hops() > 0 {
        assert x.nodes[|r.rels|] !in q.targets;
      }
    }
  }

  lemma ParentOfExtend(q: Search, r: Route, e: Relationship, n: NodeId)
    requires IsRoute(q, r)
    ensures Parent(Extend(r, e, n)) == r
  {
    var x := Extend(r, e, n);
    assert x.rels[..|x.rels| - 1] == r.rels;
    assert x.nodes[..|x.nodes| - 1] == r.nodes;
  }

  /** Every route with a hop is its parent route extended by that hop. */
  lemma ParentIsRoute(q: Search, r: Route)
    requires IsRoute(q, r) && r.Hops() > 0
    ensures IsRoute(q, Parent(r))
    ensures r == Extend(Parent(r), r.rels[|r.rels| - 1], r.End())
    ensures Links(q, Parent(r).End(), r.rels[|r.rels| - 1], r.End())
    ensures r.End() !in Parent(r).nodes && r.End() in q.graph.nodes
    ensures r.Source() == Parent(r).Source()
    ensures InteriorClear(q, r) ==> InteriorClear(q, Parent(r)) && (r.Hops() > 1 ==> Parent(r).End() !in q.targets)
  {
    var p := Parent(r);
    var k := |r.rels| - 1;
    assert forall i :: 0 <= i < |p.nodes| ==> p.nodes[i] == r.nodes[i];
    assert forall i :: 0 <= i < |p.rels| ==> p.rels[i] == r.rels[i];
    forall n | n in p.nodes ensures n in q.graph.nodes && n != r.End() {
      var i :| 0 <= i < |p.nodes| && p.nodes[i] == n;
      assert r.nodes[i] == n;
    }
    assert Links(q, r.nodes[k], r.rels[k], r.nodes[k + 1]);
    assert p.rels + [r.rels[k]] == r.rels;
    assert p.nodes + [r.End()] == r.nodes;
    if InteriorClear(q, r) && r.Hops() > 1 {
      assert r.nodes[k] !in q.targets;
    }
  }

  /** A simple route has fewer hops than the graph has nodes. */
  lemma RouteIsShort(q: Search, r: Route)
    requires IsRoute(q, r)
    ensures r.Hops() < |q.graph.nodes|
    ensures r.Hops() + 1 == |q.graph.nodes| ==> forall n :: n in q.graph.nodes ==> n in r.nodes
  {
    var inner, outer := Elements(r.nodes), Elements(q.graph.nodes);
    DistinctCount(r.nodes);
    SetOfAtMost(q.graph.nodes);
    assert inner <= outer;
    SubsetCount(inner, outer);
    if |inner| == |q.graph.nodes| {
      assert |outer| == |inner|;
      SubsetEqual(inner, outer);
      forall n | n in q.graph.nodes ensures n in r.nodes {
        assert n in outer;
      }
    }
  }
}
