/** The access-path traversal of the user profile: a recursive walk with
    backtracking over shared state. */
module AccessPaths {
  import opened AccessGraph
  import opened Sequences
  import opened PathSearch
  import opened SearchTheorems
  import opened AttackPathService

  datatype Direction = TowardsTarget | TowardsSource

  /** One step of an access path: the node arrived at and the link taken. */
  datatype PathNode = PathNode(id: NodeId, link: Relationship)

  datatype AccessPath = AccessPath(nodes: seq<PathNode>, direct: bool)

  /** What a traversal is asked for. */
  datatype Request = Request(graph: Graph, userId: NodeId, direction: Direction, maxDepth: nat)
  {
    function From(link: Relationship): NodeId
    {
      if direction.TowardsTarget? then link.source else link.target
    }

    function Next(link: Relationship): NodeId
    {
      if direction.TowardsTarget? then link.target else link.source
    }

    /** Where the path `p` has led to. */
    function At(p: seq<PathNode>): NodeId
    {
      if p == [] then userId else p[|p| - 1].id
    }
  }

  /** The independent notion: distinct existing nodes other than the user, each
      reached from the one before over a link of the graph. */
  ghost predicate IsTrail(a: Request, t: seq<PathNode>)
  {
    && (forall i :: 0 <= i < |t| ==>
          && t[i].link in a.graph.relationships
          && a.From(t[i].link) == a.At(t[..i])
          && a.Next(t[i].link) == t[i].id
          && t[i].id in a.graph.nodes
          && t[i].id != a.userId)
    && (forall i, j :: 0 <= i < j < |t| ==> t[i].id != t[j].id)
  }

  predicate Visits(p: seq<PathNode>, n: NodeId)
  {
    exists i :: 0 <= i < |p| && p[i].id == n
  }

  /** Whether the walk goes on from path `p` over `link`. */
  predicate Continues(a: Request, p: seq<PathNode>, link: Relationship)
  {
    && |p| < a.maxDepth
    && a.From(link) == a.At(p)
    && a.Next(link) != a.userId
    && a.Next(link) in a.graph.nodes
    && !Visits(p, a.Next(link))
  }

  function Onto(a: Request, p: seq<PathNode>, link: Relationship): seq<PathNode>
  {
    p + [PathNode(a.Next(link), link)]
  }

  /** The paths recorded from the moment `p` has been walked, in order. */
  function Recorded(a: Request, p: seq<PathNode>): seq<seq<PathNode>>
    requires |p| <= a.maxDepth
    decreases a.maxDepth - |p|, 1, 0
  {
    [p] + Continued(a, p, a.graph.relationships)
  }

  /** The part of it that starts with one of the given links. */
  function Continued(a: Request, p: seq<PathNode>, links: seq<Relationship>): seq<seq<PathNode>>
    requires |p| <= a.maxDepth
    decreases a.maxDepth - |p|, 0, |links|
  {
    if links == [] then [] else
      var k := |links| - 1;
      Continued(a, p, links[..k]) + (if Continues(a, p, links[k]) then Recorded(a, Onto(a, p, links[k])) else [])
  }

  function AsPaths(ts: seq<seq<PathNode>>): (r: seq<AccessPath>)
    ensures |r| == |ts| && forall i :: 0 <= i < |ts| ==> r[i] == AccessPath(ts[i], |ts[i]| == 1)
  {
    seq(|ts|, i requires 0 <= i < |ts| => AccessPath(ts[i], |ts[i]| == 1))
  }

  /** What is recorded beyond `p` over one link. */
  function Over(a: Request, p: seq<PathNode>, link: Relationship): seq<seq<PathNode>>
    requires |p| <= a.maxDepth
  {
    if Continues(a, p, link) then Recorded(a, Onto(a, p, link)) else []
  }

  /** What has been recorded after the first `k` links, on top of `base`. */
  function RecordedUpTo(a: Request, p: seq<PathNode>, base: seq<AccessPath>, k: nat): seq<AccessPath>
    requires |p| <= a.maxDepth && k <= |a.graph.relationships|
  {
    if k == 0 then base
    else RecordedUpTo(a, p, base, k - 1) + AsPaths(Over(a, p, a.graph.relationships[k - 1]))
  }

  lemma AsPathsConcat(s: seq<seq<PathNode>>, t: seq<seq<PathNode>>)
    ensures AsPaths(s + t) == AsPaths(s) + AsPaths(t)
  {
  }

  /** What is recorded over a link that is taken: the longer path, then what goes on
      from it. */
  lemma OverTaken(a: Request, p: seq<PathNode>, link: Relationship, base: seq<AccessPath>)
    requires Continues(a, p, link)
    ensures var q := Onto(a, p, link);
      base + AsPaths(Over(a, p, link)) == base + [AccessPath(q, |q| == 1)] + AsPaths(Continued(a, q, a.graph.relationships))
  {
    var q := Onto(a, p, link);
    AsPathsConcat([q], Continued(a, q, a.graph.relationships));
    Regroup(base, [AccessPath(q, |q| == 1)], AsPaths(Continued(a, q, a.graph.relationships)));
  }

  /** The links up to the `k`-th, and what is recorded over the `k`-th. */
  lemma ContinuedStep(a: Request, p: seq<PathNode>, k: nat)
    requires |p| <= a.maxDepth && 0 < k <= |a.graph.relationships|
    ensures Continued(a, p, a.graph.relationships[..k])
         == Continued(a, p, a.graph.relationships[..k - 1]) + Over(a, p, a.graph.relationships[k - 1])
  {
    var links := a.graph.relationships[..k];
    assert links[..k - 1] == a.graph.relationships[..k - 1] && links[k - 1] == a.graph.relationships[k - 1];
  }

  lemma Regroup<T>(a: seq<T>, b: seq<T>, c: seq<T>)
    ensures a + (b + c) == a + b + c
  {
  }

  lemma {:induction false} RecordedUpToIs(a: Request, p: seq<PathNode>, base: seq<AccessPath>, k: nat)
    requires |p| <= a.maxDepth && k <= |a.graph.relationships|
    ensures RecordedUpTo(a, p, base, k) == base + AsPaths(Continued(a, p, a.graph.relationships[..k]))
  {
    var links := a.graph.relationships;
    if k > 0 {
      RecordedUpToIs(a, p, base, k - 1);
      ContinuedStep(a, p, k);
      var before, over := Continued(a, p, links[..k - 1]), Over(a, p, links[k - 1]);
      AsPathsConcat(before, over);
      Regroup(base, AsPaths(before), AsPaths(over));
    }
  }

  lemma VisitsLonger(p: seq<PathNode>, x: PathNode, n: NodeId)
    ensures Visits(p + [x], n) <==> Visits(p, n) || n == x.id
  {
    if Visits(p, n) {
      var i :| 0 <= i < |p| && p[i].id == n;
      assert (p + [x])[i].id == n;
    }
    assert (p + [x])[|p|] == x;
  }

  // --------------------------------------------------------------- traversal

  /** The state that the recursive calls share. */
  class Traversal {
    const request: Request
    var visited: set<NodeId>
    var pathNodes: seq<PathNode>
    var paths: seq<AccessPath>

    constructor (request: Request)
      ensures this.request == request && visited == {} && pathNodes == [] && paths == []
    {
      this.request := request;
      visited, pathNodes, paths := {}, [], [];
    }

    /** The existing nodes marked as visited are those on the current path; ids
        without a node may linger among them. */
    ghost predicate OnPath(withUser: bool)
      reads this
    {
      forall n :: n in request.graph.nodes ==>
        (n in visited <==> (withUser && n == request.userId) || Visits(pathNodes, n))
    }

    /** Walks on to `currentId` over `link`. Whatever is recorded below it, the
        path is restored on return, and so is `visited` up to ids that have no
        node. */
    method Dfs(currentId: NodeId, depth: nat, link: Relationship)
      requires depth == |pathNodes| + 1 <= request.maxDepth + 1
      requires request.From(link) == request.At(pathNodes) && request.Next(link) == currentId
      requires currentId != request.userId && OnPath(true)
      modifies this`visited, this`pathNodes, this`paths
      ensures pathNodes == old(pathNodes) && OnPath(true)
      ensures paths == old(paths) + AsPaths(
        if depth <= request.maxDepth then Over(request, old(pathNodes), link) else [])
      decreases request.maxDepth + 1 - depth, 1
    {
      if depth > request.maxDepth || currentId in visited {
        assert depth <= request.maxDepth ==> !Continues(request, pathNodes, link);
        return;
      }
      visited := visited + {currentId};
      if currentId !in request.graph.nodes {
        return;
      }
      ghost var base, p := paths, pathNodes;
      forall n { VisitsLonger(p, PathNode(currentId, link), n); }
      pathNodes := pathNodes + [PathNode(currentId, link)];
      paths := paths + [AccessPath(pathNodes, depth == 1)];
      assert pathNodes == Onto(request, p, link);
      Loop(currentId, depth);
      visited := visited - {currentId};
      pathNodes := pathNodes[..|pathNodes| - 1];
      assert pathNodes == p;
      OverTaken(request, p, link, base);
    }

    /** The loop over all links at the end of the current path. */
    method Loop(currentId: NodeId, depth: nat)
      requires depth == |pathNodes| <= request.maxDepth
      requires currentId == request.At(pathNodes) && OnPath(true)
      modifies this`visited, this`pathNodes, this`paths
      ensures pathNodes == old(pathNodes) && OnPath(true)
      ensures paths == old(paths) + AsPaths(Continued(request, pathNodes, request.graph.relationships))
      decreases request.maxDepth + 1 - depth, 0
    {
      var links := request.graph.relationships;
      ghost var base, p := paths, pathNodes;
      for k := 0 to |links|
        invariant pathNodes == p && OnPath(true)
        invariant paths == RecordedUpTo(request, p, base, k)
      {
        var link := links[k];
        var nextId := request.Next(link);
        if request.From(link) == currentId && nextId != request.userId && nextId !in visited {
          Dfs(nextId, depth + 1, link);
        } else {
          NotOver(link);
        }
      }
      assert links[..|links|] == links;
      RecordedUpToIs(request, p, base, |links|);
    }

    lemma NotOver(link: Relationship)
      requires |pathNodes| <= request.maxDepth && OnPath(true)
      requires request.From(link) != request.At(pathNodes) || request.Next(link) == request.userId || request.Next(link) in visited
      ensures Over(request, pathNodes, link) == []
    {
    }
  }

  /** The whole traversal: starts at the user, who is never recorded. */
  method TraverseAccessPaths(a: Request) returns (paths: seq<AccessPath>)
    ensures paths == AsPaths(Traversed(a))
  {
    var t := new Traversal(a);
    t.visited := {a.userId};
    if a.userId in a.graph.nodes {
      t.Loop(a.userId, 0);
    }
    return t.paths;
  }

  function Traversed(a: Request): seq<seq<PathNode>>
  {
    if a.userId in a.graph.nodes then Continued(a, [], a.graph.relationships) else []
  }

  // ----------------------------------------------------------- what is found

  lemma OntoIsTrail(a: Request, p: seq<PathNode>, link: Relationship)
    requires IsTrail(a, p) && link in a.graph.relationships && Continues(a, p, link)
    ensures IsTrail(a, Onto(a, p, link))
  {
    var t := Onto(a, p, link);
    assert forall i :: 0 <= i <= |p| ==> t[..i] == p[..i];
    assert p[..|p|] == p;
    forall i, j | 0 <= i < j < |t| ensures t[i].id != t[j].id {
      if j == |p| {
        assert !Visits(p, a.Next(link));
      }
    }
  }

  lemma {:induction false} RecordedSound(a: Request, p: seq<PathNode>, t: seq<PathNode>)
    requires IsTrail(a, p) && |p| <= a.maxDepth && t in Recorded(a, p)
    ensures IsTrail(a, t) && p <= t && |t| <= a.maxDepth
    decreases a.maxDepth - |p|, 1, 0
  {
    if t != p {
      ContinuedSound(a, p, a.graph.relationships, t);
    }
  }

  lemma {:induction false} ContinuedSound(a: Request, p: seq<PathNode>, links: seq<Relationship>, t: seq<PathNode>)
    requires IsTrail(a, p) && |p| <= a.maxDepth && t in Continued(a, p, links)
    requires forall e :: e in links ==> e in a.graph.relationships
    ensures IsTrail(a, t) && p < t && |t| <= a.maxDepth && t[|p|].link in links
    decreases a.maxDepth - |p|, 0, |links|
  {
    var k := |links| - 1;
    if t in Continued(a, p, links[..k]) {
      ContinuedSound(a, p, links[..k], t);
    } else {
      OntoIsTrail(a, p, links[k]);
      RecordedSound(a, Onto(a, p, links[k]), t);
      assert t[|p|] == Onto(a, p, links[k])[|p|];
    }
  }

  lemma TrailContinues(a: Request, p: seq<PathNode>, t: seq<PathNode>)
    requires IsTrail(a, t) && p < t && |t| <= a.maxDepth
    ensures Continues(a, p, t[|p|].link) && t[|p|].link in a.graph.relationships
    ensures Onto(a, p, t[|p|].link) <= t
  {
    assert t[..|p|] == p;
    assert t[..|p| + 1] == Onto(a, p, t[|p|].link);
  }

  lemma {:induction false} RecordedComplete(a: Request, p: seq<PathNode>, t: seq<PathNode>)
    requires IsTrail(a, t) && p <= t && |t| <= a.maxDepth
    ensures t in Recorded(a, p)
    decreases a.maxDepth - |p|, 1, 0
  {
    if p < t {
      TrailContinues(a, p, t);
      ContinuedComplete(a, p, a.graph.relationships, t);
    } else {
      assert p == t && Recorded(a, p)[0] == p;
    }
  }

  lemma {:induction false} ContinuedComplete(a: Request, p: seq<PathNode>, links: seq<Relationship>, t: seq<PathNode>)
    requires IsTrail(a, t) && p < t && |t| <= a.maxDepth && t[|p|].link in links
    ensures t in Continued(a, p, links)
    decreases a.maxDepth - |p|, 0, |links|
  {
    var k := |links| - 1;
    TrailContinues(a, p, t);
    if t[|p|].link == links[k] {
      RecordedComplete(a, Onto(a, p, links[k]), t);
    } else {
      assert links == links[..k] + [links[k]];
      ContinuedComplete(a, p, links[..k], t);
    }
  }

  lemma RecordedStart(a: Request, p: seq<PathNode>, link: Relationship, t: seq<PathNode>)
    requires IsTrail(a, Onto(a, p, link)) && |p| < a.maxDepth && t in Recorded(a, Onto(a, p, link))
    ensures |t| > |p| && t[|p|].link == link
  {
    RecordedSound(a, Onto(a, p, link), t);
    assert t[|p|] == Onto(a, p, link)[|p|];
  }

  lemma {:induction false} RecordedOnce(a: Request, p: seq<PathNode>)
    requires IsTrail(a, p) && |p| <= a.maxDepth && Distinct(a.graph.relationships)
    ensures Distinct(Recorded(a, p))
    decreases a.maxDepth - |p|, 1, 0
  {
    var links := a.graph.relationships;
    ContinuedOnce(a, p, links);
    if p in Continued(a, p, links) {
      ContinuedSound(a, p, links, p);
    }
    DistinctConcat([p], Continued(a, p, links));
  }

  lemma {:induction false} ContinuedOnce(a: Request, p: seq<PathNode>, links: seq<Relationship>)
    requires IsTrail(a, p) && |p| <= a.maxDepth && Distinct(a.graph.relationships)
    requires Distinct(links) && forall e :: e in links ==> e in a.graph.relationships
    ensures Distinct(Continued(a, p, links))
    decreases a.maxDepth - |p|, 0, |links|
  {
    if links != [] {
      var k := |links| - 1;
      var before := Continued(a, p, links[..k]);
      ContinuedOnce(a, p, links[..k]);
      if Continues(a, p, links[k]) {
        var deeper := Recorded(a, Onto(a, p, links[k]));
        OntoIsTrail(a, p, links[k]);
        RecordedOnce(a, Onto(a, p, links[k]));
        forall t | t in before ensures t !in deeper {
          ContinuedSound(a, p, links[..k], t);
          if t in deeper {
            RecordedStart(a, p, links[k], t);
          }
        }
        DistinctConcat(before, deeper);
      }
    }
  }

  /** The traversal records exactly the simple link paths of 1..maxDepth hops
      that leave an existing user, each once. */
  lemma TraversalIsExact(a: Request, t: seq<PathNode>)
    requires Distinct(a.graph.relationships)
    ensures t in Traversed(a) <==> a.userId in a.graph.nodes && IsTrail(a, t) && 1 <= |t| <= a.maxDepth
    ensures Distinct(Traversed(a))
  {
    var links := a.graph.relationships;
    ContinuedOnce(a, [], links);
    if t in Continued(a, [], links) {
      ContinuedSound(a, [], links, t);
    }
    if IsTrail(a, t) && 1 <= |t| <= a.maxDepth {
      TrailContinues(a, [], t);
      ContinuedComplete(a, [], links, t);
    }
  }

  /** Path `s` comes before `t` in the order of the walk: it ends where `t` goes on,
      or it parts from `t` over a link that the graph lists earlier. */
  ghost predicate PartsAt(links: seq<Relationship>, s: seq<PathNode>, t: seq<PathNode>, k: nat)
  {
    && k <= |s| && k < |t| && s[..k] == t[..k]
    && (k == |s| || exists i, j :: 0 <= i < j < |links| && links[i] == s[k].link && links[j] == t[k].link)
  }

  ghost predicate Before(links: seq<Relationship>, s: seq<PathNode>, t: seq<PathNode>)
  {
    exists k: nat :: PartsAt(links, s, t, k)
  }

  ghost predicate InOrder(links: seq<Relationship>, ts: seq<seq<PathNode>>)
  {
    forall m, n :: 0 <= m < n < |ts| ==> Before(links, ts[m], ts[n])
  }

  ghost predicate AllBefore(links: seq<Relationship>, ss: seq<seq<PathNode>>, ts: seq<seq<PathNode>>)
  {
    forall s, t :: s in ss && t in ts ==> Before(links, s, t)
  }

  lemma InOrderConcat(links: seq<Relationship>, ss: seq<seq<PathNode>>, ts: seq<seq<PathNode>>)
    requires InOrder(links, ss) && InOrder(links, ts) && AllBefore(links, ss, ts)
    ensures InOrder(links, ss + ts)
  {
    var all := ss + ts;
    forall m, n | 0 <= m < n < |all| ensures Before(links, all[m], all[n]) {
      if m < |ss| <= n {
        assert all[m] in ss && all[n] in ts;
      }
    }
  }

  lemma {:induction false} RecordedInOrder(a: Request, p: seq<PathNode>)
    requires IsTrail(a, p) && |p| <= a.maxDepth
    ensures InOrder(a.graph.relationships, Recorded(a, p))
    decreases a.maxDepth - |p|, 1, 0
  {
    var links := a.graph.relationships;
    ContinuedInOrder(a, p, |links|);
    assert links[..|links|] == links;
    forall s, t | s in [p] && t in Continued(a, p, links) ensures Before(links, s, t) {
      ContinuedSound(a, p, links, t);
      assert PartsAt(links, p, t, |p|);
    }
    InOrderConcat(links, [p], Continued(a, p, links));
  }

  lemma {:induction false} ContinuedInOrder(a: Request, p: seq<PathNode>, n: nat)
    requires IsTrail(a, p) && |p| <= a.maxDepth && n <= |a.graph.relationships|
    ensures InOrder(a.graph.relationships, Continued(a, p, a.graph.relationships[..n]))
    decreases a.maxDepth - |p|, 0, n
  {
    var links := a.graph.relationships;
    if n > 0 {
      ContinuedInOrder(a, p, n - 1);
      if Continues(a, p, links[n - 1]) {
        OntoIsTrail(a, p, links[n - 1]);
        RecordedInOrder(a, Onto(a, p, links[n - 1]));
      }
      EarlierLinksFirst(a, p, n - 1);
      InOrderConcat(links, Continued(a, p, links[..n - 1]), Over(a, p, links[n - 1]));
      ContinuedStep(a, p, n);
    }
  }

  lemma EarlierLinksFirst(a: Request, p: seq<PathNode>, n: nat)
    requires IsTrail(a, p) && |p| <= a.maxDepth && n < |a.graph.relationships|
    ensures AllBefore(a.graph.relationships, Continued(a, p, a.graph.relationships[..n]), Over(a, p, a.graph.relationships[n]))
  {
    var links := a.graph.relationships;
    forall s: seq<PathNode>, t: seq<PathNode> | s in Continued(a, p, links[..n]) && t in Over(a, p, links[n])
      ensures Before(links, s, t)
    {
      EarlierLinkFirst(a, p, n, s, t);
    }
  }

  lemma EarlierLinkFirst(a: Request, p: seq<PathNode>, n: nat, s: seq<PathNode>, t: seq<PathNode>)
    requires IsTrail(a, p) && |p| <= a.maxDepth && n < |a.graph.relationships|
    requires s in Continued(a, p, a.graph.relationships[..n]) && t in Over(a, p, a.graph.relationships[n])
    ensures Before(a.graph.relationships, s, t)
  {
    var links := a.graph.relationships;
    ContinuedSound(a, p, links[..n], s);
    OntoIsTrail(a, p, links[n]);
    RecordedStart(a, p, links[n], t);
    RecordedSound(a, Onto(a, p, links[n]), t);
    var i :| 0 <= i < n && links[..n][i] == s[|p|].link;
    assert s[..|p|] == p && t[..|p|] == p;
    assert links[i] == s[|p|].link && links[n] == t[|p|].link;
    assert PartsAt(links, s, t, |p|);
  }

  /** The paths come in the order of the walk: each before those that go on from
      it, and where two part, the one over the link listed earlier comes first. */
  lemma TraversalIsInOrder(a: Request)
    ensures InOrder(a.graph.relationships, Traversed(a))
  {
    var links := a.graph.relationships;
    ContinuedInOrder(a, [], |links|);
    assert links[..|links|] == links;
  }

  // ------------------------------------------------- agreement with `discover`

  /** The same question put to the path search: all simple paths from the user to
      any other node over any link, none turned down for its score. */
  ghost predicate SameQuestion(a: Request, q: Search)
  {
    && q.algorithm.All? && q.graph == a.graph && q.sources == [a.userId] && q.maxDepth == a.maxDepth
    && q.directed && a.direction.TowardsTarget?
    && (forall e :: e in a.graph.relationships ==> e.kind in q.allowed)
    && (forall n :: n in a.graph.nodes ==> (n in q.targets <==> n != a.userId))
    && AcceptsAll(q)
  }

  function TrailOf(r: Route): (t: seq<PathNode>)
    requires |r.nodes| == |r.rels| + 1
    ensures |t| == |r.rels| && forall i :: 0 <= i < |t| ==> t[i] == PathNode(r.nodes[i + 1], r.rels[i])
  {
    seq(|r.rels|, i requires 0 <= i < |r.rels| => PathNode(r.nodes[i + 1], r.rels[i]))
  }

  function RouteOf(a: Request, t: seq<PathNode>): (r: Route)
    ensures |r.rels| == |t| && |r.nodes| == |t| + 1 && r.nodes[0] == a.userId && r.cost == Weight(r.rels)
    ensures forall i :: 0 <= i < |t| ==> r.rels[i] == t[i].link && r.nodes[i + 1] == t[i].id
  {
    var rels := seq(|t|, i requires 0 <= i < |t| => t[i].link);
    Route([a.userId] + seq(|t|, i requires 0 <= i < |t| => t[i].id), rels, Weight(rels))
  }

  lemma RouteIsTrail(a: Request, q: Search, r: Route)
    requires SameQuestion(a, q) && IsRoute(q, r)
    ensures IsTrail(a, TrailOf(r))
  {
    var t := TrailOf(r);
    forall i | 0 <= i < |t|
      ensures t[i].link in a.graph.relationships && a.From(t[i].link) == a.At(t[..i]) && a.Next(t[i].link) == t[i].id
      ensures t[i].id in a.graph.nodes && t[i].id != a.userId
    {
      assert Links(q, r.nodes[i], r.rels[i], r.nodes[i + 1]);
      assert r.nodes[0] != r.nodes[i + 1];
      assert i > 0 ==> t[..i][i - 1] == t[i - 1];
    }
    forall i, j | 0 <= i < j < |t| ensures t[i].id != t[j].id {
      assert r.nodes[i + 1] != r.nodes[j + 1];
    }
  }

  lemma TrailConnects(a: Request, q: Search, t: seq<PathNode>)
    requires SameQuestion(a, q) && IsTrail(a, t)
    ensures Connected(q, RouteOf(a, t))
  {
    var r := RouteOf(a, t);
    forall i | 0 <= i < |r.rels| ensures Links(q, r.nodes[i], r.rels[i], r.nodes[i + 1]) {
      assert a.From(t[i].link) == a.At(t[..i]) == r.nodes[i];
    }
  }

  lemma TrailNodes(a: Request, t: seq<PathNode>)
    requires IsTrail(a, t) && a.userId in a.graph.nodes
    ensures Distinct(RouteOf(a, t).nodes) && forall n :: n in RouteOf(a, t).nodes ==> n in a.graph.nodes
  {
    var ids := RouteOf(a, t).nodes;
    forall i, j | 0 <= i < j < |ids| ensures ids[i] != ids[j] {
      assert ids[j - 1 + 1] == t[j - 1].id;
      assert i > 0 ==> ids[i - 1 + 1] == t[i - 1].id;
    }
    forall i | 0 <= i < |ids| ensures ids[i] in a.graph.nodes {
      assert i > 0 ==> ids[i - 1 + 1] == t[i - 1].id;
    }
  }

  lemma TrailIsRoute(a: Request, q: Search, t: seq<PathNode>)
    requires SameQuestion(a, q) && IsTrail(a, t) && a.userId in a.graph.nodes
    ensures IsRoute(q, RouteOf(a, t)) && TrailOf(RouteOf(a, t)) == t
  {
    TrailConnects(a, q, t);
    TrailNodes(a, t);
    assert TrailOf(RouteOf(a, t)) == t;
  }

  lemma TrailIsWanted(a: Request, q: Search, t: seq<PathNode>)
    requires SameQuestion(a, q) && IsTrail(a, t) && a.userId in a.graph.nodes && 1 <= |t| <= a.maxDepth
    ensures Wanted(q, RouteOf(a, t)) && TrailOf(RouteOf(a, t)) == t
  {
    TrailIsRoute(a, q, t);
    var r := RouteOf(a, t);
    assert r.End() == t[|t| - 1].id;
  }

  lemma WantedIsTrail(a: Request, q: Search, r: Route)
    requires SameQuestion(a, q) && Wanted(q, r)
    ensures IsTrail(a, TrailOf(r)) && a.userId in a.graph.nodes && 1 <= |TrailOf(r)| <= a.maxDepth
  {
    RouteIsTrail(a, q, r);
    assert r.nodes[0] in r.nodes;
  }

  ghost predicate FoundAs(r: Route, t: seq<PathNode>)
  {
    |r.nodes| == |r.rels| + 1 && TrailOf(r) == t
  }

  /** The recursive traversal and an untruncated worklist search find the same
      paths. */
  lemma TraversalAgreesWithDiscover(a: Request, q: Search, t: seq<PathNode>)
    requires SameQuestion(a, q) && Wellformed(q) && |Returned(q)| < q.maxPaths
    ensures t in Traversed(a) <==> exists r :: r in Returned(q) && FoundAs(r, t)
  {
    assert Distinct(a.graph.relationships);
    TraversalIsExact(a, t);
    if t in Traversed(a) {
      TrailIsWanted(a, q, t);
      AllReturnsExactly(q, RouteOf(a, t));
      assert FoundAs(RouteOf(a, t), t);
    }
    if r :| r in Returned(q) && FoundAs(r, t) {
      AllReturnsExactly(q, r);
      WantedIsTrail(a, q, r);
    }
  }
}
