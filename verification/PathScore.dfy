/** The score of a path, as far as the search can tell paths apart by it. */
module PathScore {
  import opened Wrappers
  import opened AccessGraph

  const MAX_SCORE := 100

  predicate Risky(kind: RelationshipType)
  {
    kind.Grants? || kind.HasRole? || kind.HasSudoPolicy? || kind.HasSshKey? || kind.Trusts?
  }

  function RiskyCount(rels: seq<Relationship>): nat
  {
    if rels == [] then 0 else RiskyCount(rels[..|rels| - 1]) + (if Risky(rels[|rels| - 1].kind) then 1 else 0)
  }

  /** What the relationships of a path add to its score. */
  function RelationshipScore(rels: seq<Relationship>): nat
  {
    (if exists i :: 0 <= i < |rels| && rels[i].kind.Trusts? then 10 else 0) + Min(14, 4 * RiskyCount(rels))
  }

  function TotalScore(share: int, rels: seq<Relationship>): (score: int)
    ensures share <= MAX_SCORE ==> score >= share
    ensures score <= MAX_SCORE
  {
    if share + RelationshipScore(rels) > MAX_SCORE then MAX_SCORE else share + RelationshipScore(rels)
  }

  /** Paths score as the service scores them: by a share that depends on the nodes
      alone, at least `floor` for every target, and by their relationships. */
  ghost predicate ScoredFrom(q: Search, share: seq<NodeId> -> int, floor: int)
  {
    (forall ns :: share(ns) >= floor) && forall r :: q.score(r) == TotalScore(share(r.nodes), r.rels)
  }

  ghost predicate ScoredByService(q: Search, floor: int)
  {
    exists share :: ScoredFrom(q, share, floor)
  }

  lemma ScoreOfOne(share: int, e: Relationship)
    requires !e.kind.Trusts?
    ensures TotalScore(share, [e]) ==
      var score := share + (if Risky(e.kind) then 4 else 0); if score > MAX_SCORE then MAX_SCORE else score
  {
    var rels := [e];
    assert rels[..0] == [] && RiskyCount(rels) == if Risky(e.kind) then 1 else 0;
    assert forall i :: 0 <= i < |rels| ==> !rels[i].kind.Trusts?;
  }

  lemma ScoreInRange(q: Search, floor: int, r: Route)
    requires ScoredByService(q, floor) && floor <= MAX_SCORE
    ensures floor <= q.score(r) <= MAX_SCORE
  {
    var share :| ScoredFrom(q, share, floor);
    var s := share(r.nodes);
    assert s >= floor && q.score(r) == TotalScore(s, r.rels);
  }
}
