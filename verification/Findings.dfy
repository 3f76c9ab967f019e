/** The life of risk findings: stored objects that are changed in place, and the
    scan that upserts what it detects and resolves what it no longer finds. */
module Findings {
  import opened Wrappers

  datatype Status = Open | Acknowledged | Resolved | Suppressed

  type Time = int

  /** A stable finding identifier: the rule and the sorted ids of what it matched. */
  datatype FindingId = FindingId(rule: string, parts: seq<string>)

  /** The contents of a finding; `detail` stands for everything the rule match and
      the scoring supply, `resolution` for the note a reconciliation leaves. */
  datatype Record = Record(
    id: FindingId, status: Status, detail: int, firstDetected: Time, lastDetected: Time, resolution: Option<Time>)

  type Contents = map<FindingId, Record>

  ghost predicate Keyed(m: Contents)
  {
    forall id :: id in m ==> m[id].id == id
  }

  // ------------------------------------------------------------- the effects

  function StatusAfter(old': Option<Status>, next: Status): Status
  {
    if next.Resolved? then Resolved
    else match old'
      case None => next
      case Some(s) => if s.Resolved? then Open else s
  }

  function Upserted(m: Contents, next: Record): Contents
  {
    var known := next.id in m;
    m[next.id := next.(
      firstDetected := if known then m[next.id].firstDetected else next.firstDetected,
      status := StatusAfter(if known then Some(m[next.id].status) else None, next.status))]
  }

  predicate Vanished(r: Record, rules: set<string>, detected: set<FindingId>)
  {
    r.id.rule in rules && r.id !in detected && !r.status.Resolved? && !r.status.Suppressed?
  }

  function Settled(r: Record, rules: set<string>, detected: set<FindingId>, at: Time): Record
  {
    if Vanished(r, rules, detected) then r.(status := Resolved, resolution := Some(at)) else r
  }

  function Reconciled(m: Contents, rules: set<string>, detected: set<FindingId>, at: Time): Contents
  {
    map id | id in m :: Settled(m[id], rules, detected, at)
  }

  function VanishedIds(m: Contents, rules: set<string>, detected: set<FindingId>): set<FindingId>
  {
    set id | id in m && Vanished(m[id], rules, detected)
  }

  // ---------------------------------------------------------- the repository

  class Finding {
    const id: FindingId
    var status: Status
    var detail: int
    var firstDetected: Time
    var lastDetected: Time
    var resolution: Option<Time>

    constructor (r: Record)
      ensures View() == r
    {
      id, status, detail := r.id, r.status, r.detail;
      firstDetected, lastDetected, resolution := r.firstDetected, r.lastDetected, r.resolution;
    }

    function View(): Record
      reads this
    {
      Record(id, status, detail, firstDetected, lastDetected, resolution)
    }
  }

  class FindingRepository {
    var findings: map<FindingId, Finding>

    ghost predicate Valid()
      reads this
    {
      forall id :: id in findings ==> findings[id].id == id
    }

    ghost function View(): (m: Contents)
      requires Valid()
      reads this, findings.Values
      ensures Keyed(m)
    {
      map id | id in findings :: findings[id].View()
    }

    constructor ()
      ensures Valid() && View() == map[]
    {
      findings := map[];
    }

    /** Stores a fresh copy of `next` under its id. */
    method Upsert(next: Finding) returns (value: Finding)
      requires Valid()
      modifies this`findings
      ensures Valid() && fresh(value) && findings == old(findings)[next.id := value]
      ensures View() == Upserted(old(View()), next.View())
      ensures value.View() == View()[next.id]
      ensures next.status == Resolved ==> value.status == Resolved
      ensures next.status != Resolved && next.id !in old(findings) ==> value.status == next.status
      ensures next.status != Resolved && next.id in old(findings) ==>
        value.status == if old(findings[next.id].status) == Resolved then Open else old(findings[next.id].status)
      ensures value.firstDetected == if next.id in old(findings) then old(findings[next.id].firstDetected) else next.firstDetected
      ensures value.detail == next.detail && value.lastDetected == next.lastDetected && value.resolution == next.resolution
    {
      var known := next.id in findings;
      var status :=
        if next.status.Resolved? then Resolved
        else if known && findings[next.id].status.Resolved? then Open
        else if known then findings[next.id].status
        else next.status;
      var first := if known then findings[next.id].firstDetected else next.firstDetected;
      value := new Finding(Record(next.id, status, next.detail, first, next.lastDetected, next.resolution));
      findings := findings[next.id := value];
    }

    /** Sets the status of a stored finding: the stored object is changed first,
        so that the upsert meets the new status as the old one. */
    method SetStatus(id: FindingId, status: Status) returns (finding: Finding?)
      requires Valid()
      modifies this`findings, findings.Values
      ensures Valid()
      ensures finding == null <==> id !in old(findings)
      ensures finding == null ==> View() == old(View())
      ensures finding != null ==> finding == old(findings[id]) && finding.status == status
      ensures finding != null ==> View() == old(View())[id := old(View())[id].(status := status)]
    {
      if id !in findings {
        return null;
      }
      finding := findings[id];
      finding.status := status;
      var _ := Upsert(finding);
    }

    /** The body of the reconciliation loop for one stored finding. */
    method Settle(id: FindingId, rules: set<string>, detected: set<FindingId>, resolvedAt: Time) returns (resolved: bool)
      requires Valid() && id in findings
      modifies this`findings, findings[id]
      ensures Valid() && findings.Keys == old(findings).Keys
      ensures forall o :: o in findings && o != id ==> findings[o] == old(findings)[o]
      ensures findings[id] == old(findings)[id] || fresh(findings[id])
      ensures View() == old(View())[id := Settled(old(View())[id], rules, detected, resolvedAt)]
      ensures resolved <==> Vanished(old(View())[id], rules, detected)
    {
      var finding := findings[id];
      resolved := finding.id.rule in rules && finding.id !in detected && !finding.status.Resolved? && !finding.status.Suppressed?;
      if resolved {
        finding.status := Resolved;
        finding.resolution := Some(resolvedAt);
        var _ := Upsert(finding);
      }
    }

    /** Resolves the findings of the given rules that were not detected again. */
    method Reconcile(rules: set<string>, detected: set<FindingId>, resolvedAt: Time) returns (resolved: nat)
      requires Valid()
      modifies this`findings, findings.Values
      ensures Valid()
      ensures View() == Reconciled(old(View()), rules, detected, resolvedAt)
      ensures resolved == |VanishedIds(old(View()), rules, detected)|
    {
      resolved := 0;
      var ids := findings.Keys;
      ghost var start := View();
      ghost var total := |VanishedIds(start, rules, detected)|;
      StartOfLoop(start, rules, detected, resolvedAt);
      while ids != {}
        invariant Valid() && ids <= start.Keys && findings.Keys == start.Keys
        invariant View() == HalfReconciled(start, ids, rules, detected, resolvedAt)
        invariant forall k :: k in ids ==> k in old(findings) && findings[k] == old(findings)[k]
        invariant resolved + |VanishedAmong(start, ids, rules, detected)| == total
        decreases ids
      {
        var id :| id in ids;
        VanishedSplit(start, ids, rules, detected, id);
        HalfStep(start, ids, rules, detected, resolvedAt, id);
        ids := ids - {id};
        ghost var half := View();
        assert half[id] == start[id];
        var settled := Settle(id, rules, detected, resolvedAt);
        assert View() == half[id := Settled(start[id], rules, detected, resolvedAt)];
        resolved := resolved + (if settled then 1 else 0);
      }
    }
  }

  /** The contents when all ids but those in `todo` have been gone through. */
  ghost function HalfReconciled(m: Contents, todo: set<FindingId>, rules: set<string>, detected: set<FindingId>, at: Time): Contents
  {
    map id | id in m :: if id in todo then m[id] else Settled(m[id], rules, detected, at)
  }

  lemma StartOfLoop(m: Contents, rules: set<string>, detected: set<FindingId>, at: Time)
    ensures HalfReconciled(m, m.Keys, rules, detected, at) == m
    ensures HalfReconciled(m, {}, rules, detected, at) == Reconciled(m, rules, detected, at)
    ensures VanishedAmong(m, m.Keys, rules, detected) == VanishedIds(m, rules, detected)
  {
  }

  lemma HalfStep(m: Contents, todo: set<FindingId>, rules: set<string>, detected: set<FindingId>, at: Time, id: FindingId)
    requires id in todo && todo <= m.Keys
    ensures HalfReconciled(m, todo, rules, detected, at)[id] == m[id]
    ensures HalfReconciled(m, todo, rules, detected, at)[id := Settled(m[id], rules, detected, at)]
         == HalfReconciled(m, todo - {id}, rules, detected, at)
  {
  }

  ghost function VanishedAmong(m: Contents, ids: set<FindingId>, rules: set<string>, detected: set<FindingId>): set<FindingId>
    requires ids <= m.Keys
  {
    set id | id in ids && Vanished(m[id], rules, detected)
  }

  lemma VanishedSplit(m: Contents, ids: set<FindingId>, rules: set<string>, detected: set<FindingId>, id: FindingId)
    requires ids <= m.Keys && id in ids
    ensures |VanishedAmong(m, ids, rules, detected)| ==
      |VanishedAmong(m, ids - {id}, rules, detected)| + (if Vanished(m[id], rules, detected) then 1 else 0)
  {
    var less := VanishedAmong(m, ids - {id}, rules, detected);
    assert VanishedAmong(m, ids, rules, detected) == less + (if Vanished(m[id], rules, detected) then {id} else {});
  }
}
