/** A risk scan: runs the selected rules, upserts what they match and reconciles
    the rest; and what that means over any history of scans. */
module RiskScan {
  import opened Wrappers
  import opened Findings

  /** What a rule matches: the sorted ids involved and the scored details. */
  datatype Match = Match(parts: seq<string>, detail: int)

  /** A selected rule with the result of its detection, None if it throws. */
  datatype Rule = Rule(id: string, matches: Option<seq<Match>>)

  function Hit(rule: string, m: Match, now: Time): Record
  {
    Record(FindingId(rule, m.parts), Open, m.detail, now, now, None)
  }

  function HitsOf(rule: string, ms: seq<Match>, now: Time): (rs: seq<Record>)
    ensures |rs| == |ms| && forall i :: 0 <= i < |ms| ==> rs[i] == Hit(rule, ms[i], now)
  {
    seq(|ms|, i requires 0 <= i < |ms| => Hit(rule, ms[i], now))
  }

  /** Everything detected by the rules, up to the first that throws. */
  function Hits(rules: seq<Rule>, now: Time): seq<Record>
  {
    if rules == [] then [] else
      var k := |rules| - 1;
      if Throws(rules[..k]) || rules[k].matches.None? then Hits(rules[..k], now)
      else Hits(rules[..k], now) + HitsOf(rules[k].id, rules[k].matches.value, now)
  }

  predicate Throws(rules: seq<Rule>)
  {
    exists i :: 0 <= i < |rules| && rules[i].matches.None?
  }

  function UpsertAll(m: Contents, rs: seq<Record>): Contents
  {
    if rs == [] then m else Upserted(UpsertAll(m, rs[..|rs| - 1]), rs[|rs| - 1])
  }

  function Ids(rs: seq<Record>): set<FindingId> { set r | r in rs :: r.id }

  function RuleIds(rules: seq<Rule>): set<string> { set r | r in rules :: r.id }

  /** The findings after a scan at `now`. */
  function Scanned(m: Contents, rules: seq<Rule>, now: Time): Contents
  {
    var found := UpsertAll(m, Hits(rules, now));
    if Throws(rules) then found else Reconciled(found, RuleIds(rules), Ids(Hits(rules, now)), now)
  }

  datatype Outcome = Completed(detected: nat, resolved: nat) | Failed

  method Scan(repository: FindingRepository, rules: seq<Rule>, now: Time) returns (outcome: Outcome)
    requires repository.Valid()
    modifies repository`findings, repository.findings.Values
    ensures repository.Valid()
    ensures repository.View() == Scanned(old(repository.View()), rules, now)
    ensures outcome.Failed? <==> Throws(rules)
    ensures outcome.Completed? ==> forall id :: ScannedAs(old(repository.View()), repository.View(), rules, now, id)
    ensures outcome.Completed? ==>
      outcome == Completed(|MatchedIds(rules)|, |TurnedResolved(old(repository.View()), repository.View())|)
  {
    var detected: set<FindingId> := {};
    ghost var start := repository.View();
    for i := 0 to |rules|
      invariant repository.Valid() && !Throws(rules[..i])
      invariant repository.View() == UpsertAll(start, Hits(rules[..i], now))
      invariant detected == Ids(Hits(rules[..i], now))
      invariant forall f :: f in repository.findings.Values ==> f in old(repository.findings.Values) || fresh(f)
    {
      var rule := rules[i];
      Prefix(rules, i);
      if rule.matches.None? {
        ThrowsAt(rules, i, now);
        return Failed;
      }
      detected := Detect(repository, rule.id, rule.matches.value, now, detected, start, Hits(rules[..i], now));
    }
    assert rules[..|rules|] == rules;
    var resolved := repository.Reconcile(RuleIds(rules), detected, now);
    CompletedScan(start, rules, now);
    return Completed(|detected|, resolved);
  }

  method Put(repository: FindingRepository, hit: Record)
    requires repository.Valid()
    modifies repository`findings
    ensures repository.Valid() && repository.View() == Upserted(old(repository.View()), hit)
    ensures forall f :: f in repository.findings.Values ==> f in old(repository.findings.Values) || fresh(f)
  {
    var finding := new Finding(hit);
    var _ := repository.Upsert(finding);
  }

  /** Upserts everything one rule matched; `before` was detected earlier. */
  method Detect(repository: FindingRepository, rule: string, ms: seq<Match>, now: Time, detected0: set<FindingId>,
                ghost start: Contents, ghost before: seq<Record>) returns (detected: set<FindingId>)
    requires repository.Valid() && repository.View() == UpsertAll(start, before) && detected0 == Ids(before)
    modifies repository`findings
    ensures repository.Valid()
    ensures repository.View() == UpsertAll(start, before + HitsOf(rule, ms, now))
    ensures detected == Ids(before + HitsOf(rule, ms, now))
    ensures forall f :: f in repository.findings.Values ==> f in old(repository.findings.Values) || fresh(f)
  {
    detected := detected0;
    ghost var rs := before;
    for j := 0 to |ms|
      invariant repository.Valid()
      invariant rs == before + HitsOf(rule, ms[..j], now)
      invariant repository.View() == UpsertAll(start, rs) && detected == Ids(rs)
      invariant forall f :: f in repository.findings.Values ==> f in old(repository.findings.Values) || fresh(f)
    {
      var hit := Hit(rule, ms[j], now);
      OneMore(start, before, rule, ms, j, now);
      Put(repository, hit);
      detected := detected + {hit.id};
      rs := rs + [hit];
    }
    assert ms[..|ms|] == ms;
  }

  lemma OneMore(m: Contents, before: seq<Record>, rule: string, ms: seq<Match>, j: nat, now: Time)
    requires j < |ms|
    ensures
      var rs, hit := before + HitsOf(rule, ms[..j], now), Hit(rule, ms[j], now);
      && before + HitsOf(rule, ms[..j + 1], now) == rs + [hit]
      && UpsertAll(m, rs + [hit]) == Upserted(UpsertAll(m, rs), hit)
      && Ids(rs + [hit]) == Ids(rs) + {hit.id}
  {
    var rs, hit := before + HitsOf(rule, ms[..j], now), Hit(rule, ms[j], now);
    assert HitsOf(rule, ms[..j + 1], now) == HitsOf(rule, ms[..j], now) + [hit];
    assert (rs + [hit])[..|rs|] == rs;
  }

  lemma Prefix(rules: seq<Rule>, i: nat)
    requires i < |rules|
    ensures rules[..i + 1][..i] == rules[..i]
    ensures Throws(rules[..i + 1]) <==> Throws(rules[..i]) || rules[i].matches.None?
  {
    var longer := rules[..i + 1];
    if Throws(rules[..i]) {
      var j :| 0 <= j < |rules[..i]| && rules[..i][j].matches.None?;
      assert longer[j].matches.None?;
    }
    if rules[i].matches.None? {
      assert longer[i].matches.None?;
    }
    if Throws(longer) {
      var j :| 0 <= j < |longer| && longer[j].matches.None?;
      assert j == i || rules[..i][j].matches.None?;
    }
  }

  lemma {:induction false} ThrowsAt(rules: seq<Rule>, i: nat, now: Time)
    requires i < |rules| && rules[i].matches.None?
    ensures Throws(rules) && (!Throws(rules[..i]) ==> Hits(rules, now) == Hits(rules[..i], now))
  {
    if i == |rules| - 1 {
    } else {
      var k := |rules| - 1;
      assert rules[..k][..i] == rules[..i];
      ThrowsAt(rules[..k], i, now);
    }
  }

  // ------------------------------------------------------------ what it means

  lemma {:induction false} HitsAreOpen(rules: seq<Rule>, now: Time)
    ensures forall r :: r in Hits(rules, now) ==>
      r.status == Open && r.firstDetected == now && r.lastDetected == now && r.id.rule in RuleIds(rules)
  {
    if rules != [] {
      var k := |rules| - 1;
      HitsAreOpen(rules[..k], now);
      assert rules == rules[..k] + [rules[k]];
      assert RuleIds(rules) == RuleIds(rules[..k]) + {rules[k].id};
    }
  }

  ghost predicate AllOpen(rs: seq<Record>, now: Time)
  {
    forall r :: r in rs ==> r.status == Open && r.firstDetected == now && r.lastDetected == now
  }

  lemma IdsAppend(rs: seq<Record>)
    requires rs != []
    ensures Ids(rs) == Ids(rs[..|rs| - 1]) + {rs[|rs| - 1].id}
  {
    assert rs == rs[..|rs| - 1] + [rs[|rs| - 1]];
  }

  /** Upserting what was detected, possibly several times, keeps the first
      detection and the status of what was known, except that what was resolved
      is open again. */
  lemma {:induction false} UpsertedRow(m: Contents, rs: seq<Record>, now: Time, id: FindingId)
    requires AllOpen(rs, now) && Keyed(m)
    ensures Keyed(UpsertAll(m, rs))
    ensures id in UpsertAll(m, rs) <==> id in m || id in Ids(rs)
    ensures id in m && id !in Ids(rs) ==> UpsertAll(m, rs)[id] == m[id]
    ensures id in Ids(rs) ==>
      var r := UpsertAll(m, rs)[id];
      && r.lastDetected == now
      && r.firstDetected == (if id in m then m[id].firstDetected else now)
      && r.status == (if id in m && !m[id].status.Resolved? then m[id].status else Open)
  {
    if rs != [] {
      var k := |rs| - 1;
      IdsAppend(rs);
      UpsertedRow(m, rs[..k], now, id);
      if rs[k].id == id {
        assert rs[k] in rs;
      }
    }
  }

  /** A completed scan of a rule set: what it detects keeps its status, except that
      resolved findings are open again; what it does not detect of those rules is
      resolved unless suppressed; findings of other rules are untouched. */
  lemma ScanMeaning(m: Contents, rules: seq<Rule>, now: Time, id: FindingId)
    requires Keyed(m) && !Throws(rules)
    ensures id in Scanned(m, rules, now) <==> id in m || id in Ids(Hits(rules, now))
    ensures id in Ids(Hits(rules, now)) ==>
      var r := Scanned(m, rules, now)[id];
      && r.status == (if id in m && !m[id].status.Resolved? then m[id].status else Open)
      && r.lastDetected == now
      && r.firstDetected == (if id in m then m[id].firstDetected else now)
    ensures id in m && id !in Ids(Hits(rules, now)) ==>
      Scanned(m, rules, now)[id] ==
        if id.rule in RuleIds(rules) && !m[id].status.Resolved? && !m[id].status.Suppressed?
        then m[id].(status := Resolved, resolution := Some(now)) else m[id]
  {
    HitsAreOpen(rules, now);
    UpsertedRow(m, Hits(rules, now), now, id);
  }

  /** The count of resolved findings is exact: it counts the findings the scan
      changed to resolved. */
  lemma ResolvedCountIsExact(m: Contents, rules: seq<Rule>, now: Time)
    requires Keyed(m) && !Throws(rules)
    ensures VanishedIds(UpsertAll(m, Hits(rules, now)), RuleIds(rules), Ids(Hits(rules, now)))
         == set id | id in m && m[id].status != Resolved && id in Scanned(m, rules, now) && Scanned(m, rules, now)[id].status == Resolved
  {
    var found := UpsertAll(m, Hits(rules, now));
    forall id ensures id in VanishedIds(found, RuleIds(rules), Ids(Hits(rules, now))) <==>
      id in m && m[id].status != Resolved && id in Scanned(m, rules, now) && Scanned(m, rules, now)[id].status == Resolved
    {
      HitsAreOpen(rules, now);
      UpsertedRow(m, Hits(rules, now), now, id);
      ScanMeaning(m, rules, now, id);
    }
  }

  lemma {:induction false} SameIds(rules: seq<Rule>, now: Time, later: Time)
    ensures Ids(Hits(rules, now)) == Ids(Hits(rules, later))
  {
    if rules != [] {
      var k := |rules| - 1;
      SameIds(rules[..k], now, later);
      if !Throws(rules[..k]) && rules[k].matches.Some? {
        var ms := rules[k].matches.value;
        IdsConcat(Hits(rules[..k], now), HitsOf(rules[k].id, ms, now));
        IdsConcat(Hits(rules[..k], later), HitsOf(rules[k].id, ms, later));
        IdsOfHits(rules[k].id, ms, now, later);
      }
    }
  }

  lemma IdsConcat(a: seq<Record>, b: seq<Record>)
    ensures Ids(a + b) == Ids(a) + Ids(b)
  {
  }

  lemma IdsOfHits(rule: string, ms: seq<Match>, now: Time, later: Time)
    ensures Ids(HitsOf(rule, ms, now)) <= Ids(HitsOf(rule, ms, later))
    ensures Ids(HitsOf(rule, ms, later)) <= Ids(HitsOf(rule, ms, now))
  {
    var a, b := HitsOf(rule, ms, now), HitsOf(rule, ms, later);
    forall id | id in Ids(a) ensures id in Ids(b) {
      var i :| 0 <= i < |a| && a[i].id == id;
      assert b[i] in b && b[i].id == id;
    }
    forall id | id in Ids(b) ensures id in Ids(a) {
      var i :| 0 <= i < |b| && b[i].id == id;
      assert a[i] in a && a[i].id == id;
    }
  }

  /** Repeating a scan of an unchanged graph resolves nothing. */
  lemma RescanResolvesNone(m: Contents, rules: seq<Rule>, now: Time, later: Time)
    requires Keyed(m) && !Throws(rules)
    ensures VanishedIds(UpsertAll(Scanned(m, rules, now), Hits(rules, later)), RuleIds(rules), Ids(Hits(rules, later))) == {}
  {
    var once := Scanned(m, rules, now);
    SameIds(rules, now, later);
    forall id | id in once ensures once[id].id == id {
      ScanMeaning(m, rules, now, id);
      HitsAreOpen(rules, now);
      UpsertedRow(m, Hits(rules, now), now, id);
    }
    forall id ensures id !in VanishedIds(UpsertAll(once, Hits(rules, later)), RuleIds(rules), Ids(Hits(rules, later))) {
      HitsAreOpen(rules, later);
      UpsertedRow(once, Hits(rules, later), later, id);
      ScanMeaning(m, rules, now, id);
    }
  }

  // ------------------------------------------------- scans in terms of the matches

  /** Rule `i` has a match `j`. */
  ghost predicate MatchAt(rules: seq<Rule>, i: int, j: int)
  {
    0 <= i < |rules| && rules[i].matches.Some? && 0 <= j < |rules[i].matches.value|
  }

  /** The match is stored under this id. */
  ghost predicate Yields(rules: seq<Rule>, i: int, j: int, id: FindingId)
  {
    MatchAt(rules, i, j) && id.rule == rules[i].id && id.parts == rules[i].matches.value[j].parts
  }

  ghost predicate Matched(rules: seq<Rule>, id: FindingId)
  {
    exists i, j :: Yields(rules, i, j, id)
  }

  /** No later match is stored under the same id. */
  ghost predicate LastYield(rules: seq<Rule>, i: int, j: int, id: FindingId)
  {
    && Yields(rules, i, j, id)
    && forall x, y :: Yields(rules, x, y, id) ==> x < i || (x == i && y <= j)
  }

  /** What a scan of rules that do not throw makes of the finding `id`. */
  ghost predicate ScannedAs(m: Contents, m': Contents, rules: seq<Rule>, now: Time, id: FindingId)
  {
    && (id in m' <==> id in m || Matched(rules, id))
    && (Matched(rules, id) ==> Redetected(m, m', rules, now, id))
    && (id in m && !Matched(rules, id) ==>
          if (exists i :: 0 <= i < |rules| && rules[i].id == id.rule) && m[id].status != Resolved && m[id].status != Suppressed
          then m'[id] == m[id].(status := Resolved, resolution := Some(now)) else m'[id] == m[id])
  }

  /** A detected finding keeps its status and first detection, except that it is open
      if it is new or was resolved, and shows what the last match supplied. */
  ghost predicate Redetected(m: Contents, m': Contents, rules: seq<Rule>, now: Time, id: FindingId)
    requires id in m'
  {
    && m'[id].status == (if id in m && m[id].status != Resolved then m[id].status else Open)
    && m'[id].firstDetected == (if id in m then m[id].firstDetected else now)
    && m'[id].lastDetected == now && m'[id].resolution == None
    && forall i, j :: LastYield(rules, i, j, id) ==> m'[id].detail == rules[i].matches.value[j].detail
  }

  function MatchedIds(rules: seq<Rule>): set<FindingId>
  {
    set i, j | 0 <= i < |rules| && rules[i].matches.Some? && 0 <= j < |rules[i].matches.value| ::
      FindingId(rules[i].id, rules[i].matches.value[j].parts)
  }

  lemma MatchedIdsMember(rules: seq<Rule>, id: FindingId)
    ensures id in MatchedIds(rules) <==> Matched(rules, id)
  {
    if Matched(rules, id) {
      var i, j :| Yields(rules, i, j, id);
      assert FindingId(rules[i].id, rules[i].matches.value[j].parts) == id;
    }
    if id in MatchedIds(rules) {
      var i, j :| 0 <= i < |rules| && rules[i].matches.Some? && 0 <= j < |rules[i].matches.value|
        && id == FindingId(rules[i].id, rules[i].matches.value[j].parts);
      assert Yields(rules, i, j, id);
    }
  }

  ghost predicate MatchedBy(rule: string, ms: seq<Match>, id: FindingId)
  {
    exists j :: 0 <= j < |ms| && id == FindingId(rule, ms[j].parts)
  }

  lemma IdsOfRule(rule: string, ms: seq<Match>, now: Time, id: FindingId)
    ensures id in Ids(HitsOf(rule, ms, now)) <==> MatchedBy(rule, ms, id)
  {
    var rs := HitsOf(rule, ms, now);
    if MatchedBy(rule, ms, id) {
      var j :| 0 <= j < |ms| && id == FindingId(rule, ms[j].parts);
      assert rs[j] in rs && rs[j].id == id;
    }
    if id in Ids(rs) {
      var j :| 0 <= j < |rs| && rs[j].id == id;
    }
  }

  lemma MatchedLast(rules: seq<Rule>, id: FindingId)
    requires rules != [] && rules[|rules| - 1].matches.Some?
    ensures var last := rules[|rules| - 1];
      Matched(rules, id) <==> Matched(rules[..|rules| - 1], id) || MatchedBy(last.id, last.matches.value, id)
  {
    var k := |rules| - 1;
    var before, last := rules[..k], rules[k];
    if Matched(before, id) {
      var i, j :| Yields(before, i, j, id);
      assert Yields(rules, i, j, id);
    }
    if MatchedBy(last.id, last.matches.value, id) {
      var j :| 0 <= j < |last.matches.value| && id == FindingId(last.id, last.matches.value[j].parts);
      assert Yields(rules, k, j, id);
    }
    if Matched(rules, id) {
      var i, j :| Yields(rules, i, j, id);
      assert i < k ==> Yields(before, i, j, id);
    }
  }

  lemma NoneThrew(rules: seq<Rule>)
    requires rules != [] && !Throws(rules)
    ensures !Throws(rules[..|rules| - 1]) && rules[|rules| - 1].matches.Some?
  {
    var k := |rules| - 1;
    assert rules[..k + 1] == rules;
    Prefix(rules, k);
  }

  /** The detected ids are those of all matches of all rules. */
  lemma {:induction false} HitsAreMatches(rules: seq<Rule>, now: Time, id: FindingId)
    requires !Throws(rules)
    ensures id in Ids(Hits(rules, now)) <==> Matched(rules, id)
  {
    if rules != [] {
      var k := |rules| - 1;
      NoneThrew(rules);
      HitsAreMatches(rules[..k], now, id);
      MatchedLast(rules, id);
      IdsOfRule(rules[k].id, rules[k].matches.value, now, id);
      IdsConcat(Hits(rules[..k], now), HitsOf(rules[k].id, rules[k].matches.value, now));
    }
  }

  lemma {:induction false} UpsertAllConcat(m: Contents, a: seq<Record>, b: seq<Record>)
    ensures UpsertAll(m, a + b) == UpsertAll(UpsertAll(m, a), b)
  {
    if b == [] {
      assert a + b == a;
    } else {
      var k := |b| - 1;
      UpsertAllConcat(m, a, b[..k]);
      assert (a + b)[..|a + b| - 1] == a + b[..k];
    }
  }

  /** After a list of upserts the last one for an id has supplied the details. */
  lemma {:induction false} LastUpsertCounts(m: Contents, rs: seq<Record>, j: nat)
    requires j < |rs| && forall y :: j < y < |rs| ==> rs[y].id != rs[j].id
    ensures rs[j].id in UpsertAll(m, rs)
    ensures UpsertAll(m, rs)[rs[j].id].detail == rs[j].detail && UpsertAll(m, rs)[rs[j].id].resolution == rs[j].resolution
  {
    var k := |rs| - 1;
    if j < k {
      LastUpsertCounts(m, rs[..k], j);
    }
  }

  /** No upsert of this id changes nothing about it. */
  lemma {:induction false} OtherUpserts(m: Contents, rs: seq<Record>, id: FindingId)
    requires forall r :: r in rs ==> r.id != id
    ensures (id in UpsertAll(m, rs) <==> id in m) && (id in m ==> UpsertAll(m, rs)[id] == m[id])
  {
    if rs != [] {
      OtherUpserts(m, rs[..|rs| - 1], id);
    }
  }

  lemma {:induction false} LastMatchCounts(m: Contents, rules: seq<Rule>, now: Time, i: nat, j: nat, id: FindingId)
    requires !Throws(rules) && LastYield(rules, i, j, id)
    ensures id in UpsertAll(m, Hits(rules, now))
    ensures UpsertAll(m, Hits(rules, now))[id].detail == rules[i].matches.value[j].detail
    ensures UpsertAll(m, Hits(rules, now))[id].resolution == None
  {
    var k := |rules| - 1;
    NoneThrew(rules);
    var ms := rules[k].matches.value;
    var rs := HitsOf(rules[k].id, ms, now);
    UpsertAllConcat(m, Hits(rules[..k], now), rs);
    if i == k {
      forall y | j < y < |rs| ensures rs[y].id != rs[j].id {
        assert rs[y].id == id ==> Yields(rules, k, y, id);
      }
      LastUpsertCounts(UpsertAll(m, Hits(rules[..k], now)), rs, j);
    } else {
      LastYieldEarlier(rules, i, j, id);
      LastMatchCounts(m, rules[..k], now, i, j, id);
      forall r | r in rs ensures r.id != id {
        var y :| 0 <= y < |rs| && rs[y] == r;
        assert r.id == id ==> Yields(rules, k, y, id);
      }
      OtherUpserts(UpsertAll(m, Hits(rules[..k], now)), rs, id);
    }
  }

  lemma LastYieldEarlier(rules: seq<Rule>, i: nat, j: nat, id: FindingId)
    requires rules != [] && LastYield(rules, i, j, id) && i < |rules| - 1
    ensures LastYield(rules[..|rules| - 1], i, j, id)
  {
    var before := rules[..|rules| - 1];
    forall x, y | Yields(before, x, y, id) ensures x < i || (x == i && y <= j) {
      assert Yields(rules, x, y, id);
    }
  }

  /** Some match is the last under its id. */
  lemma {:induction false} SomeLastYield(rules: seq<Rule>, id: FindingId) returns (i: nat, j: nat)
    requires Matched(rules, id)
    ensures LastYield(rules, i, j, id)
  {
    var k := |rules| - 1;
    if y :| Yields(rules, k, y, id) {
      i := k;
      j := LastIn(rules, k, y, id);
    } else {
      var x, y :| Yields(rules, x, y, id);
      assert Yields(rules[..k], x, y, id);
      i, j := SomeLastYield(rules[..k], id);
      forall x, y | Yields(rules, x, y, id) ensures x < i || (x == i && y <= j) {
        assert x != k;
        assert Yields(rules[..k], x, y, id);
      }
      assert Yields(rules, i, j, id);
    }
  }

  lemma {:induction false} LastIn(rules: seq<Rule>, i: nat, j: nat, id: FindingId) returns (l: nat)
    requires Yields(rules, i, j, id)
    ensures Yields(rules, i, l, id) && forall y :: Yields(rules, i, y, id) ==> y <= l
    decreases |rules[i].matches.value| - j
  {
    if y :| y > j && Yields(rules, i, y, id) {
      l := LastIn(rules, i, y, id);
    } else {
      l := j;
    }
  }

  /** A scan says of every finding what the matches say: each match of each rule is
      stored, and nothing else counts as detected. */
  lemma ScanFollowsMatches(m: Contents, rules: seq<Rule>, now: Time, id: FindingId)
    requires Keyed(m) && !Throws(rules)
    ensures ScannedAs(m, Scanned(m, rules, now), rules, now, id)
  {
    ScanMeaning(m, rules, now, id);
    HitsAreMatches(rules, now, id);
    if Matched(rules, id) {
      var i, j := SomeLastYield(rules, id);
      LastMatchCounts(m, rules, now, i, j, id);
      forall x, y | LastYield(rules, x, y, id) ensures x == i && y == j {
        assert Yields(rules, x, y, id);
      }
    } else {
      assert id.rule in RuleIds(rules) <==> exists i :: 0 <= i < |rules| && rules[i].id == id.rule;
    }
  }

  /** The findings that were not resolved and are now. */
  function TurnedResolved(m: Contents, m': Contents): set<FindingId>
  {
    set id | id in m && m[id].status != Resolved && id in m' && m'[id].status == Resolved
  }

  lemma CompletedScan(m: Contents, rules: seq<Rule>, now: Time)
    requires Keyed(m) && !Throws(rules)
    ensures forall id :: ScannedAs(m, Scanned(m, rules, now), rules, now, id)
    ensures Ids(Hits(rules, now)) == MatchedIds(rules)
    ensures VanishedIds(UpsertAll(m, Hits(rules, now)), RuleIds(rules), Ids(Hits(rules, now))) == TurnedResolved(m, Scanned(m, rules, now))
  {
    forall id ensures ScannedAs(m, Scanned(m, rules, now), rules, now, id) {
      ScanFollowsMatches(m, rules, now, id);
    }
    forall id ensures id in Ids(Hits(rules, now)) <==> id in MatchedIds(rules) {
      HitsAreMatches(rules, now, id);
      MatchedIdsMember(rules, id);
    }
    ResolvedCountIsExact(m, rules, now);
  }

  /** A scan that throws in rule `t` has stored the matches of the rules before it
      and changed nothing else. */
  lemma FailedScanFollowsMatches(m: Contents, rules: seq<Rule>, now: Time, t: nat, id: FindingId)
    requires Keyed(m) && t < |rules| && rules[t].matches.None? && !Throws(rules[..t])
    ensures var m' := Scanned(m, rules, now);
      && (id in m' <==> id in m || Matched(rules[..t], id))
      && (Matched(rules[..t], id) ==> Redetected(m, m', rules[..t], now, id))
      && (id in m && !Matched(rules[..t], id) ==> m'[id] == m[id])
  {
    var first := rules[..t];
    ThrowsAt(rules, t, now);
    HitsAreOpen(first, now);
    UpsertedRow(m, Hits(first, now), now, id);
    HitsAreMatches(first, now, id);
    if Matched(first, id) {
      var i, j := SomeLastYield(first, id);
      LastMatchCounts(m, first, now, i, j, id);
      forall x, y | LastYield(first, x, y, id) ensures x == i && y == j {
        assert Yields(first, x, y, id);
      }
    }
  }

  // --------------------------------------------------------------- histories

  datatype Action = ScanRun(rules: seq<Rule>, now: Time) | StatusSet(id: FindingId, status: Status)

  function Apply(m: Contents, a: Action): Contents
  {
    match a
    case ScanRun(rules, now) => Scanned(m, rules, now)
    case StatusSet(id, status) => if id in m then m[id := m[id].(status := status)] else m
  }

  function History(m: Contents, actions: seq<Action>): Contents
  {
    if actions == [] then m else Apply(History(m, actions[..|actions| - 1]), actions[|actions| - 1])
  }

  lemma ActionKeeps(m: Contents, a: Action, id: FindingId)
    requires Keyed(m)
    ensures Keyed(Apply(m, a))
    ensures id in m ==> id in Apply(m, a) && Apply(m, a)[id].firstDetected == m[id].firstDetected
  {
    if a.ScanRun? {
      HitsAreOpen(a.rules, a.now);
      UpsertedRow(m, Hits(a.rules, a.now), a.now, id);
    }
  }

  /** Over any history of scans, also failing ones, and of status changes, no
      finding is lost and none changes when it was first detected. */
  lemma {:induction false} FindingsAreNeverLost(m: Contents, actions: seq<Action>, id: FindingId)
    requires Keyed(m)
    ensures Keyed(History(m, actions))
    ensures id in m ==> id in History(m, actions) && History(m, actions)[id].firstDetected == m[id].firstDetected
  {
    if actions != [] {
      var k := |actions| - 1;
      FindingsAreNeverLost(m, actions[..k], id);
      ActionKeeps(History(m, actions[..k]), actions[k], id);
    }
  }

  /** Why setting a status needs the stored object itself: upserting a changed copy
      of a stored finding takes effect only if the status is RESOLVED, is the old
      one, or is OPEN after RESOLVED. */
  lemma CopyWouldNotDo(m: Contents, id: FindingId, status: Status)
    requires Keyed(m) && id in m
    ensures Upserted(m, m[id].(status := status)) == m[id := m[id].(status := status)] <==>
      status.Resolved? || (if m[id].status.Resolved? then status.Open? else status == m[id].status)
  {
    var next := m[id].(status := status);
    assert Upserted(m, next)[id].status == StatusAfter(Some(m[id].status), status);
    assert m[id := next][id].status == status;
  }
}
