/** Enterprise identities: merging a node into an identity, and the preview of
    such a merge. */
module IdentityResolution {
  import opened Wrappers
  import opened Sequences
  import opened IdentityFields

  const CONFIDENCE_THRESHOLD := 70

  datatype Level = Exact | VeryHigh | High | Medium | Low | NoConfidence

  function ToLevel(score: nat): Level
  {
    if score >= 100 then Exact else if score >= 90 then VeryHigh else if score >= 80 then High
    else if score >= 70 then Medium else if score >= 50 then Low else NoConfidence
  }

  datatype Account = Account(system: System, accountName: string, domain: string, disabled: bool)

  datatype TimelineEvent = SourceAdded(at: int, system: System) | OtherEvent(at: int)

  datatype Statistics = Statistics(
    totalSources: nat, matchedFields: nat, totalConflicts: nat, criticalConflicts: nat, resolvedConflicts: nat,
    confidenceScore: nat, mergeHistory: seq<TimelineEvent>)

  /** The contents of an enterprise identity that a merge reads or writes. */
  datatype Identity = Identity(
    sources: seq<Source>, confidence: nat, level: Level, matched: seq<FieldMatch>, conflicts: seq<Conflict>,
    merged: Properties, accounts: seq<Account>, groups: seq<string>, roles: seq<string>,
    timeline: seq<TimelineEvent>, statistics: Statistics, updatedAt: int)

  /** A graph node with the source system it comes from. */
  datatype Node = Node(id: string, displayName: string, system: System, properties: Properties)

  // ------------------------------------------------------------------ scoring

  datatype Score = Score(score: nat, method': string, matchedField: string, matchedValue: string)

  /** The first identity field on which node and identity agree. */
  function ScoreOf(fields: seq<FieldDef>, props: Properties, merged: Properties): Option<Score>
  {
    if fields == [] then None else
      var f := fields[0];
      var x, y := Property(props, f.aliases), Property(merged, f.aliases);
      if x.Some? && y.Some? && Matches(f.field, x.value, y.value) then Some(Score(f.score, f.method', f.field, x.value))
      else ScoreOf(fields[1..], props, merged)
  }

  method ScoreNode(fields: seq<FieldDef>, props: Properties, merged: Properties) returns (score: Option<Score>)
    ensures score == ScoreOf(fields, props, merged)
  {
    for i := 0 to |fields|
      invariant ScoreOf(fields, props, merged) == ScoreOf(fields[i..], props, merged)
    {
      var f := fields[i];
      var nodeValue := Property(props, f.aliases);
      if nodeValue.None? {
        continue;
      }
      var existingValue := Property(merged, f.aliases);
      if existingValue.None? {
        continue;
      }
      if Matches(f.field, nodeValue.value, existingValue.value) {
        return Some(Score(f.score, f.method', f.field, nodeValue.value));
      }
    }
    return None;
  }

  predicate Known(f: FieldDef, name: string) { f.field == name || name in f.aliases }

  function FieldScore(fields: seq<FieldDef>, name: string): nat
  {
    if fields == [] then 0 else if Known(fields[0], name) then fields[0].score else FieldScore(fields[1..], name)
  }

  /** The best score among the given field names; unknown names score nothing. */
  function ConfidenceOf(fields: seq<FieldDef>, names: seq<string>): nat
  {
    if names == [] then 0 else
      var before, last := ConfidenceOf(fields, names[..|names| - 1]), FieldScore(fields, names[|names| - 1]);
      if before >= last then before else last
  }

  function BuildSource(fields: seq<FieldDef>, node: Node, matched: seq<string>, now: int): Source
  {
    Source(node.system, node.id, node.displayName, if |matched| > 0 then ConfidenceOf(fields, matched) else 70, matched, now, node.properties)
  }

  // ----------------------------------------------- accounts, groups and roles

  /** The first value that counts as true, else the last one. */
  function Either(props: Properties, keys: seq<string>): Value
  {
    if keys == [] then Undefined else if |keys| == 1 || Truthy(Lookup(props, keys[0])) then Lookup(props, keys[0]) else Either(props, keys[1..])
  }

  function TextOr(props: Properties, keys: seq<string>): string
  {
    if Truthy(Either(props, keys)) then Show(Either(props, keys)) else ""
  }

  predicate Separator(c: char) { c == ',' || c == ';' || c == '|' }

  function Pieces(s: string): (ps: seq<string>)
    ensures ps != []
  {
    if s == "" then [""]
    else if Separator(s[0]) then [""] + Pieces(s[1..])
    else
      var rest := Pieces(s[1..]);
      [[s[0]] + rest[0]] + rest[1..]
  }

  function Trimmed(ps: seq<string>): seq<string>
  {
    if ps == [] then [] else Trimmed(ps[..|ps| - 1]) + (if Trim(ps[|ps| - 1]) != "" then [Trim(ps[|ps| - 1])] else [])
  }

  /** The names a property lists, as a list or as separated text. */
  function NamesIn(v: Value): seq<string>
  {
    match v
    case List(items) => items
    case Text(s) => if Trim(s) != "" then Trimmed(Pieces(s)) else []
    case _ => []
  }

  function AddNames(list: seq<string>, names: seq<string>): seq<string>
  {
    if names == [] then list else
      var before, n := AddNames(list, names[..|names| - 1]), names[|names| - 1];
      if n in before then before else before + [n]
  }

  /** The property names the service looks under. */
  datatype Tables = Tables(
    fields: seq<FieldDef>, accountKeys: seq<string>, domainKeys: seq<string>, disabledKeys: seq<string>,
    groupKeys: seq<string>, roleKeys: seq<string>)

  function StandardTables(): Tables
  {
    Tables(IdentityTable(),
           ["samAccountName", "username", "uid", "email", "displayName"], ["domain", "dn"],
           ["disabled", "locked", "accountDisabled"],
           ["memberOf", "groups", "groupMembership"], ["roles", "role", "roleMembership"])
  }

  predicate HasAccount(accounts: seq<Account>, system: System, name: string)
  {
    exists i :: 0 <= i < |accounts| && accounts[i].system == system && accounts[i].accountName == name
  }

  function AddAccount(t: Tables, accounts: seq<Account>, system: System, props: Properties): seq<Account>
  {
    var name := TextOr(props, t.accountKeys);
    if name != "" && !HasAccount(accounts, system, name) then
      accounts + [Account(system, name, TextOr(props, t.domainKeys), Truthy(Either(props, t.disabledKeys)))]
    else accounts
  }

  // --------------------------------------------------- the effect of a merge

  function StatisticsOf(r: Identity): Statistics
  {
    Statistics(|r.sources|, |r.matched|, |r.conflicts|, |Filter(r.conflicts, (c: Conflict) => c.severity.Critical?)|, 0, r.confidence,
               Filter(r.timeline, (e: TimelineEvent) => e.SourceAdded?))
  }

  predicate HasSource(sources: seq<Source>, nodeId: string)
  {
    exists i :: 0 <= i < |sources| && sources[i].nodeId == nodeId
  }

  function Max(a: nat, b: nat): nat { if a >= b then a else b }

  /** The identity with the node as one more source. */
  function Joined(fields: seq<FieldDef>, r: Identity, node: Node, s: Score, now: int): Identity
  {
    var confidence := Max(r.confidence, s.score);
    r.(sources := r.sources + [BuildSource(fields, node, [s.method'], now)], confidence := confidence, level := ToLevel(confidence))
  }

  function Recomputed(fields: seq<FieldDef>, r: Identity): Identity
  {
    r.(matched := MatchedFields(fields, r.sources), conflicts := Conflicts(fields, r.sources), merged := MergedFields(r.sources))
  }

  function Enriched(t: Tables, r: Identity, system: System, props: Properties): Identity
  {
    r.(accounts := AddAccount(t, r.accounts, system, props),
       groups := AddNames(r.groups, NamesIn(Either(props, t.groupKeys))),
       roles := AddNames(r.roles, NamesIn(Either(props, t.roleKeys))))
  }

  predicate Acceptable(t: Tables, r: Identity, node: Node)
  {
    var s := ScoreOf(t.fields, node.properties, r.merged);
    s.Some? && s.value.score >= CONFIDENCE_THRESHOLD
  }

  /** The identity after the node, which scores `s`, has been merged at `now`. */
  function Absorbed(t: Tables, r: Identity, node: Node, s: Score, now: int): Identity
  {
    Enriched(t, Logged(Recomputed(t.fields, WithSource(t.fields, r, node, s, now)), node.system, now), node.system, node.properties)
  }

  function WithSource(fields: seq<FieldDef>, r: Identity, node: Node, s: Score, now: int): Identity
  {
    if HasSource(r.sources, node.id) then r else Joined(fields, r, node, s, now)
  }

  function Logged(r: Identity, system: System, now: int): Identity
  {
    var logged := r.(timeline := r.timeline + [SourceAdded(now, system)]);
    logged.(statistics := StatisticsOf(logged), updatedAt := now)
  }

  function Merged(t: Tables, r: Identity, node: Node, now: int): Identity
  {
    if Acceptable(t, r, node) then Absorbed(t, r, node, ScoreOf(t.fields, node.properties, r.merged).value, now) else r
  }

  predicate Adds(t: Tables, r: Identity, node: Node)
  {
    !HasSource(r.sources, node.id) && Acceptable(t, r, node)
  }

  function WorkedOut(t: Tables, r: Identity, node: Node, s: Score, now: int): Identity
  {
    var enriched := Enriched(t, Recomputed(t.fields, Joined(t.fields, r, node, s, now)), node.system, node.properties);
    enriched.(statistics := StatisticsOf(enriched))
  }

  /** What the preview of a merge proposes. */
  function Proposed(t: Tables, r: Identity, node: Node, now: int): Identity
  {
    if Adds(t, r, node) then WorkedOut(t, r, node, ScoreOf(t.fields, node.properties, r.merged).value, now) else r
  }

  // ------------------------------------------------------ the first source

  /** The identity fields of a node's properties. */
  function Extracted(fields: seq<FieldDef>, props: Properties): Properties
  {
    if fields == [] then map[] else
      var k := |fields| - 1;
      var v := Property(props, fields[k].aliases);
      if v.Some? then Extracted(fields[..k], props)[fields[k].field := Text(v.value)] else Extracted(fields[..k], props)
  }

  method ExtractIdentityFields(fields: seq<FieldDef>, props: Properties) returns (extracted: Properties)
    ensures extracted == Extracted(fields, props)
  {
    extracted := map[];
    for i := 0 to |fields|
      invariant extracted == Extracted(fields[..i], props)
    {
      assert fields[..i + 1][..i] == fields[..i];
      var v := Property(props, fields[i].aliases);
      if v.Some? {
        extracted := extracted[fields[i].field := Text(v.value)];
      }
    }
    assert fields[..|fields|] == fields;
  }

  function FirstAccounts(node: Node): seq<Account>
  {
    if node.system.ActiveDirectory? || node.system.FreeIpa? || node.system.Linux? then
      [Account(node.system, node.displayName, "", Truthy(Lookup(node.properties, "disabled")) || Truthy(Lookup(node.properties, "locked")))]
    else []
  }

  /** The identity created for a node that matches no other. */
  function Created(t: Tables, node: Node, now: int): Identity
  {
    var source := BuildSource(t.fields, node, [], now);
    Identity([source], source.confidence, ToLevel(source.confidence), [], [], Extracted(t.fields, node.properties),
             FirstAccounts(node),
             AddNames([], NamesIn(Either(node.properties, t.groupKeys))), AddNames([], NamesIn(Either(node.properties, t.roleKeys))),
             [SourceAdded(now, node.system)],
             Statistics(1, 0, 0, 0, 0, source.confidence, [SourceAdded(now, node.system)]), now)
  }

  /** The proposal of the preview, which refuses nodes without an id. */
  function Offered(t: Tables, r: Identity, node: Node, now: int): Option<Identity>
  {
    if node.id == "" then None else Some(Proposed(t, r, node, now))
  }

  // ------------------------------------------------------------- the service

  class EnterpriseIdentity {
    const id: string
    var sources: seq<Source>
    var confidence: nat
    var level: Level
    var matched: seq<FieldMatch>
    var conflicts: seq<Conflict>
    var merged: Properties
    var accounts: seq<Account>
    var groups: seq<string>
    var roles: seq<string>
    var timeline: seq<TimelineEvent>
    var statistics: Statistics
    var updatedAt: int

    constructor Clone(id: string, r: Identity)
      ensures this.id == id && View() == r
    {
      this.id := id;
      sources, confidence, level, matched, conflicts, merged := r.sources, r.confidence, r.level, r.matched, r.conflicts, r.merged;
      accounts, groups, roles, timeline, statistics, updatedAt := r.accounts, r.groups, r.roles, r.timeline, r.statistics, r.updatedAt;
    }

    function View(): Identity
      reads this
    {
      Identity(sources, confidence, level, matched, conflicts, merged, accounts, groups, roles, timeline, statistics, updatedAt)
    }
  }

  datatype Preview = Refused | Previewed(current: EnterpriseIdentity, proposed: EnterpriseIdentity, newSources: seq<System>,
                                         changedFields: seq<FieldMatch>, newConflicts: seq<Conflict>)

  class Resolution {
    const tables: Tables
    var identities: map<string, EnterpriseIdentity>

    constructor ()
      ensures tables == StandardTables() && identities == map[]
    {
      tables := StandardTables();
      identities := map[];
    }

    method AppendNames(list: seq<string>, v: Value) returns (names: seq<string>)
      ensures names == AddNames(list, NamesIn(v))
    {
      names := list;
      var parts := NamesIn(v);
      for i := 0 to |parts|
        invariant names == AddNames(list, parts[..i])
      {
        assert parts[..i + 1][..i] == parts[..i];
        if parts[i] !in names {
          names := names + [parts[i]];
        }
      }
      assert parts[..|parts|] == parts;
    }

    /** Adds the accounts, groups and roles that the node's properties name. */
    method Enrich(identity: EnterpriseIdentity, system: System, props: Properties)
      modifies identity
      ensures identity.View() == Enriched(tables, old(identity.View()), system, props)
    {
      var accountName := TextOr(props, tables.accountKeys);
      if accountName != "" && !HasAccount(identity.accounts, system, accountName) {
        identity.accounts := identity.accounts + [Account(system, accountName, TextOr(props, tables.domainKeys), Truthy(Either(props, tables.disabledKeys)))];
      }
      identity.groups := AppendNames(identity.groups, Either(props, tables.groupKeys));
      identity.roles := AppendNames(identity.roles, Either(props, tables.roleKeys));
    }

    method Recompute(identity: EnterpriseIdentity)
      modifies identity
      ensures identity.View() == Recomputed(tables.fields, old(identity.View()))
    {
      identity.matched := ComputeMatchedFields(tables.fields, identity.sources);
      identity.conflicts := ComputeConflicts(tables.fields, identity.sources);
      identity.merged := MergeFields(identity.sources);
    }

    method AddSource(identity: EnterpriseIdentity, node: Node, s: Score, now: int)
      modifies identity
      ensures identity.View() == Joined(tables.fields, old(identity.View()), node, s, now)
    {
      identity.sources := identity.sources + [BuildSource(tables.fields, node, [s.method'], now)];
      identity.confidence := Max(identity.confidence, s.score);
      identity.level := ToLevel(identity.confidence);
    }

    method AddMatch(identity: EnterpriseIdentity, s: Score)
      modifies identity`matched
      ensures forall fields :: Recomputed(fields, identity.View()) == Recomputed(fields, old(identity.View()))
    {
      var valueA := Property(identity.merged, [s.matchedField]);
      identity.matched := identity.matched +
        [FieldMatch(s.matchedField, if valueA.Some? then valueA.value else "", s.matchedValue, true)];
    }

    /** Takes the node in as a source, unless it is one, and recomputes. */
    method Join(identity: EnterpriseIdentity, node: Node, s: Score, now: int)
      modifies identity
      ensures identity.View() == Recomputed(tables.fields, WithSource(tables.fields, old(identity.View()), node, s, now))
    {
      if !HasSource(identity.sources, node.id) {
        AddSource(identity, node, s, now);
        AddMatch(identity, s);
      }
      Recompute(identity);
    }

    method Log(identity: EnterpriseIdentity, system: System, now: int)
      modifies identity
      ensures identity.View() == Logged(old(identity.View()), system, now)
    {
      identity.timeline := identity.timeline + [SourceAdded(now, system)];
      identity.statistics := StatisticsOf(identity.View());
      identity.updatedAt := now;
    }

    method Absorb(identity: EnterpriseIdentity, node: Node, s: Score, now: int)
      modifies identity
      ensures identity.View() == Absorbed(tables, old(identity.View()), node, s, now)
    {
      Join(identity, node, s, now);
      Log(identity, node.system, now);
      Enrich(identity, node.system, node.properties);
    }

    /** Creates an identity whose only source is the node. */
    method Create(id: string, node: Node, now: int) returns (identity: EnterpriseIdentity)
      modifies this`identities
      ensures fresh(identity) && identity.id == id && identity.View() == Created(tables, node, now)
      ensures identities == old(identities)[id := identity]
    {
      var source := BuildSource(tables.fields, node, [], now);
      var extracted := ExtractIdentityFields(tables.fields, node.properties);
      var groups := AppendNames([], Either(node.properties, tables.groupKeys));
      var roles := AppendNames([], Either(node.properties, tables.roleKeys));
      identity := new EnterpriseIdentity.Clone(id,
        Identity([source], source.confidence, ToLevel(source.confidence), [], [], extracted, FirstAccounts(node), groups, roles,
                 [SourceAdded(now, node.system)],
                 Statistics(1, 0, 0, 0, 0, source.confidence, [SourceAdded(now, node.system)]), now));
      identities := identities[id := identity];
    }

    /** Merges the node into an existing identity, in place. */
    method Merge(node: Node, identity: EnterpriseIdentity, now: int)
      modifies identity, this`identities
      ensures identity.View() == Merged(tables, old(identity.View()), node, now)
      ensures identities ==
        if Acceptable(tables, old(identity.View()), node) then old(identities)[identity.id := identity] else old(identities)
    {
      var score := ScoreNode(tables.fields, node.properties, identity.merged);
      if score.None? || score.value.score < CONFIDENCE_THRESHOLD {
        return;
      }
      Absorb(identity, node, score.value, now);
      identities := identities[identity.id := identity];
    }

    method WorkOut(proposed: EnterpriseIdentity, node: Node, s: Score, now: int)
      modifies proposed
      ensures proposed.View() == WorkedOut(tables, old(proposed.View()), node, s, now)
    {
      AddSource(proposed, node, s, now);
      Recompute(proposed);
      Enrich(proposed, node.system, node.properties);
      proposed.statistics := StatisticsOf(proposed.View());
    }

    /** Works the merge out on copies and leaves the identity alone. */
    method PreviewMerge(node: Node, identity: EnterpriseIdentity, now: int) returns (preview: Preview)
      ensures preview.Refused? <==> node.id == ""
      ensures Offered(tables, identity.View(), node, now) == if preview.Refused? then None else Some(preview.proposed.View())
      ensures preview.Previewed? ==> IsPreview(tables, identity.View(), node, now, preview)
      ensures preview.Previewed? ==> fresh(preview.current) && fresh(preview.proposed)
    {
      var current := new EnterpriseIdentity.Clone(identity.id, identity.View());
      var proposed := new EnterpriseIdentity.Clone(identity.id, identity.View());
      var score := ScoreNode(tables.fields, node.properties, identity.merged);
      if node.id == "" {
        return Refused;
      }
      if HasSource(proposed.sources, node.id) {
        return Previewed(current, proposed, [], [], []);
      }
      if score.None? || score.value.score < CONFIDENCE_THRESHOLD {
        return Previewed(current, proposed, [], [], []);
      }
      WorkOut(proposed, node, score.value, now);
      var changedFields := Fewer(proposed.matched, current.matched);
      var newConflicts := FewerConflicts(proposed.conflicts, current.conflicts);
      return Previewed(current, proposed, [node.system], changedFields, newConflicts);
    }
  }

  function Fewer(ms: seq<FieldMatch>, known: seq<FieldMatch>): seq<FieldMatch>
  {
    Filter(ms, (m: FieldMatch) => m !in known)
  }

  function FewerConflicts(cs: seq<Conflict>, known: seq<Conflict>): seq<Conflict>
  {
    Filter(cs, (c: Conflict) => !SameConflict(known, c))
  }

  /** The preview shows the identity as it is and as the merge would leave it, and
      as news the compared fields and conflicts that it does not record yet. */
  ghost predicate IsPreview(t: Tables, r: Identity, node: Node, now: int, p: Preview)
    requires p.Previewed?
    reads p.current, p.proposed
  {
    && p.current.View() == r
    && p.proposed.View() == Proposed(t, r, node, now)
    && (if Adds(t, r, node) then
          && p.newSources == [node.system]
          && p.changedFields == Fewer(Proposed(t, r, node, now).matched, r.matched)
          && p.newConflicts == FewerConflicts(Proposed(t, r, node, now).conflicts, r.conflicts)
        else p.newSources == [] && p.changedFields == [] && p.newConflicts == [])
  }

  /** A conflict on the same field, systems and values is recorded already. */
  predicate SameConflict(conflicts: seq<Conflict>, c: Conflict)
  {
    exists i :: 0 <= i < |conflicts| && conflicts[i].field == c.field && conflicts[i].sourceA == c.sourceA
      && conflicts[i].sourceB == c.sourceB && conflicts[i].valueA == c.valueA && conflicts[i].valueB == c.valueB
  }
}
