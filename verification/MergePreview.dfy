/** The preview of a merge against the merge itself. */
module MergePreview {
  import opened Wrappers
  import opened Sequences
  import opened IdentityFields
  import opened IdentityResolution

  function Unstamp(s: Source): Source { s.(lastSeen := 0) }

  function Unstamped(ss: seq<Source>): (r: seq<Source>)
    ensures |r| == |ss| && forall i :: 0 <= i < |ss| ==> r[i] == Unstamp(ss[i])
  {
    seq(|ss|, i requires 0 <= i < |ss| => Unstamp(ss[i]))
  }

  /** An identity without its timeline, merge history and time stamps. */
  function Timeless(r: Identity): Identity
  {
    r.(sources := Unstamped(r.sources), timeline := [], statistics := r.statistics.(mergeHistory := []), updatedAt := 0)
  }

  // ------------------------------------- nothing compared depends on the time

  lemma PairsIgnoreTime(fields: seq<FieldDef>, a: Source, b: Source)
    ensures PairMatches(fields, a, b) == PairMatches(fields, Unstamp(a), Unstamp(b))
    ensures PairConflicts(fields, a, b) == PairConflicts(fields, Unstamp(a), Unstamp(b))
  {
    ConcatSame(MatchesAt(fields, a, b), MatchesAt(fields, Unstamp(a), Unstamp(b)), |fields|);
    ConcatSame(ConflictsAt(fields, a, b), ConflictsAt(fields, Unstamp(a), Unstamp(b)), |fields|);
  }

  lemma MatchesIgnoreTime(fields: seq<FieldDef>, ss: seq<Source>)
    ensures Concat(AllMatches(fields, ss), |ss|) == Concat(AllMatches(fields, Unstamped(ss)), |ss|)
  {
    var f, g := AllMatches(fields, ss), AllMatches(fields, Unstamped(ss));
    forall i: nat | i < |ss| ensures f(i) == g(i) {
      var p, q := RowMatches(fields, ss, i), RowMatches(fields, Unstamped(ss), i);
      forall j: nat | j < |ss| ensures p(j) == q(j) {
        if i < j { PairsIgnoreTime(fields, ss[i], ss[j]); }
      }
      ConcatSame(p, q, |ss|);
    }
    ConcatSame(f, g, |ss|);
  }

  lemma ConflictsIgnoreTime(fields: seq<FieldDef>, ss: seq<Source>)
    ensures Concat(AllConflicts(fields, ss), |ss|) == Concat(AllConflicts(fields, Unstamped(ss)), |ss|)
  {
    var f, g := AllConflicts(fields, ss), AllConflicts(fields, Unstamped(ss));
    forall i: nat | i < |ss| ensures f(i) == g(i) {
      var p, q := RowConflicts(fields, ss, i), RowConflicts(fields, Unstamped(ss), i);
      forall j: nat | j < |ss| ensures p(j) == q(j) {
        if i < j { PairsIgnoreTime(fields, ss[i], ss[j]); }
      }
      ConcatSame(p, q, |ss|);
    }
    ConcatSame(f, g, |ss|);
  }

  lemma {:induction false} OverlayIgnoresTime(ss: seq<Source>)
    ensures OverlayAll(ss) == OverlayAll(Unstamped(ss))
  {
    if ss != [] {
      var k := |ss| - 1;
      OverlayIgnoresTime(ss[..k]);
      assert Unstamped(ss)[..k] == Unstamped(ss[..k]);
    }
  }

  lemma {:induction false} InsertIgnoresTime(ss: seq<Source>, x: Source)
    ensures Unstamped(Insert(RankOrder(SystemRank()), ss, x)) == Insert(RankOrder(SystemRank()), Unstamped(ss), Unstamp(x))
  {
    if ss != [] {
      var k := |ss| - 1;
      InsertIgnoresTime(ss[..k], x);
      assert Unstamped(ss)[..k] == Unstamped(ss[..k]);
    }
  }

  lemma {:induction false} SortIgnoresTime(ss: seq<Source>)
    ensures Unstamped(Sort(RankOrder(SystemRank()), ss)) == Sort(RankOrder(SystemRank()), Unstamped(ss))
  {
    if ss != [] {
      var k := |ss| - 1;
      SortIgnoresTime(ss[..k]);
      InsertIgnoresTime(Sort(RankOrder(SystemRank()), ss[..k]), ss[k]);
      assert Unstamped(ss)[..k] == Unstamped(ss[..k]);
    }
  }

  lemma ComputedIgnoresTime(fields: seq<FieldDef>, ss: seq<Source>)
    ensures MatchedFields(fields, ss) == MatchedFields(fields, Unstamped(ss))
    ensures Conflicts(fields, ss) == Conflicts(fields, Unstamped(ss))
    ensures MergedFields(ss) == MergedFields(Unstamped(ss))
  {
    MatchesIgnoreTime(fields, ss);
    ConflictsIgnoreTime(Compared(fields), ss);
    OverlayIgnoresTime(Sort(RankOrder(SystemRank()), ss));
    SortIgnoresTime(ss);
  }

  // ------------------------------------------------------------ the agreement

  lemma JoinedIgnoresTime(fields: seq<FieldDef>, r: Identity, node: Node, s: Score, then': int, now: int)
    ensures var a, b := Joined(fields, r, node, s, then'), Joined(fields, r, node, s, now);
      Unstamped(a.sources) == Unstamped(b.sources) && a.(sources := b.sources) == b
  {
    var a, b := Joined(fields, r, node, s, then'), Joined(fields, r, node, s, now);
    assert a.sources[..|r.sources|] == b.sources[..|r.sources|];
  }

  lemma RecomputedAgree(fields: seq<FieldDef>, a: Identity, b: Identity)
    requires Unstamped(a.sources) == Unstamped(b.sources) && a.(sources := b.sources) == b
    ensures var x, y := Recomputed(fields, a), Recomputed(fields, b);
      x.(sources := y.sources) == y && Unstamped(x.sources) == Unstamped(y.sources)
  {
    ComputedIgnoresTime(fields, a.sources);
    ComputedIgnoresTime(fields, b.sources);
  }

  /** For a node with an id that is not part of the identity yet, the preview
      proposes what the merge then produces, whenever the two are made and whether
      the merge is accepted or refused, but for the timeline, the merge history and
      the time stamps. Without an id there is no preview, although there is a
      merge. */
  lemma PreviewIsMerge(t: Tables, r: Identity, node: Node, previewedAt: int, mergedAt: int)
    requires !HasSource(r.sources, node.id)
    ensures Foretells(t, r, node, previewedAt, mergedAt) <==> node.id != ""
  {
    if Acceptable(t, r, node) {
      var s := ScoreOf(t.fields, node.properties, r.merged).value;
      JoinedIgnoresTime(t.fields, r, node, s, previewedAt, mergedAt);
      RecomputedAgree(t.fields, Joined(t.fields, r, node, s, previewedAt), Joined(t.fields, r, node, s, mergedAt));
    }
  }

  /** There is a preview and the merge produces what it proposes. */
  ghost predicate Foretells(t: Tables, r: Identity, node: Node, previewedAt: int, mergedAt: int)
  {
    var offer := Offered(t, r, node, previewedAt);
    offer.Some? && Timeless(offer.value) == Timeless(Merged(t, r, node, mergedAt))
  }

  // ----------------------------------------------- nodes that are sources already

  /** What a merge recomputes from the sources is up to date. */
  ghost predicate UpToDate(t: Tables, r: Identity)
  {
    && r.matched == MatchedFields(t.fields, r.sources) && r.conflicts == Conflicts(t.fields, r.sources)
    && r.merged == MergedFields(r.sources) && r.statistics == StatisticsOf(r)
  }

  /** Every accepted merge leaves the identity so. */
  lemma MergeLeavesUpToDate(t: Tables, r: Identity, node: Node, now: int)
    requires Acceptable(t, r, node)
    ensures UpToDate(t, Merged(t, r, node, now)) && HasSource(Merged(t, r, node, now).sources, node.id)
  {
    var m := Merged(t, r, node, now);
    if !HasSource(r.sources, node.id) {
      assert m.sources[|r.sources|].nodeId == node.id;
    }
  }

  /** The node names no account, group or role that the identity lacks. */
  predicate NothingNew(t: Tables, r: Identity, system: System, props: Properties)
  {
    && (TextOr(props, t.accountKeys) == "" || HasAccount(r.accounts, system, TextOr(props, t.accountKeys)))
    && (forall g :: g in NamesIn(Either(props, t.groupKeys)) ==> g in r.groups)
    && (forall g :: g in NamesIn(Either(props, t.roleKeys)) ==> g in r.roles)
  }

  lemma {:induction false} AddedNames(list: seq<string>, names: seq<string>)
    ensures forall n :: n in AddNames(list, names) <==> n in list || n in names
    ensures AddNames(list, names) == list <==> forall n :: n in names ==> n in list
  {
    if names != [] {
      var k := |names| - 1;
      AddedNames(list, names[..k]);
      assert names == names[..k] + [names[k]];
      assert names[k] in AddNames(list, names);
    }
  }

  lemma EnrichedSame(t: Tables, r: Identity, system: System, props: Properties)
    ensures Enriched(t, r, system, props) == r <==> NothingNew(t, r, system, props)
  {
    AddedNames(r.groups, NamesIn(Either(props, t.groupKeys)));
    AddedNames(r.roles, NamesIn(Either(props, t.roleKeys)));
    var accounts := AddAccount(t, r.accounts, system, props);
    assert accounts == r.accounts || |accounts| == |r.accounts| + 1;
  }

  /** The same but for the merge history. */
  ghost predicate Current(t: Tables, r: Identity)
  {
    && r.matched == MatchedFields(t.fields, r.sources) && r.conflicts == Conflicts(t.fields, r.sources)
    && r.merged == MergedFields(r.sources)
    && r.statistics.(mergeHistory := []) == StatisticsOf(r).(mergeHistory := [])
  }

  /** The preview announces no change for a node that is a source already. The merge
      agrees if and only if it refuses the node, or the identity is up to date and
      the node names no new account, group or role. */
  lemma PreviewOfKnownNode(t: Tables, r: Identity, node: Node, previewedAt: int, mergedAt: int)
    requires node.id != "" && HasSource(r.sources, node.id)
    ensures Foretells(t, r, node, previewedAt, mergedAt) <==>
      (Acceptable(t, r, node) ==> Current(t, r) && NothingNew(t, r, node.system, node.properties))
  {
    if Acceptable(t, r, node) {
      EnrichedSame(t, r, node.system, node.properties);
      KnownNodeMerged(t, r, node, mergedAt);
    }
  }

  lemma KnownNodeMerged(t: Tables, r: Identity, node: Node, now: int)
    requires HasSource(r.sources, node.id) && Acceptable(t, r, node)
    ensures Timeless(Merged(t, r, node, now)) == Timeless(r)
      <==> Current(t, r) && Enriched(t, r, node.system, node.properties) == r
  {
    var m := Merged(t, r, node, now);
    var l := Logged(Recomputed(t.fields, r), node.system, now);
    assert m == Enriched(t, l, node.system, node.properties);
    assert m.sources == r.sources && m.confidence == r.confidence;
    if r.matched == m.matched && r.conflicts == m.conflicts {
      assert m.statistics.(mergeHistory := []) == StatisticsOf(r).(mergeHistory := []);
    }
  }

  /** So after any accepted merge the preview of a known node is right exactly when
      there is nothing new about it. */
  lemma PreviewAfterMerge(t: Tables, r: Identity, first: Node, node: Node, firstAt: int, previewedAt: int, mergedAt: int)
    requires Acceptable(t, r, first) && node.id != ""
    requires HasSource(Merged(t, r, first, firstAt).sources, node.id) && Acceptable(t, Merged(t, r, first, firstAt), node)
    ensures Foretells(t, Merged(t, r, first, firstAt), node, previewedAt, mergedAt)
       <==> NothingNew(t, Merged(t, r, first, firstAt), node.system, node.properties)
  {
    MergeLeavesUpToDate(t, r, first, firstAt);
    PreviewOfKnownNode(t, Merged(t, r, first, firstAt), node, previewedAt, mergedAt);
  }

  // --------------------------------------------------- identities just created

  /** The filled properties of a node. */
  function FilledOf(props: Properties): Properties
  {
    map k | k in props && Filled(props[k]) :: props[k]
  }

  lemma SoleSource(s: Source)
    ensures MergedFields([s]) == FilledOf(s.properties)
  {
    var lt := RankOrder(SystemRank());
    SortOfSorted(lt, [s]);
    assert [s][..0] == [] && OverlayAll([]) == map[];
  }

  lemma SoleSourceCompared(fields: seq<FieldDef>, s: Source)
    ensures MatchedFields(fields, [s]) == [] && Conflicts(fields, [s]) == []
  {
    ConcatEmpty(RowMatches(fields, [s], 0), 1);
    ConcatEmpty(RowConflicts(Compared(fields), [s], 0), 1);
    ConcatEmpty(AllMatches(fields, [s]), 1);
    ConcatEmpty(AllConflicts(Compared(fields), [s]), 1);
  }

  /** A created identity holds identity fields instead of merged ones, so it is up to
      date exactly when these are the node's filled properties. */
  lemma CreatedIsCurrent(t: Tables, node: Node, now: int)
    ensures Current(t, Created(t, node, now)) <==> Extracted(t.fields, node.properties) == FilledOf(node.properties)
  {
    var r := Created(t, node, now);
    SoleSource(r.sources[0]);
    SoleSourceCompared(t.fields, r.sources[0]);
    assert Filter(r.conflicts, (c: Conflict) => c.severity.Critical?) == [];
  }

  /** When the preview for a node is right just after an identity was created under
      the same id. */
  lemma PreviewAfterCreation(t: Tables, first: Node, node: Node, createdAt: int, previewedAt: int, mergedAt: int)
    requires node.id == first.id != ""
    ensures var r := Created(t, first, createdAt);
      Foretells(t, r, node, previewedAt, mergedAt) <==>
        (Acceptable(t, r, node) ==>
          Extracted(t.fields, first.properties) == FilledOf(first.properties) && NothingNew(t, r, node.system, node.properties))
  {
    var r := Created(t, first, createdAt);
    assert r.sources[0].nodeId == node.id;
    CreatedIsCurrent(t, first, createdAt);
    PreviewOfKnownNode(t, r, node, previewedAt, mergedAt);
  }

  lemma {:induction false} ExtractedKeys(fields: seq<FieldDef>, props: Properties, key: string)
    requires key in Extracted(fields, props)
    ensures Names(fields, key)
  {
    var k := |fields| - 1;
    if key == fields[k].field {
      assert fields[k].field == key;
    } else {
      ExtractedKeys(fields[..k], props, key);
      var i :| 0 <= i < k && fields[..k][i].field == key;
      assert fields[i].field == key;
    }
  }

  lemma {:induction false} ExtractedValue(fields: seq<FieldDef>, props: Properties, i: nat)
    requires DistinctNames(fields) && i < |fields| && Property(props, fields[i].aliases).Some?
    ensures fields[i].field in Extracted(fields, props)
    ensures Extracted(fields, props)[fields[i].field] == Text(Property(props, fields[i].aliases).value)
  {
    var k := |fields| - 1;
    if i < k {
      ExtractedValue(fields[..k], props, i);
      assert fields[i].field != fields[k].field;
    }
  }

  /** A node with an identity field and one more property. */
  function Employee(key: string, other: string): Node
  {
    Node("n", "n", Custom, map[key := Text("e"), other := Text("d")])
  }

  /** A node merged once more into the identity just created for it is accepted, and
      a property that is no identity field is then new to the merged fields, which
      the preview does not say. */
  lemma CreatedIsNotForetold(t: Tables, other: string, createdAt: int, previewedAt: int, mergedAt: int)
    requires LeadingField(t) && !Names(t.fields, other)
    ensures var node := Employee(t.fields[0].field, other);
      var r := Created(t, node, createdAt);
      Acceptable(t, r, node) && !Foretells(t, r, node, previewedAt, mergedAt)
  {
    var f := t.fields[0];
    assert Names(t.fields, f.field);
    var node := Employee(f.field, other);
    OneValue(f, node.properties, f.field);
    ExtractedValue(t.fields, node.properties, 0);
    OneValue(f, Extracted(t.fields, node.properties), f.field);
    if other in Extracted(t.fields, node.properties) {
      ExtractedKeys(t.fields, node.properties, other);
    }
    assert other in FilledOf(node.properties);
    PreviewAfterCreation(t, node, node, createdAt, previewedAt, mergedAt);
  }

  /** It happens with the service's own tables, and to a node with nothing new about
      it. */
  lemma DepartmentIsNotForetold(createdAt: int, previewedAt: int, mergedAt: int)
    ensures exists node :: CreatedMisforetold(StandardTables(), node, createdAt, previewedAt, mergedAt)
  {
    var t, node := StandardTables(), Employee("employeeId", "department");
    TableNamesAreDistinct();
    DepartmentIsNoField();
    CreatedIsNotForetold(t, "department", createdAt, previewedAt, mergedAt);
    DepartmentNamesNothing(node.properties);
    NothingNamed(t, Created(t, node, createdAt), node.system, node.properties);
    assert CreatedMisforetold(t, node, createdAt, previewedAt, mergedAt);
  }

  /** A node with nothing new about it is merged once more into the identity created
      for it, with a wrong preview. */
  ghost predicate CreatedMisforetold(t: Tables, node: Node, createdAt: int, previewedAt: int, mergedAt: int)
  {
    var r := Created(t, node, createdAt);
    && node.id != "" && Acceptable(t, r, node) && NothingNew(t, r, node.system, node.properties)
    && !Foretells(t, r, node, previewedAt, mergedAt)
  }

  lemma NothingNamed(t: Tables, r: Identity, system: System, props: Properties)
    requires Either(props, t.accountKeys) == Either(props, t.groupKeys) == Either(props, t.roleKeys) == Undefined
    ensures NothingNew(t, r, system, props)
  {
  }

  lemma DepartmentIsNoField()
    ensures !Names(IdentityTable(), "department")
  {
    var table := IdentityTable();
    forall i | 0 <= i < |table| ensures table[i].field != "department" {
      assert |table[i].field| != 10 || table[i].field[0] != 'd';
    }
  }

  lemma {:induction false} EitherOfNone(props: Properties, keys: seq<string>)
    requires forall k :: k in keys ==> k !in props
    ensures Either(props, keys) == Undefined
  {
    if |keys| > 1 {
      EitherOfNone(props, keys[1..]);
    }
  }

  lemma DepartmentNamesNothing(props: Properties)
    requires props.Keys == {"employeeId", "department"}
    ensures var t := StandardTables();
      Either(props, t.accountKeys) == Either(props, t.groupKeys) == Either(props, t.roleKeys) == Undefined
  {
    var t := StandardTables();
    forall k | k in t.accountKeys + t.groupKeys + t.roleKeys ensures k !in props {
      assert |k| != 10;
    }
    EitherOfNone(props, t.accountKeys);
    EitherOfNone(props, t.groupKeys);
    EitherOfNone(props, t.roleKeys);
  }

  // -------------------------------------------------- nodes that name a new group

  /** The node with one group named in place of those it named. */
  function Regrouped(node: Node, key: string, group: string): Node
  {
    node.(properties := node.properties[key := List([group])])
  }

  lemma {:induction false} PropertyElsewhere(props: Properties, aliases: seq<string>, key: string, v: Value)
    requires key !in aliases
    ensures Property(props[key := v], aliases) == Property(props, aliases)
  {
    if aliases != [] {
      assert key != aliases[0];
      PropertyElsewhere(props, aliases[1..], key, v);
    }
  }

  lemma {:induction false} ScoreElsewhere(fields: seq<FieldDef>, props: Properties, merged: Properties, key: string, v: Value)
    requires forall f :: f in fields ==> key !in f.aliases
    ensures ScoreOf(fields, props[key := v], merged) == ScoreOf(fields, props, merged)
  {
    if fields != [] {
      PropertyElsewhere(props, fields[0].aliases, key, v);
      ScoreElsewhere(fields[1..], props, merged, key, v);
    }
  }

  /** Any node the identity has taken in makes the preview wrong as soon as it names
      a group that the identity lacks. */
  lemma NewGroupIsNotForetold(t: Tables, r: Identity, node: Node, group: string, previewedAt: int, mergedAt: int)
    requires UpToDate(t, r) && node.id != "" && HasSource(r.sources, node.id) && Acceptable(t, r, node)
    requires t.groupKeys != [] && (forall f :: f in t.fields ==> t.groupKeys[0] !in f.aliases) && group !in r.groups
    ensures Acceptable(t, r, Regrouped(node, t.groupKeys[0], group))
    ensures !Foretells(t, r, Regrouped(node, t.groupKeys[0], group), previewedAt, mergedAt)
  {
    var key := t.groupKeys[0];
    ScoreElsewhere(t.fields, node.properties, r.merged, key, List([group]));
    RegroupedIsNew(t, r, node, group);
    PreviewOfKnownNode(t, r, Regrouped(node, key, group), previewedAt, mergedAt);
  }

  lemma RegroupedIsNew(t: Tables, r: Identity, node: Node, group: string)
    requires t.groupKeys != [] && group !in r.groups
    ensures !NothingNew(t, r, node.system, Regrouped(node, t.groupKeys[0], group).properties)
  {
    var props := Regrouped(node, t.groupKeys[0], group).properties;
    assert Either(props, t.groupKeys) == List([group]);
    assert group in NamesIn(Either(props, t.groupKeys));
  }

  lemma {:induction false} FreshName(list: seq<string>) returns (name: string)
    ensures forall n :: n in list ==> |n| < |name|
  {
    if list == [] {
      name := "";
    } else {
      var k := |list| - 1;
      assert list == list[..k] + [list[k]];
      name := FreshName(list[..k]);
      name := name + list[k] + "+";
    }
  }

  /** A node with one value, under the name of an identity field. */
  function Twin(id: string, key: string): Node
  {
    Node(id, id, ActiveDirectory, map[key := Text("e")])
  }

  lemma OneValue(f: FieldDef, props: Properties, key: string)
    requires f.aliases != [] && f.aliases[0] == key && key in props && props[key] == Text("e")
    ensures Property(props, f.aliases) == Some("e")
  {
    assert Trim("e") == "e";
  }

  lemma AllSayTheSame(sources: seq<Source>, key: string)
    requires sources != [] && forall s :: s in sources ==> key in s.properties && s.properties[key] == Text("e")
    ensures key in MergedFields(sources) && MergedFields(sources)[key] == Text("e")
  {
    var w := SomeSourceWins(sources, key, 0);
    MergedValue(sources, key);
  }

  lemma ScoresOn(t: Tables, props: Properties, merged: Properties)
    requires t.fields != [] && t.fields[0].aliases != [] && t.fields[0].score >= CONFIDENCE_THRESHOLD
    requires Property(props, t.fields[0].aliases) == Property(merged, t.fields[0].aliases) == Some("e")
    ensures ScoreOf(t.fields, props, merged).Some? && ScoreOf(t.fields, props, merged).value.score >= CONFIDENCE_THRESHOLD
  {
  }

  /** The first identity field is looked up under its own name and is reliable. */
  ghost predicate LeadingField(t: Tables)
  {
    && DistinctNames(t.fields) && t.fields != [] && t.fields[0].score >= CONFIDENCE_THRESHOLD
    && t.fields[0].aliases != [] && t.fields[0].aliases[0] == t.fields[0].field
  }

  /** An identity created for one twin takes in the other ... */
  lemma TakesTwin(t: Tables, key: string, createdAt: int)
    requires LeadingField(t) && key == t.fields[0].field
    ensures Acceptable(t, Created(t, Twin("m", key), createdAt), Twin("n", key))
  {
    var f := t.fields[0];
    var seed, node := Twin("m", key), Twin("n", key);
    OneValue(f, seed.properties, key);
    ExtractedValue(t.fields, seed.properties, 0);
    OneValue(f, Extracted(t.fields, seed.properties), key);
    OneValue(f, node.properties, key);
    ScoresOn(t, node.properties, Extracted(t.fields, seed.properties));
  }

  lemma NewSource(t: Tables, r: Identity, node: Node, now: int)
    requires Acceptable(t, r, node) && !HasSource(r.sources, node.id)
    ensures var ss := Merged(t, r, node, now).sources;
      |ss| == |r.sources| + 1 && forall s :: s in ss ==> s in r.sources || s.properties == node.properties
  {
    var s := ScoreOf(t.fields, node.properties, r.merged).value;
    var added := BuildSource(t.fields, node, [s.method'], now);
    assert WithSource(t.fields, r, node, s, now).sources == r.sources + [added];
    assert Merged(t, r, node, now).sources == r.sources + [added];
    assert added.properties == node.properties;
  }

  lemma TwinSources(t: Tables, key: string, createdAt: int, mergedAt: int)
    requires Acceptable(t, Created(t, Twin("m", key), createdAt), Twin("n", key))
    ensures var ss := Merged(t, Created(t, Twin("m", key), createdAt), Twin("n", key), mergedAt).sources;
      |ss| == 2 && forall s :: s in ss ==> s.properties == Twin("n", key).properties
  {
    var r, node := Created(t, Twin("m", key), createdAt), Twin("n", key);
    assert r.sources[0].nodeId != node.id;
    NewSource(t, r, node, mergedAt);
  }

  /** ... and would do so again. */
  lemma TakesTwinAgain(t: Tables, key: string, createdAt: int, mergedAt: int)
    requires LeadingField(t) && key == t.fields[0].field
    requires Acceptable(t, Created(t, Twin("m", key), createdAt), Twin("n", key))
    ensures Acceptable(t, Merged(t, Created(t, Twin("m", key), createdAt), Twin("n", key), mergedAt), Twin("n", key))
  {
    var r, node := Created(t, Twin("m", key), createdAt), Twin("n", key);
    var m := Merged(t, r, node, mergedAt);
    TwinSources(t, key, createdAt, mergedAt);
    MergeLeavesUpToDate(t, r, node, mergedAt);
    AllSayTheSame(m.sources, key);
    OneValue(t.fields[0], m.merged, key);
    OneValue(t.fields[0], node.properties, key);
    ScoresOn(t, node.properties, m.merged);
  }

  /** It happens: a created identity takes in a node, which later names a group, and
      the preview announces no change where the merge makes one. */
  lemma MisforetoldAfterMerge(createdAt: int, firstAt: int, previewedAt: int, mergedAt: int)
    ensures exists seed, first, node ::
      Misforetold(StandardTables(), Created(StandardTables(), seed, createdAt), first, node, firstAt, previewedAt, mergedAt)
  {
    TableNamesAreDistinct();
    GroupKeyIsNoAlias();
    MisforetoldWith(StandardTables(), createdAt, firstAt, previewedAt, mergedAt);
  }

  lemma MisforetoldWith(t: Tables, createdAt: int, firstAt: int, previewedAt: int, mergedAt: int)
    requires LeadingField(t) && t.groupKeys != [] && forall f :: f in t.fields ==> t.groupKeys[0] !in f.aliases
    ensures exists seed, first, node ::
      Misforetold(t, Created(t, seed, createdAt), first, node, firstAt, previewedAt, mergedAt)
  {
    var key := t.fields[0].field;
    var seed, first := Twin("m", key), Twin("n", key);
    var r := Created(t, seed, createdAt);
    TakesTwin(t, key, createdAt);
    TakesTwinAgain(t, key, createdAt, firstAt);
    var m := Merged(t, r, first, firstAt);
    MergeLeavesUpToDate(t, r, first, firstAt);
    var group := FreshName(m.groups);
    NewGroupIsNotForetold(t, m, first, group, previewedAt, mergedAt);
    assert Misforetold(t, r, first, Regrouped(first, t.groupKeys[0], group), firstAt, previewedAt, mergedAt);
  }

  /** `r` takes in `first`, then `node` under the same id, with a wrong preview. */
  ghost predicate Misforetold(t: Tables, r: Identity, first: Node, node: Node, firstAt: int, previewedAt: int, mergedAt: int)
  {
    var m := Merged(t, r, first, firstAt);
    && Acceptable(t, r, first) && node.id == first.id != "" && Acceptable(t, m, node)
    && !Foretells(t, m, node, previewedAt, mergedAt)
  }

  lemma GroupKeyIsNoAlias()
    ensures forall f :: f in IdentityTable() ==> "memberOf" !in f.aliases
  {
    var table := IdentityTable();
    forall i | 0 <= i < |table| ensures "memberOf" !in table[i].aliases {
      var a := table[i].aliases;
      forall j | 0 <= j < |a| ensures a[j] != "memberOf" {
        assert |a[j]| != 8 || a[j][0] != 'm';
      }
    }
  }

  // ------------------------------------------------- scores and merges in a row

  ghost predicate AgreesOn(f: FieldDef, props: Properties, merged: Properties)
  {
    var x, y := Property(props, f.aliases), Property(merged, f.aliases);
    x.Some? && y.Some? && Matches(f.field, x.value, y.value)
  }

  ghost predicate FirstAgreement(fields: seq<FieldDef>, i: int, props: Properties, merged: Properties)
  {
    0 <= i < |fields| && AgreesOn(fields[i], props, merged) && forall j :: 0 <= j < i ==> !AgreesOn(fields[j], props, merged)
  }

  /** The score is that of the field, with the node's value for it. */
  ghost predicate ScoredBy(f: FieldDef, props: Properties, s: Score)
  {
    s.score == f.score && s.method' == f.method' && s.matchedField == f.field && Property(props, f.aliases) == Some(s.matchedValue)
  }

  /** A node scores by the first identity field, in order of priority, on which it
      agrees with the identity, and not at all if there is none. */
  lemma {:induction false} ScoreIsFirstAgreement(fields: seq<FieldDef>, props: Properties, merged: Properties)
    ensures ScoreOf(fields, props, merged).None? ==> forall i :: 0 <= i < |fields| ==> !AgreesOn(fields[i], props, merged)
    ensures ScoreOf(fields, props, merged).Some? ==>
      exists i :: FirstAgreement(fields, i, props, merged) && ScoredBy(fields[i], props, ScoreOf(fields, props, merged).value)
  {
    if fields != [] {
      if AgreesOn(fields[0], props, merged) {
        assert FirstAgreement(fields, 0, props, merged);
      } else {
        var rest := fields[1..];
        ScoreIsFirstAgreement(rest, props, merged);
        if ScoreOf(rest, props, merged).Some? {
          var i :| FirstAgreement(rest, i, props, merged) && ScoredBy(rest[i], props, ScoreOf(rest, props, merged).value);
          assert forall j :: 0 < j < |fields| ==> fields[j] == rest[j - 1];
          assert FirstAgreement(fields, i + 1, props, merged);
        } else {
          assert forall j :: 0 < j < |fields| ==> fields[j] == rest[j - 1];
        }
      }
    }
  }

  /** A node and when it is merged. */
  datatype Arrival = Arrival(node: Node, at: int)

  function MergedAll(t: Tables, r: Identity, arrivals: seq<Arrival>): Identity
  {
    if arrivals == [] then r else
      var k := |arrivals| - 1;
      Merged(t, MergedAll(t, r, arrivals[..k]), arrivals[k].node, arrivals[k].at)
  }

  ghost predicate OneSourceEach(ss: seq<Source>)
  {
    forall i, j :: 0 <= i < j < |ss| ==> ss[i].nodeId != ss[j].nodeId
  }

  /** Over any series of merges sources are only added, no node twice, and the
      confidence never drops. */
  lemma {:induction false} MergesOnlyAdd(t: Tables, r: Identity, arrivals: seq<Arrival>)
    requires OneSourceEach(r.sources)
    ensures var m := MergedAll(t, r, arrivals);
      r.sources <= m.sources && OneSourceEach(m.sources) && m.confidence >= r.confidence
  {
    if arrivals != [] {
      MergesOnlyAdd(t, r, arrivals[..|arrivals| - 1]);
    }
  }
}
