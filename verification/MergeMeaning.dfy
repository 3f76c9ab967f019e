/** What a merge makes of an identity, field by field. */
module MergeMeaning {
  import opened Wrappers
  import opened Sequences
  import opened IdentityFields
  import opened IdentityResolution
  import opened MergePreview

  // ------------------------------------------------------------- the decision

  /** The node and the identity agree first on field `i`. */
  ghost predicate AgreeFirstOn(t: Tables, r: Identity, node: Node, i: int)
  {
    FirstAgreement(t.fields, i, node.properties, r.merged)
  }

  lemma AgreementIsUnique(t: Tables, r: Identity, node: Node, i: int, j: int)
    requires AgreeFirstOn(t, r, node, i) && AgreeFirstOn(t, r, node, j)
    ensures i == j
  {
    assert AgreesOn(t.fields[i], node.properties, r.merged) && AgreesOn(t.fields[j], node.properties, r.merged);
  }

  /** A merge is accepted exactly when the first field on which both agree is worth
      70 points. */
  lemma AcceptedBy(t: Tables, r: Identity, node: Node)
    ensures Acceptable(t, r, node) <==> exists i :: AgreeFirstOn(t, r, node, i) && t.fields[i].score >= 70
  {
    ScoreIsFirstAgreement(t.fields, node.properties, r.merged);
    var s := ScoreOf(t.fields, node.properties, r.merged);
    if s.Some? {
      var i :| FirstAgreement(t.fields, i, node.properties, r.merged) && ScoredBy(t.fields[i], node.properties, s.value);
      assert AgreeFirstOn(t, r, node, i);
      forall j | AgreeFirstOn(t, r, node, j) ensures j == i {
        AgreementIsUnique(t, r, node, i, j);
      }
    } else {
      forall j ensures !AgreeFirstOn(t, r, node, j) {
        assert 0 <= j < |t.fields| ==> !AgreesOn(t.fields[j], node.properties, r.merged);
      }
    }
  }

  lemma AcceptedScore(t: Tables, r: Identity, node: Node, i: int) returns (s: Score)
    requires AgreeFirstOn(t, r, node, i)
    ensures ScoreOf(t.fields, node.properties, r.merged) == Some(s)
    ensures s.score == t.fields[i].score && s.method' == t.fields[i].method' && s.matchedField == t.fields[i].field
  {
    ScoreIsFirstAgreement(t.fields, node.properties, r.merged);
    assert AgreesOn(t.fields[i], node.properties, r.merged);
    s := ScoreOf(t.fields, node.properties, r.merged).value;
    var j :| FirstAgreement(t.fields, j, node.properties, r.merged) && ScoredBy(t.fields[j], node.properties, s);
    AgreementIsUnique(t, r, node, i, j);
  }

  // ------------------------------------------------------------ the confidence

  ghost predicate LevelFits(level: Level, confidence: nat)
  {
    && (level == Exact <==> confidence >= 100)
    && (level == VeryHigh <==> 90 <= confidence < 100)
    && (level == High <==> 80 <= confidence < 90)
    && (level == Medium <==> 70 <= confidence < 80)
    && (level == Low <==> 50 <= confidence < 70)
    && (level == NoConfidence <==> confidence < 50)
  }

  lemma AcceptedMerge(t: Tables, r: Identity, node: Node, now: int, i: int) returns (s: Score)
    requires AgreeFirstOn(t, r, node, i) && t.fields[i].score >= 70
    ensures Merged(t, r, node, now) == Absorbed(t, r, node, s, now)
    ensures s.score == t.fields[i].score
  {
    s := AcceptedScore(t, r, node, i);
  }

  lemma AbsorbedConfidence(t: Tables, r: Identity, node: Node, s: Score, now: int)
    requires !HasSource(r.sources, node.id)
    ensures Absorbed(t, r, node, s, now).confidence == Joined(t.fields, r, node, s, now).confidence
    ensures Absorbed(t, r, node, s, now).level == Joined(t.fields, r, node, s, now).level
  {
  }

  /** The better of the two scores, at its level. */
  ghost predicate Raised(m: Identity, old': nat, score: nat)
  {
    && m.confidence >= old' && m.confidence >= score && (m.confidence == old' || m.confidence == score)
    && LevelFits(m.level, m.confidence)
  }

  lemma JoinedIsRaised(t: Tables, r: Identity, node: Node, s: Score, now: int)
    ensures Raised(Joined(t.fields, r, node, s, now), r.confidence, s.score)
  {
  }

  /** A merge that takes a node in raises the confidence to the score of the field on
      which they agree, never lowers it, and sets the level that goes with it. */
  lemma ConfidenceAfterMerge(t: Tables, r: Identity, node: Node, now: int, i: int)
    requires AgreeFirstOn(t, r, node, i) && t.fields[i].score >= 70 && !HasSource(r.sources, node.id)
    ensures Raised(Merged(t, r, node, now), r.confidence, t.fields[i].score)
  {
    var s := AcceptedMerge(t, r, node, now, i);
    JoinedIsRaised(t, r, node, s, now);
    AbsorbedConfidence(t, r, node, s, now);
  }

  // ---------------------------------------------------------------- the source

  /** `score` is that of the first field known by this name, by itself or as an
      alias, or nothing if no field is. */
  ghost predicate WorthOf(fields: seq<FieldDef>, name: string, score: nat)
  {
    if exists k :: FirstKnown(fields, name, k) then exists k :: FirstKnown(fields, name, k) && score == fields[k].score else score == 0
  }

  ghost predicate FirstKnown(fields: seq<FieldDef>, name: string, k: int)
  {
    && 0 <= k < |fields| && (fields[k].field == name || name in fields[k].aliases)
    && forall j :: 0 <= j < k ==> fields[j].field != name && name !in fields[j].aliases
  }

  lemma {:induction false} FieldScoreIsWorth(fields: seq<FieldDef>, name: string)
    ensures WorthOf(fields, name, FieldScore(fields, name))
  {
    if fields != [] {
      if fields[0].field == name || name in fields[0].aliases {
        assert FirstKnown(fields, name, 0);
      } else {
        var rest := fields[1..];
        FieldScoreIsWorth(rest, name);
        if k :| FirstKnown(rest, name, k) && FieldScore(rest, name) == rest[k].score {
          assert forall j :: 0 < j < |fields| ==> fields[j] == rest[j - 1];
          assert FirstKnown(fields, name, k + 1);
        }
        if k :| FirstKnown(fields, name, k) {
          assert forall j :: 0 < j < |fields| ==> fields[j] == rest[j - 1];
          assert FirstKnown(rest, name, k - 1);
        }
      }
    }
  }

  /** What is recorded of the node: the last source, with the name of the method by
      which it matched, rated by that name. */
  ghost predicate RecordedAs(t: Tables, s: Source, node: Node, name: string, now: int)
  {
    && s.system == node.system && s.nodeId == node.id && s.displayName == node.displayName
    && s.properties == node.properties && s.lastSeen == now && s.matchedFields == [name]
    && WorthOf(t.fields, name, s.confidence)
  }

  lemma SourceAfterMerge(t: Tables, r: Identity, node: Node, now: int, i: int)
    requires AgreeFirstOn(t, r, node, i) && t.fields[i].score >= 70 && !HasSource(r.sources, node.id)
    ensures var ss := Merged(t, r, node, now).sources;
      ss != [] && ss[..|ss| - 1] == r.sources && RecordedAs(t, ss[|ss| - 1], node, t.fields[i].method', now)
  {
    var s := AcceptedScore(t, r, node, i);
    var added := BuildSource(t.fields, node, [s.method'], now);
    FieldScoreIsWorth(t.fields, s.method');
    assert ConfidenceOf(t.fields, [s.method']) == FieldScore(t.fields, s.method') by {
      assert [s.method'][..0] == [];
      assert ConfidenceOf(t.fields, []) == 0;
    }
    assert WithSource(t.fields, r, node, s, now).sources == r.sources + [added];
    assert (r.sources + [added])[..|r.sources|] == r.sources;
  }

  // ------------------------------------------------------- what else is updated

  /** The statistics count what the identity holds. */
  ghost predicate Counts(x: Statistics, m: Identity)
  {
    && x.totalSources == |m.sources| && x.matchedFields == |m.matched| && x.totalConflicts == |m.conflicts|
    && x.criticalConflicts == |set i | 0 <= i < |m.conflicts| && m.conflicts[i].severity == Critical|
    && x.resolvedConflicts == 0 && x.confidenceScore == m.confidence
    && (forall e :: e in x.mergeHistory <==> e in m.timeline && e.SourceAdded?)
    && |x.mergeHistory| == |set i | 0 <= i < |m.timeline| && m.timeline[i].SourceAdded?|
  }

  lemma StatisticsCount(m: Identity)
    ensures Counts(StatisticsOf(m), m)
  {
    var critical := (c: Conflict) => c.severity.Critical?;
    var added := (e: TimelineEvent) => e.SourceAdded?;
    FilterCount(m.conflicts, critical);
    FilterCount(m.timeline, added);
    assert KeptAt(m.conflicts, critical) == set i | 0 <= i < |m.conflicts| && m.conflicts[i].severity == Critical;
    assert KeptAt(m.timeline, added) == set i | 0 <= i < |m.timeline| && m.timeline[i].SourceAdded?;
  }

  /** Any accepted merge recomputes the comparisons, logs the event and counts. */
  lemma LogAfterMerge(t: Tables, r: Identity, node: Node, now: int)
    requires Acceptable(t, r, node)
    ensures var m := Merged(t, r, node, now);
      && m.timeline == r.timeline + [SourceAdded(now, node.system)] && m.updatedAt == now && Counts(m.statistics, m)
      && m.matched == MatchedFields(t.fields, m.sources) && m.conflicts == Conflicts(t.fields, m.sources)
      && m.merged == MergedFields(m.sources)
      && m.statistics.mergeHistory == StatisticsOf(r).mergeHistory + [SourceAdded(now, node.system)]
      && (HasSource(r.sources, node.id) ==> m.sources == r.sources && m.confidence == r.confidence && m.level == r.level)
  {
    var m := Merged(t, r, node, now);
    StatisticsCount(m);
    assert m.statistics == StatisticsOf(m);
    FilterAppend(r.timeline, SourceAdded(now, node.system), (e: TimelineEvent) => e.SourceAdded?);
  }

  /** A name list after more names: nothing is lost or moved, the new names are behind
      it, none of them twice. */
  ghost predicate Extends(list: seq<string>, names: seq<string>, longer: seq<string>)
  {
    && list <= longer
    && (forall n :: n in longer <==> n in list || n in names)
    && forall i, j :: |list| <= j < |longer| && 0 <= i < j ==> longer[i] != longer[j]
  }

  lemma {:induction false} AddedNamesExtend(list: seq<string>, names: seq<string>)
    ensures Extends(list, names, AddNames(list, names))
  {
    if names != [] {
      var k := |names| - 1;
      AddedNamesExtend(list, names[..k]);
      assert names == names[..k] + [names[k]];
    }
  }

  ghost predicate AccountsAfter(t: Tables, accounts: seq<Account>, longer: seq<Account>, node: Node)
  {
    var props := node.properties;
    var name := TextOr(props, t.accountKeys);
    var known := exists a :: a in accounts && a.system == node.system && a.accountName == name;
    longer == accounts + (
      if name == "" || known then [] else [Account(node.system, name, TextOr(props, t.domainKeys), Solid(Either(props, t.disabledKeys)))])
  }

  lemma AddedAccount(t: Tables, accounts: seq<Account>, node: Node)
    ensures AccountsAfter(t, accounts, AddAccount(t, accounts, node.system, node.properties), node)
  {
    var name := TextOr(node.properties, t.accountKeys);
    assert HasAccount(accounts, node.system, name) <==> exists a :: a in accounts && a.system == node.system && a.accountName == name;
  }

  /** The names of the first list that counts as a value, and the account by the first
      name that does, unless the identity has it for the system. */
  lemma NamesAfterMerge(t: Tables, r: Identity, node: Node, now: int)
    requires Acceptable(t, r, node)
    ensures var m, props := Merged(t, r, node, now), node.properties;
      && Extends(r.groups, NamesIn(Either(props, t.groupKeys)), m.groups)
      && Extends(r.roles, NamesIn(Either(props, t.roleKeys)), m.roles)
      && AccountsAfter(t, r.accounts, m.accounts, node)
  {
    AddedNamesExtend(r.groups, NamesIn(Either(node.properties, t.groupKeys)));
    AddedNamesExtend(r.roles, NamesIn(Either(node.properties, t.roleKeys)));
    AddedAccount(t, r.accounts, node);
  }

  lemma RefusedMergeChangesNothing(t: Tables, r: Identity, node: Node, now: int)
    requires forall i :: AgreeFirstOn(t, r, node, i) ==> t.fields[i].score < 70
    ensures Merged(t, r, node, now) == r
  {
    AcceptedBy(t, r, node);
  }

  // --------------------------------------------------------------- the creation

  ghost predicate Provides(fields: seq<FieldDef>, props: Properties, key: string, i: int)
  {
    0 <= i < |fields| && fields[i].field == key && Property(props, fields[i].aliases).Some?
  }

  /** A property is taken over exactly when some field of that name has a value, and
      is then that of the last such field, `i`; there is none if `i` is -1. */
  lemma {:induction false} ExtractedMeaning(fields: seq<FieldDef>, props: Properties, key: string) returns (i: int)
    ensures -1 <= i < |fields| && forall j :: i < j < |fields| ==> !Provides(fields, props, key, j)
    ensures key in Extracted(fields, props) <==> i >= 0
    ensures i >= 0 ==> Provides(fields, props, key, i)
    ensures i >= 0 ==> Extracted(fields, props)[key] == Text(Property(props, fields[i].aliases).value)
  {
    i := -1;
    if fields != [] {
      var k := |fields| - 1;
      i := ExtractedMeaning(fields[..k], props, key);
      if Provides(fields, props, key, k) {
        i := k;
      } else {
        forall j | i < j < k ensures !Provides(fields, props, key, j) {
          assert !Provides(fields[..k], props, key, j);
        }
      }
    }
  }

  /** An identity that holds nothing but the node. */
  ghost predicate HoldsOnly(t: Tables, r: Identity, node: Node, now: int)
  {
    var props := node.properties;
    && |r.sources| == 1 && r.sources[0] == Source(node.system, node.id, node.displayName, 70, [], now, props)
    && r.confidence == 70 && LevelFits(r.level, 70)
    && r.matched == [] && r.conflicts == []
    && Extends([], NamesIn(Either(props, t.groupKeys)), r.groups)
    && Extends([], NamesIn(Either(props, t.roleKeys)), r.roles)
    && r.timeline == [SourceAdded(now, node.system)] && r.updatedAt == now
    && (r.accounts == [] <==> node.system !in {ActiveDirectory, FreeIpa, Linux})
    && (forall a :: a in r.accounts ==>
          && a.system == node.system && a.accountName == node.displayName && a.domain == ""
          && (a.disabled <==> Solid(Lookup(props, "disabled")) || Solid(Lookup(props, "locked"))))
    && |r.accounts| <= 1
  }

  /** The first statistics of an identity are those that a merge would count. */
  lemma CreationMeaning(t: Tables, node: Node, now: int)
    ensures HoldsOnly(t, Created(t, node, now), node, now)
    ensures Counts(Created(t, node, now).statistics, Created(t, node, now))
  {
    var r := Created(t, node, now);
    AddedNamesExtend([], NamesIn(Either(node.properties, t.groupKeys)));
    AddedNamesExtend([], NamesIn(Either(node.properties, t.roleKeys)));
    StatisticsCount(r);
    OneEvent(r);
    assert r.statistics == StatisticsOf(r);
  }

  lemma OneEvent(r: Identity)
    requires |r.timeline| == 1 && r.timeline[0].SourceAdded? && r.conflicts == []
    ensures StatisticsOf(r).mergeHistory == r.timeline && StatisticsOf(r).criticalConflicts == 0
  {
    var added := (e: TimelineEvent) => e.SourceAdded?;
    assert r.timeline == [] + [r.timeline[0]] && r.timeline[..0] == [];
    assert Filter(r.timeline[..0], added) == [];
    assert Filter(r.timeline, added) == r.timeline;
  }

  // ------------------------------------------------------------ names in a text

  /** A value that counts as true: a list, a text that is not empty, or another such
      value. */
  ghost predicate Solid(v: Value)
  {
    v.List? || (v.Text? && v.text != "") || (v.Other? && v.truthy)
  }

  ghost predicate FirstSolid(props: Properties, keys: seq<string>, i: int)
  {
    0 <= i < |keys| && Solid(Lookup(props, keys[i])) && forall j :: 0 <= j < i ==> !Solid(Lookup(props, keys[j]))
  }

  /** The value looked up is the first one that counts as true, `i`, else, where `i` is
      -1, one that does not. */
  lemma {:induction false} EitherMeaning(props: Properties, keys: seq<string>) returns (i: int)
    ensures i == -1 || FirstSolid(props, keys, i)
    ensures i >= 0 ==> keys[i] in props && Either(props, keys) == props[keys[i]]
    ensures i == -1 ==> !Solid(Either(props, keys)) && TextOr(props, keys) == ""
  {
    if keys == [] {
      i := -1;
    } else if Solid(Lookup(props, keys[0])) {
      i := 0;
    } else {
      i := EitherMeaning(props, keys[1..]);
      if i >= 0 {
        assert forall j :: 0 < j < |keys| ==> keys[j] == keys[1..][j - 1];
        i := i + 1;
      }
    }
  }

  lemma PiecesAfter(c: char, s: string)
    ensures c in ",;|" ==> Pieces([c] + s) == [""] + Pieces(s)
    ensures c !in ",;|" ==> Pieces([c] + s) == Longer(c, Pieces(s))
  {
    assert ([c] + s)[1..] == s;
    assert c in ",;|" <==> Separator(c);
  }

  /** The pieces with a character before the first. */
  function Longer(c: char, ps: seq<string>): seq<string>
    requires ps != []
  {
    [[c] + ps[0]] + ps[1..]
  }

  lemma LongerConcat(c: char, a: seq<string>, b: seq<string>)
    requires a != []
    ensures Longer(c, a + b) == Longer(c, a) + b
  {
  }

  /** A text is cut at every comma, semicolon and bar, and nowhere else. */
  lemma {:induction false} PiecesOfCut(a: string, c: char, b: string)
    requires c in ",;|"
    ensures Pieces(a + [c] + b) == Pieces(a) + Pieces(b)
  {
    if a == "" {
      assert a + [c] + b == [c] + b;
      PiecesAfter(c, b);
    } else {
      var rest := a[1..];
      PiecesOfCut(rest, c, b);
      CutBehind(a[0], rest, rest + [c] + b, Pieces(b));
      assert a + [c] + b == [a[0]] + (rest + [c] + b) && a == [a[0]] + rest;
    }
  }

  lemma CutBehind(x: char, rest: string, whole: string, right: seq<string>)
    requires Pieces(whole) == Pieces(rest) + right
    ensures Pieces([x] + whole) == Pieces([x] + rest) + right
  {
    PiecesAfter(x, whole);
    PiecesAfter(x, rest);
    LongerConcat(x, Pieces(rest), right);
    Regroup([""], Pieces(rest), right);
  }

  lemma Regroup(a: seq<string>, b: seq<string>, c: seq<string>)
    ensures a + (b + c) == a + b + c
  {
  }

  lemma {:induction false} PiecesOfWhole(a: string)
    requires forall i :: 0 <= i < |a| ==> a[i] !in ",;|"
    ensures Pieces(a) == [a]
  {
    if a != "" {
      assert !Separator(a[0]);
      PiecesOfWhole(a[1..]);
      assert [a[0]] + a[1..] == a;
    }
  }

  /** Every piece that is not blank counts, trimmed. */
  lemma {:induction false} TrimmedMeaning(ps: seq<string>, n: string)
    ensures n in Trimmed(ps) <==> n != "" && exists p :: p in ps && Trim(p) == n
  {
    if ps != [] {
      var k := |ps| - 1;
      TrimmedMeaning(ps[..k], n);
      assert ps == ps[..k] + [ps[k]];
    }
  }

  lemma BlankPieces(s: string)
    requires Trim(s) == ""
    ensures Pieces(s) == [s]
  {
    TrimMeaning(s);
    var l, r :| s == l + Trim(s) + r && AllSpace(l) && AllSpace(r);
    forall i | 0 <= i < |s| ensures s[i] !in ",;|" {
      assert s[i] in {' ', '\t', '\n', '\r'} by { assert if i < |l| then s[i] == l[i] else s[i] == r[i - |l|]; }
    }
    PiecesOfWhole(s);
  }

  /** A list names its items, a text the non-blank pieces of it, anything else
      nothing. */
  lemma NamesMeaning(v: Value, n: string)
    ensures v.List? ==> NamesIn(v) == v.items
    ensures v.Text? ==> (n in NamesIn(v) <==> n != "" && exists p :: p in Pieces(v.text) && Trim(p) == n)
    ensures !v.List? && !v.Text? ==> NamesIn(v) == []
  {
    if v.Text? {
      TrimmedMeaning(Pieces(v.text), n);
      if Trim(v.text) == "" {
        BlankPieces(v.text);
      }
    }
  }

  // ---------------------------------------------------------------- the preview

  /** The preview lists as changed fields those that are not recorded yet, and as new
      conflicts those of which no other on the same field, systems and values is. */
  lemma PreviewNews(t: Tables, r: Identity, node: Node, now: int, m: FieldMatch, c: Conflict)
    ensures var p := Proposed(t, r, node, now);
      && (m in Fewer(p.matched, r.matched) <==> m in p.matched && m !in r.matched)
      && (c in FewerConflicts(p.conflicts, r.conflicts) <==>
            c in p.conflicts && forall i :: 0 <= i < |r.conflicts| ==>
              !(r.conflicts[i].field == c.field && r.conflicts[i].sourceA == c.sourceA && r.conflicts[i].sourceB == c.sourceB
                && r.conflicts[i].valueA == c.valueA && r.conflicts[i].valueB == c.valueB))
  {
  }
}
