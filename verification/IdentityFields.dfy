/** How the properties of identity nodes are read, compared and combined. */
module IdentityFields {
  import opened Wrappers
  import opened Sequences

  /** A property value; `Other` is a value that is no string and no list, with its
      text and whether the language counts it as true. */
  datatype Value = Undefined | Null | Text(text: string) | List(items: seq<string>) | Other(shown: string, truthy: bool)

  type Properties = map<string, Value>

  datatype FieldDef = FieldDef(field: string, score: nat, method': string, aliases: seq<string>)

  /** The identity fields in order of priority. */
  function IdentityTable(): seq<FieldDef>
  {
    [
      FieldDef("employeeId", 100, "employeeID", ["employeeId", "employeeID", "employee_number", "employeeNumber"]),
      FieldDef("employeeNumber", 100, "employeeNumber", ["employeeNumber", "employee_number"]),
      FieldDef("objectGUID", 95, "objectGUID", ["objectGUID", "objectguid", "guid"]),
      FieldDef("objectSid", 90, "objectSid", ["objectSid", "objectsid", "sid"]),
      FieldDef("email", 85, "email", ["email", "mail", "emailAddress", "email_address"]),
      FieldDef("userPrincipalName", 80, "UPN", ["userPrincipalName", "upn", "user_principal_name"]),
      FieldDef("krbPrincipalName", 70, "krbPrincipalName", ["krbPrincipalName", "krb_principal_name", "principal"]),
      FieldDef("uid", 70, "uid", ["uid", "userid", "userId"]),
      FieldDef("samAccountName", 70, "sAMAccountName", ["samAccountName", "sAMAccountName", "sam_account_name"]),
      FieldDef("username", 70, "username", ["username", "userName", "login", "loginName"]),
      FieldDef("displayName", 60, "displayName", ["displayName", "display_name", "fullName", "full_name", "cn"])
    ]
  }

  // -------------------------------------------------------------------- text

  predicate IsSpace(c: char) { c == ' ' || c == '\t' || c == '\n' || c == '\r' }

  function TrimLeft(s: string): string
  {
    if s != [] && IsSpace(s[0]) then TrimLeft(s[1..]) else s
  }

  function TrimRight(s: string): string
  {
    if s != [] && IsSpace(s[|s| - 1]) then TrimRight(s[..|s| - 1]) else s
  }

  function Trim(s: string): string { TrimRight(TrimLeft(s)) }

  function Lower(s: string): string
  {
    seq(|s|, i requires 0 <= i < |s| => if 'A' <= s[i] <= 'Z' then (s[i] as int + 32) as char else s[i])
  }

  function Bare(s: string): string
  {
    Filter(s, (c: char) => c != '-' && c != '{' && c != '}')
  }

  function Join(items: seq<string>): string
  {
    if items == [] then "" else if |items| == 1 then items[0] else Join(items[..|items| - 1]) + "," + items[|items| - 1]
  }

  function Show(v: Value): string
  {
    match v
    case Undefined => "undefined"
    case Null => "null"
    case Text(s) => s
    case List(items) => Join(items)
    case Other(shown, _) => shown
  }

  predicate Truthy(v: Value)
  {
    match v
    case Undefined => false
    case Null => false
    case Text(s) => s != ""
    case List(_) => true
    case Other(_, truthy) => truthy
  }

  function Lookup(props: Properties, key: string): Value
  {
    if key in props then props[key] else Undefined
  }

  /** The first alias that has a non-blank value, trimmed. */
  function Property(props: Properties, aliases: seq<string>): (r: Option<string>)
  {
    if aliases == [] then None else
      var v := Lookup(props, aliases[0]);
      if !v.Undefined? && !v.Null? && Trim(Show(v)) != "" then Some(Trim(Show(v)))
      else Property(props, aliases[1..])
  }

  /** Trimming takes spaces off both ends and leaves none there. */
  lemma {:induction false} TrimMeaning(s: string)
    ensures exists l, r :: s == l + Trim(s) + r && AllSpace(l) && AllSpace(r)
    ensures Trim(s) != "" ==> !IsSpace(Trim(s)[0]) && !IsSpace(Trim(s)[|Trim(s)| - 1])
  {
    var l := TrimLeftMeaning(s);
    var r := TrimRightMeaning(TrimLeft(s));
    assert s == l + Trim(s) + r;
  }

  ghost predicate AllSpace(s: string) { forall i :: 0 <= i < |s| ==> s[i] in {' ', '\t', '\n', '\r'} }

  lemma {:induction false} TrimLeftMeaning(s: string) returns (l: string)
    ensures s == l + TrimLeft(s) && AllSpace(l) && (TrimLeft(s) != "" ==> !IsSpace(TrimLeft(s)[0]))
  {
    if s != [] && IsSpace(s[0]) {
      l := TrimLeftMeaning(s[1..]);
      l := [s[0]] + l;
    } else {
      l := [];
    }
  }

  lemma {:induction false} TrimRightMeaning(s: string) returns (r: string)
    ensures s == TrimRight(s) + r && AllSpace(r) && (TrimRight(s) != "" ==> !IsSpace(TrimRight(s)[|TrimRight(s)| - 1]))
    ensures TrimRight(s) != "" ==> TrimRight(s)[0] == s[0]
  {
    if s != [] && IsSpace(s[|s| - 1]) {
      r := TrimRightMeaning(s[..|s| - 1]);
      r := r + [s[|s| - 1]];
    } else {
      r := [];
    }
  }

  /** The items of a list are shown with commas between them. */
  lemma {:induction false} JoinMeaning(a: seq<string>, b: seq<string>)
    requires a != [] && b != []
    ensures Join(a + b) == Join(a) + "," + Join(b)
  {
    var k := |b| - 1;
    JoinLast(a + b[..k], b[k]);
    assert a + b == a + b[..k] + [b[k]];
    if k > 0 {
      JoinMeaning(a, b[..k]);
      JoinLast(b[..k], b[k]);
      assert b == b[..k] + [b[k]];
      Rejoin(Join(a), Join(b[..k]), b[k]);
    } else {
      assert a + b[..0] == a;
    }
  }

  lemma JoinLast(a: seq<string>, x: string)
    requires a != []
    ensures Join(a + [x]) == Join(a) + "," + x && Join([x]) == x
  {
    assert (a + [x])[..|a|] == a;
  }

  lemma Rejoin(a: string, b: string, c: string)
    ensures (a + "," + b) + "," + c == a + "," + (b + "," + c)
  {
  }

  /** A property is looked up under the first alias that has a value with anything in
      it but spaces. */
  lemma {:induction false} PropertyMeaning(props: Properties, aliases: seq<string>)
    ensures Property(props, aliases).None? ==> forall i :: 0 <= i < |aliases| ==> !Says(props, aliases[i])
    ensures Property(props, aliases).Some? ==> exists i :: FirstSaid(props, aliases, i, Property(props, aliases).value)
  {
    if aliases != [] {
      if Says(props, aliases[0]) {
        assert FirstSaid(props, aliases, 0, Property(props, aliases).value);
      } else {
        var rest := aliases[1..];
        PropertyMeaning(props, rest);
        assert forall j :: 0 < j < |aliases| ==> aliases[j] == rest[j - 1];
        if Property(props, rest).Some? {
          var i :| FirstSaid(props, rest, i, Property(props, rest).value);
          assert FirstSaid(props, aliases, i + 1, Property(props, rest).value);
        }
      }
    }
  }

  ghost predicate Says(props: Properties, key: string)
  {
    key in props && props[key] != Undefined && props[key] != Null && Trim(Show(props[key])) != ""
  }

  ghost predicate FirstSaid(props: Properties, aliases: seq<string>, i: int, value: string)
  {
    && 0 <= i < |aliases| && Says(props, aliases[i]) && value == Trim(Show(props[aliases[i]]))
    && forall j :: 0 <= j < i ==> !Says(props, aliases[j])
  }

  /** Case and outer spaces never matter; in identifiers of the directory dashes and
      braces do not matter either, wherever they stand. */
  lemma MatchesMeaning(field: string, a: string, b: string)
    ensures field in {"objectGUID", "objectSid", "sid"} ==>
      (Matches(field, a, b) <==> SameLetters(Filter(a, (c: char) => c !in "-{}"), Filter(b, (c: char) => c !in "-{}")))
    ensures field !in {"objectGUID", "objectSid", "sid"} ==> (Matches(field, a, b) <==> SameLetters(Trim(a), Trim(b)))
  {
    FilterSame(a, (c: char) => c != '-' && c != '{' && c != '}', (c: char) => c !in "-{}");
    FilterSame(b, (c: char) => c != '-' && c != '{' && c != '}', (c: char) => c !in "-{}");
    LowerMeaning(Bare(a), Bare(b));
    LowerMeaning(Trim(a), Trim(b));
  }

  /** Equal but for the case of the letters A to Z. */
  ghost predicate SameLetters(a: string, b: string)
  {
    |a| == |b| && forall i :: 0 <= i < |a| ==> SameLetter(a[i], b[i])
  }

  predicate SameLetter(a: char, b: char)
  {
    || a == b
    || ('A' <= a <= 'Z' && b as int - a as int == 32)
    || ('A' <= b <= 'Z' && a as int - b as int == 32)
  }

  lemma LowerMeaning(a: string, b: string)
    ensures Lower(a) == Lower(b) <==> SameLetters(a, b)
  {
    if Lower(a) == Lower(b) {
      forall i | 0 <= i < |a| ensures SameLetter(a[i], b[i]) {
        assert Lower(a)[i] == Lower(b)[i];
      }
    }
  }

  lemma {:induction false} FilterSame(s: string, f: char -> bool, g: char -> bool)
    requires forall c :: f(c) == g(c)
    ensures Filter(s, f) == Filter(s, g)
  {
    if s != [] {
      FilterSame(s[..|s| - 1], f, g);
    }
  }

  predicate Matches(field: string, a: string, b: string)
  {
    if field == "objectGUID" || field == "objectSid" || field == "sid" then Lower(Bare(a)) == Lower(Bare(b))
    else Lower(Trim(a)) == Lower(Trim(b))
  }

  // ------------------------------------------------------------------ sources

  datatype System = Manual | ActiveDirectory | EntraId | FreeIpa | Linux | Ldap | Custom

  /** The place of a system in the merge priority. */
  function Rank(s: System): (r: nat)
    ensures r < 7
  {
    match s
    case Manual => 0
    case ActiveDirectory => 1
    case EntraId => 2
    case FreeIpa => 3
    case Linux => 4
    case Ldap => 5
    case Custom => 6
  }

  datatype Source = Source(
    system: System, nodeId: string, displayName: string, confidence: nat, matchedFields: seq<string>, lastSeen: int, properties: Properties)

  // --------------------------------------------------- comparing the sources

  datatype FieldMatch = FieldMatch(field: string, valueA: string, valueB: string, exact: bool)

  datatype Severity = Info | Warning | Critical

  datatype Conflict = Conflict(field: string, sourceA: System, sourceB: System, valueA: string, valueB: string, severity: Severity)

  function SeverityOf(score: nat): Severity
  {
    if score >= 90 then Critical else if score >= 80 then Warning else Info
  }

  function MatchOn(f: FieldDef, a: Source, b: Source): seq<FieldMatch>
  {
    var x, y := Property(a.properties, f.aliases), Property(b.properties, f.aliases);
    if x.Some? && y.Some? then [FieldMatch(f.field, x.value, y.value, Matches(f.field, x.value, y.value))] else []
  }

  function ConflictOn(f: FieldDef, a: Source, b: Source): seq<Conflict>
  {
    var x, y := Property(a.properties, f.aliases), Property(b.properties, f.aliases);
    if x.Some? && y.Some? && !Matches(f.field, x.value, y.value) then
      [Conflict(f.field, a.system, b.system, x.value, y.value, SeverityOf(f.score))]
    else []
  }

  function MatchesAt(fields: seq<FieldDef>, a: Source, b: Source): nat -> seq<FieldMatch>
  {
    (k: nat) => if k < |fields| then MatchOn(fields[k], a, b) else []
  }

  function ConflictsAt(fields: seq<FieldDef>, a: Source, b: Source): nat -> seq<Conflict>
  {
    (k: nat) => if k < |fields| then ConflictOn(fields[k], a, b) else []
  }

  function PairMatches(fields: seq<FieldDef>, a: Source, b: Source): seq<FieldMatch>
  {
    Concat(MatchesAt(fields, a, b), |fields|)
  }

  function PairConflicts(fields: seq<FieldDef>, a: Source, b: Source): seq<Conflict>
  {
    Concat(ConflictsAt(fields, a, b), |fields|)
  }

  /** Source `i` against each source after it. */
  function RowMatches(fields: seq<FieldDef>, sources: seq<Source>, i: nat): nat -> seq<FieldMatch>
  {
    (j: nat) => if i < j < |sources| then PairMatches(fields, sources[i], sources[j]) else []
  }

  function RowConflicts(fields: seq<FieldDef>, sources: seq<Source>, i: nat): nat -> seq<Conflict>
  {
    (j: nat) => if i < j < |sources| then PairConflicts(fields, sources[i], sources[j]) else []
  }

  function AllMatches(fields: seq<FieldDef>, sources: seq<Source>): nat -> seq<FieldMatch>
  {
    (i: nat) => Concat(RowMatches(fields, sources, i), |sources|)
  }

  function AllConflicts(fields: seq<FieldDef>, sources: seq<Source>): nat -> seq<Conflict>
  {
    (i: nat) => Concat(RowConflicts(fields, sources, i), |sources|)
  }

  /** Every pair of sources compared on every field that both have. */
  function MatchedFields(fields: seq<FieldDef>, sources: seq<Source>): seq<FieldMatch>
  {
    Concat(AllMatches(fields, sources), |sources|)
  }

  /** The fields whose conflicts are recorded. */
  function Compared(fields: seq<FieldDef>): seq<FieldDef>
  {
    if |fields| <= 6 then fields else fields[..6]
  }

  function Conflicts(fields: seq<FieldDef>, sources: seq<Source>): seq<Conflict>
  {
    Concat(AllConflicts(Compared(fields), sources), |sources|)
  }

  method ComputeMatchedFields(fields: seq<FieldDef>, sources: seq<Source>) returns (matches: seq<FieldMatch>)
    ensures matches == MatchedFields(fields, sources)
  {
    matches := [];
    ghost var all := AllMatches(fields, sources);
    for i := 0 to |sources|
      invariant matches == Concat(all, i)
    {
      matches := AppendMatchRow(fields, sources, i, matches);
      assert all(i) == Concat(RowMatches(fields, sources, i), |sources|);
    }
  }

  /** `done` is `before` and then what source `i` gives against those before `j`. */
  ghost predicate MatchRowDone(fields: seq<FieldDef>, sources: seq<Source>, i: nat, j: nat, before: seq<FieldMatch>, done: seq<FieldMatch>)
  {
    done == ConcatOnto(before, RowMatches(fields, sources, i), j)
  }

  lemma MatchRowNext(fields: seq<FieldDef>, sources: seq<Source>, i: nat, j: nat, before: seq<FieldMatch>, done: seq<FieldMatch>)
    requires i < j < |sources| && MatchRowDone(fields, sources, i, j, before, done)
    ensures MatchRowDone(fields, sources, i, j + 1, before, done + PairMatches(fields, sources[i], sources[j]))
  {
  }

  lemma MatchRowStart(fields: seq<FieldDef>, sources: seq<Source>, i: nat, before: seq<FieldMatch>)
    ensures MatchRowDone(fields, sources, i, i + 1, before, before)
  {
    ConcatOntoIsConcat(before, RowMatches(fields, sources, i), i + 1);
    ConcatEmpty(RowMatches(fields, sources, i), i + 1);
  }

  lemma MatchRowEnd(fields: seq<FieldDef>, sources: seq<Source>, i: nat, before: seq<FieldMatch>, done: seq<FieldMatch>)
    requires MatchRowDone(fields, sources, i, |sources|, before, done)
    ensures done == before + Concat(RowMatches(fields, sources, i), |sources|)
  {
    ConcatOntoIsConcat(before, RowMatches(fields, sources, i), |sources|);
  }

  method AppendMatchRow(fields: seq<FieldDef>, sources: seq<Source>, i: nat, before: seq<FieldMatch>)
    returns (matches: seq<FieldMatch>)
    requires i < |sources|
    ensures matches == before + Concat(RowMatches(fields, sources, i), |sources|)
  {
    matches := before;
    MatchRowStart(fields, sources, i, before);
    for j := i + 1 to |sources|
      invariant MatchRowDone(fields, sources, i, j, before, matches)
    {
      MatchRowNext(fields, sources, i, j, before, matches);
      matches := AppendMatches(fields, sources[i], sources[j], matches);
    }
    MatchRowEnd(fields, sources, i, before, matches);
  }

  /** `done` is `before` and then what the first `k` fields give for the pair. */
  ghost predicate MatchDone(fields: seq<FieldDef>, a: Source, b: Source, k: nat, before: seq<FieldMatch>, done: seq<FieldMatch>)
  {
    done == ConcatOnto(before, MatchesAt(fields, a, b), k)
  }

  lemma MatchNext(fields: seq<FieldDef>, a: Source, b: Source, k: nat, before: seq<FieldMatch>, done: seq<FieldMatch>)
    requires k < |fields| && MatchDone(fields, a, b, k, before, done)
    ensures MatchDone(fields, a, b, k + 1, before, done + MatchOn(fields[k], a, b))
  {
  }

  lemma MatchEnd(fields: seq<FieldDef>, a: Source, b: Source, before: seq<FieldMatch>, done: seq<FieldMatch>)
    requires MatchDone(fields, a, b, |fields|, before, done)
    ensures done == before + PairMatches(fields, a, b)
  {
    ConcatOntoIsConcat(before, MatchesAt(fields, a, b), |fields|);
  }

  method AppendMatches(fields: seq<FieldDef>, a: Source, b: Source, before: seq<FieldMatch>) returns (matches: seq<FieldMatch>)
    ensures matches == before + PairMatches(fields, a, b)
  {
    matches := before;
    for k := 0 to |fields|
      invariant MatchDone(fields, a, b, k, before, matches)
    {
      MatchNext(fields, a, b, k, before, matches);
      NothingMore(matches);
      var valA := Property(a.properties, fields[k].aliases);
      var valB := Property(b.properties, fields[k].aliases);
      if valA.Some? && valB.Some? {
        matches := matches + [FieldMatch(fields[k].field, valA.value, valB.value, Matches(fields[k].field, valA.value, valB.value))];
      }
    }
    MatchEnd(fields, a, b, before, matches);
  }

  method ComputeConflicts(fields: seq<FieldDef>, sources: seq<Source>) returns (conflicts: seq<Conflict>)
    ensures conflicts == Conflicts(fields, sources)
  {
    conflicts := [];
    var compared := Compared(fields);
    ghost var all := AllConflicts(compared, sources);
    for i := 0 to |sources|
      invariant conflicts == Concat(all, i)
    {
      conflicts := AppendConflictRow(compared, sources, i, conflicts);
      assert all(i) == Concat(RowConflicts(compared, sources, i), |sources|);
    }
  }

  /** `done` is `before` and then what source `i` gives against those before `j`. */
  ghost predicate ConflictRowDone(fields: seq<FieldDef>, sources: seq<Source>, i: nat, j: nat, before: seq<Conflict>, done: seq<Conflict>)
  {
    done == ConcatOnto(before, RowConflicts(fields, sources, i), j)
  }

  lemma ConflictRowNext(fields: seq<FieldDef>, sources: seq<Source>, i: nat, j: nat, before: seq<Conflict>, done: seq<Conflict>)
    requires i < j < |sources| && ConflictRowDone(fields, sources, i, j, before, done)
    ensures ConflictRowDone(fields, sources, i, j + 1, before, done + PairConflicts(fields, sources[i], sources[j]))
  {
  }

  lemma ConflictRowStart(fields: seq<FieldDef>, sources: seq<Source>, i: nat, before: seq<Conflict>)
    ensures ConflictRowDone(fields, sources, i, i + 1, before, before)
  {
    ConcatOntoIsConcat(before, RowConflicts(fields, sources, i), i + 1);
    ConcatEmpty(RowConflicts(fields, sources, i), i + 1);
  }

  lemma ConflictRowEnd(fields: seq<FieldDef>, sources: seq<Source>, i: nat, before: seq<Conflict>, done: seq<Conflict>)
    requires ConflictRowDone(fields, sources, i, |sources|, before, done)
    ensures done == before + Concat(RowConflicts(fields, sources, i), |sources|)
  {
    ConcatOntoIsConcat(before, RowConflicts(fields, sources, i), |sources|);
  }

  method AppendConflictRow(fields: seq<FieldDef>, sources: seq<Source>, i: nat, before: seq<Conflict>)
    returns (conflicts: seq<Conflict>)
    requires i < |sources|
    ensures conflicts == before + Concat(RowConflicts(fields, sources, i), |sources|)
  {
    conflicts := before;
    ConflictRowStart(fields, sources, i, before);
    for j := i + 1 to |sources|
      invariant ConflictRowDone(fields, sources, i, j, before, conflicts)
    {
      ConflictRowNext(fields, sources, i, j, before, conflicts);
      conflicts := AppendConflicts(fields, sources[i], sources[j], conflicts);
    }
    ConflictRowEnd(fields, sources, i, before, conflicts);
  }

  /** `done` is `before` and then what the first `k` fields give for the pair. */
  ghost predicate ConflictDone(fields: seq<FieldDef>, a: Source, b: Source, k: nat, before: seq<Conflict>, done: seq<Conflict>)
  {
    done == ConcatOnto(before, ConflictsAt(fields, a, b), k)
  }

  lemma ConflictNext(fields: seq<FieldDef>, a: Source, b: Source, k: nat, before: seq<Conflict>, done: seq<Conflict>)
    requires k < |fields| && ConflictDone(fields, a, b, k, before, done)
    ensures ConflictDone(fields, a, b, k + 1, before, done + ConflictOn(fields[k], a, b))
  {
  }

  lemma ConflictEnd(fields: seq<FieldDef>, a: Source, b: Source, before: seq<Conflict>, done: seq<Conflict>)
    requires ConflictDone(fields, a, b, |fields|, before, done)
    ensures done == before + PairConflicts(fields, a, b)
  {
    ConcatOntoIsConcat(before, ConflictsAt(fields, a, b), |fields|);
  }

  method AppendConflicts(fields: seq<FieldDef>, a: Source, b: Source, before: seq<Conflict>) returns (conflicts: seq<Conflict>)
    ensures conflicts == before + PairConflicts(fields, a, b)
  {
    conflicts := before;
    for k := 0 to |fields|
      invariant ConflictDone(fields, a, b, k, before, conflicts)
    {
      ConflictNext(fields, a, b, k, before, conflicts);
      NothingMore(conflicts);
      var f := fields[k];
      var valA := Property(a.properties, f.aliases);
      var valB := Property(b.properties, f.aliases);
      if valA.Some? && valB.Some? && !Matches(f.field, valA.value, valB.value) {
        conflicts := conflicts + [Conflict(f.field, a.system, b.system, valA.value, valB.value, SeverityOf(f.score))];
      }
    }
    ConflictEnd(fields, a, b, before, conflicts);
  }

  // ------------------------------------------------ what a comparison records

  /** Source `i` and the later source `j` both have the field `k`, with these values. */
  ghost predicate BothHave(fields: seq<FieldDef>, sources: seq<Source>, i: nat, j: nat, k: nat, a: string, b: string)
  {
    && i < j < |sources| && k < |fields|
    && Property(sources[i].properties, fields[k].aliases) == Some(a)
    && Property(sources[j].properties, fields[k].aliases) == Some(b)
  }

  ghost predicate Compares(fields: seq<FieldDef>, sources: seq<Source>, i: nat, j: nat, k: nat, m: FieldMatch)
  {
    && BothHave(fields, sources, i, j, k, m.valueA, m.valueB) && m.field == fields[k].field
    && (m.exact <==> Matches(m.field, m.valueA, m.valueB))
  }

  lemma MatchPlace(fields: seq<FieldDef>, sources: seq<Source>, m: FieldMatch) returns (i: nat, j: nat, k: nat)
    requires m in MatchedFields(fields, sources)
    ensures i < j < |sources| && k < |fields| && m in MatchOn(fields[k], sources[i], sources[j])
  {
    ConcatMember(AllMatches(fields, sources), |sources|, m);
    i :| i < |sources| && m in AllMatches(fields, sources)(i);
    ConcatMember(RowMatches(fields, sources, i), |sources|, m);
    j :| j < |sources| && m in RowMatches(fields, sources, i)(j);
    ConcatMember(MatchesAt(fields, sources[i], sources[j]), |fields|, m);
    k :| k < |fields| && m in MatchesAt(fields, sources[i], sources[j])(k);
  }

  /** A match is recorded exactly when two sources both have a field; it shows the
      earlier source's value first and whether the two agree. */
  lemma MatchedFieldsMeaning(fields: seq<FieldDef>, sources: seq<Source>, m: FieldMatch)
    ensures m in MatchedFields(fields, sources) <==> exists i: nat, j: nat, k: nat :: Compares(fields, sources, i, j, k, m)
  {
    if m in MatchedFields(fields, sources) {
      var i, j, k := MatchPlace(fields, sources, m);
      assert Compares(fields, sources, i, j, k, m);
    }
    if i: nat, j: nat, k: nat :| Compares(fields, sources, i, j, k, m) {
      MatchIsIn(fields, sources, i, j, k, m);
    }
  }

  lemma MatchIsIn(fields: seq<FieldDef>, sources: seq<Source>, i: nat, j: nat, k: nat, m: FieldMatch)
    requires i < j < |sources| && k < |fields| && m in MatchOn(fields[k], sources[i], sources[j])
    ensures m in MatchedFields(fields, sources)
  {
    assert m in MatchesAt(fields, sources[i], sources[j])(k);
    ConcatMember(MatchesAt(fields, sources[i], sources[j]), |fields|, m);
    assert m in RowMatches(fields, sources, i)(j);
    ConcatMember(RowMatches(fields, sources, i), |sources|, m);
    assert m in AllMatches(fields, sources)(i);
    ConcatMember(AllMatches(fields, sources), |sources|, m);
  }

  /** Sources `i` and `j` disagree on field `k`; a conflict is critical from a field
      score of 90 on and a warning from 80 on. */
  ghost predicate Disputes(fields: seq<FieldDef>, sources: seq<Source>, i: nat, j: nat, k: nat, c: Conflict)
  {
    && BothHave(fields, sources, i, j, k, c.valueA, c.valueB) && k < 6
    && c.field == fields[k].field && !Matches(c.field, c.valueA, c.valueB)
    && c.sourceA == sources[i].system && c.sourceB == sources[j].system
    && (c.severity == Critical <==> fields[k].score >= 90) && (c.severity == Warning <==> 80 <= fields[k].score < 90)
  }

  /** A conflict is recorded exactly when two sources have different values for one of
      the first six fields; it names both systems. */
  lemma ConflictsMeaning(fields: seq<FieldDef>, sources: seq<Source>, c: Conflict)
    ensures c in Conflicts(fields, sources) <==> exists i: nat, j: nat, k: nat :: Disputes(fields, sources, i, j, k, c)
  {
    if c in Conflicts(fields, sources) {
      var i, j, k := ConflictComesFrom(fields, Compared(fields), sources, c);
    }
    if i: nat, j: nat, k: nat :| Disputes(fields, sources, i, j, k, c) {
      assert Compared(fields)[k] == fields[k];
      ConflictIsIn(Compared(fields), sources, i, j, k, c);
    }
  }

  lemma ConflictPlace(few: seq<FieldDef>, sources: seq<Source>, c: Conflict) returns (i: nat, j: nat, k: nat)
    requires c in Concat(AllConflicts(few, sources), |sources|)
    ensures i < j < |sources| && k < |few| && c in ConflictOn(few[k], sources[i], sources[j])
  {
    ConcatMember(AllConflicts(few, sources), |sources|, c);
    i :| i < |sources| && c in AllConflicts(few, sources)(i);
    ConcatMember(RowConflicts(few, sources, i), |sources|, c);
    j :| j < |sources| && c in RowConflicts(few, sources, i)(j);
    ConcatMember(ConflictsAt(few, sources[i], sources[j]), |few|, c);
    k :| k < |few| && c in ConflictsAt(few, sources[i], sources[j])(k);
  }

  lemma ConflictComesFrom(fields: seq<FieldDef>, few: seq<FieldDef>, sources: seq<Source>, c: Conflict) returns (i: nat, j: nat, k: nat)
    requires few <= fields && |few| <= 6 && c in Concat(AllConflicts(few, sources), |sources|)
    ensures Disputes(fields, sources, i, j, k, c)
  {
    i, j, k := ConflictPlace(few, sources, c);
    assert few[k] == fields[k];
  }

  lemma ConflictIsIn(few: seq<FieldDef>, sources: seq<Source>, i: nat, j: nat, k: nat, c: Conflict)
    requires i < j < |sources| && k < |few| && c in ConflictOn(few[k], sources[i], sources[j])
    ensures c in Concat(AllConflicts(few, sources), |sources|)
  {
    assert c in ConflictsAt(few, sources[i], sources[j])(k);
    ConcatMember(ConflictsAt(few, sources[i], sources[j]), |few|, c);
    assert c in RowConflicts(few, sources, i)(j);
    ConcatMember(RowConflicts(few, sources, i), |sources|, c);
    assert c in AllConflicts(few, sources)(i);
    ConcatMember(AllConflicts(few, sources), |sources|, c);
  }

  // ------------------------------ conflicts are the conflicting matched fields

  predicate Names(fields: seq<FieldDef>, field: string)
  {
    exists i :: 0 <= i < |fields| && fields[i].field == field
  }

  /** The matches that disagree, on one of the given fields. */
  function Disagreeing(fields: seq<FieldDef>, ms: seq<FieldMatch>): seq<FieldMatch>
  {
    if ms == [] then [] else
      var k := |ms| - 1;
      Disagreeing(fields, ms[..k]) + (if !ms[k].exact && Names(fields, ms[k].field) then [ms[k]] else [])
  }

  function AsMatches(cs: seq<Conflict>): (ms: seq<FieldMatch>)
    ensures |ms| == |cs| && forall i :: 0 <= i < |cs| ==> ms[i] == FieldMatch(cs[i].field, cs[i].valueA, cs[i].valueB, false)
  {
    seq(|cs|, i requires 0 <= i < |cs| => FieldMatch(cs[i].field, cs[i].valueA, cs[i].valueB, false))
  }

  lemma {:induction false} DisagreeingConcat(fields: seq<FieldDef>, a: seq<FieldMatch>, b: seq<FieldMatch>)
    ensures Disagreeing(fields, a + b) == Disagreeing(fields, a) + Disagreeing(fields, b)
  {
    if b == [] {
      assert a + b == a;
    } else {
      var k := |b| - 1;
      DisagreeingConcat(fields, a, b[..k]);
      assert (a + b)[..|a + b| - 1] == a + b[..k];
    }
  }

  lemma AsMatchesConcat(a: seq<Conflict>, b: seq<Conflict>)
    ensures AsMatches(a + b) == AsMatches(a) + AsMatches(b)
  {
  }

  ghost predicate DistinctNames(fields: seq<FieldDef>)
  {
    forall i, j :: 0 <= i < j < |fields| ==> fields[i].field != fields[j].field
  }

  lemma TableNamesAreDistinct()
    ensures DistinctNames(IdentityTable())
  {
    var names := ["employeeId", "employeeNumber", "objectGUID", "objectSid", "email", "userPrincipalName", "krbPrincipalName",
                  "uid", "samAccountName", "username", "displayName"];
    forall i, j | 0 <= i < j < |names| ensures names[i] != names[j] {
      assert |names[i]| != |names[j]| || names[i][0] != names[j][0] || names[i][2] != names[j][2] || names[i][6] != names[j][6];
    }
    assert forall i :: 0 <= i < |names| ==> IdentityTable()[i].field == names[i];
  }

  /** The disagreeing matches are the conflicts. */
  ghost predicate Agree(compared: seq<FieldDef>, ms: seq<FieldMatch>, cs: seq<Conflict>)
  {
    Disagreeing(compared, ms) == AsMatches(cs)
  }

  lemma AgreeOnNothing(compared: seq<FieldDef>)
    ensures Agree(compared, [], [])
  {
  }

  lemma Glue(compared: seq<FieldDef>, p: seq<FieldMatch>, q: seq<FieldMatch>, cp: seq<Conflict>, cq: seq<Conflict>)
    requires Agree(compared, p, cp) && Agree(compared, q, cq)
    ensures Agree(compared, p + q, cp + cq)
  {
    DisagreeingConcat(compared, p, q);
    AsMatchesConcat(cp, cq);
  }

  lemma {:induction false} ConcatAgrees(compared: seq<FieldDef>, f: nat -> seq<FieldMatch>, g: nat -> seq<Conflict>, n: nat)
    requires forall k: nat :: k < n ==> Agree(compared, f(k), g(k))
    ensures Agree(compared, Concat(f, n), Concat(g, n))
  {
    if n == 0 {
      AgreeOnNothing(compared);
    } else {
      ConcatAgrees(compared, f, g, n - 1);
      Glue(compared, Concat(f, n - 1), f(n - 1), Concat(g, n - 1), g(n - 1));
    }
  }

  lemma OneMatch(compared: seq<FieldDef>, m: FieldMatch)
    ensures Disagreeing(compared, [m]) == if !m.exact && Names(compared, m.field) then [m] else []
  {
    assert [m][..0] == [];
  }

  lemma OneField(compared: seq<FieldDef>, f: FieldDef, a: Source, b: Source)
    ensures Agree(compared, MatchOn(f, a, b), if Names(compared, f.field) then ConflictOn(f, a, b) else [])
  {
    var x, y := Property(a.properties, f.aliases), Property(b.properties, f.aliases);
    if x.Some? && y.Some? {
      OneMatch(compared, FieldMatch(f.field, x.value, y.value, Matches(f.field, x.value, y.value)));
    }
  }

  ghost predicate Splits(all: seq<FieldDef>, compared: seq<FieldDef>)
  {
    && compared <= all
    && forall i :: |compared| <= i < |all| ==> !Names(compared, all[i].field)
  }

  lemma ComparedSplits(fields: seq<FieldDef>)
    requires DistinctNames(fields)
    ensures Splits(fields, Compared(fields))
  {
  }

  lemma PairAgrees(all: seq<FieldDef>, compared: seq<FieldDef>, a: Source, b: Source)
    requires Splits(all, compared)
    ensures Agree(compared, PairMatches(all, a, b), PairConflicts(compared, a, b))
  {
    var f, g := MatchesAt(all, a, b), ConflictsAt(compared, a, b);
    forall k: nat | k < |all| ensures Agree(compared, f(k), g(k)) {
      OneField(compared, all[k], a, b);
      if k < |compared| {
        assert compared[k] == all[k] && Names(compared, all[k].field);
      }
    }
    ConcatAgrees(compared, f, g, |all|);
    ConcatPadded(g, |compared|, |all|);
  }

  lemma RowAgrees(all: seq<FieldDef>, compared: seq<FieldDef>, sources: seq<Source>, i: nat)
    requires Splits(all, compared)
    ensures Agree(compared, Concat(RowMatches(all, sources, i), |sources|), Concat(RowConflicts(compared, sources, i), |sources|))
  {
    var f, g := RowMatches(all, sources, i), RowConflicts(compared, sources, i);
    forall j: nat | j < |sources| ensures Agree(compared, f(j), g(j)) {
      if i < j {
        PairAgrees(all, compared, sources[i], sources[j]);
      } else {
        AgreeOnNothing(compared);
      }
    }
    ConcatAgrees(compared, f, g, |sources|);
  }

  lemma AllAgree(all: seq<FieldDef>, compared: seq<FieldDef>, sources: seq<Source>)
    requires Splits(all, compared)
    ensures Agree(compared, Concat(AllMatches(all, sources), |sources|), Concat(AllConflicts(compared, sources), |sources|))
  {
    var f, g := AllMatches(all, sources), AllConflicts(compared, sources);
    forall i: nat | i < |sources| ensures Agree(compared, f(i), g(i)) {
      RowAgrees(all, compared, sources, i);
    }
    ConcatAgrees(compared, f, g, |sources|);
  }

  /** The conflicts of an identity are exactly its disagreeing matched fields
      among the first six identity fields, in the same order. */
  lemma ConflictsAreDisagreements(fields: seq<FieldDef>, sources: seq<Source>)
    requires DistinctNames(fields)
    ensures AsMatches(Conflicts(fields, sources)) == Disagreeing(Compared(fields), MatchedFields(fields, sources))
  {
    ComparedSplits(fields);
    AllAgree(fields, Compared(fields), sources);
  }

  // -------------------------------------------------------- merging the fields

  predicate Filled(v: Value)
  {
    !v.Undefined? && !v.Null? && v != Text("")
  }

  /** `merged` with the filled properties it does not have yet. */
  function Overlay(merged: Properties, props: Properties): Properties
  {
    map k | k in merged.Keys + props.Keys && (k in merged || Filled(props[k])) :: if k in merged then merged[k] else props[k]
  }

  function OverlayAll(sources: seq<Source>): Properties
  {
    if sources == [] then map[] else Overlay(OverlayAll(sources[..|sources| - 1]), sources[|sources| - 1].properties)
  }

  function SystemRank(): Source -> nat
  {
    (s: Source) => Rank(s.system)
  }

  function MergedFields(sources: seq<Source>): Properties
  {
    OverlayAll(Sort(RankOrder(SystemRank()), sources))
  }

  method MergeFields(sources: seq<Source>) returns (merged: Properties)
    ensures merged == MergedFields(sources)
  {
    merged := map[];
    var sorted := Sort(RankOrder(SystemRank()), sources);
    for i := 0 to |sorted|
      invariant merged == OverlayAll(sorted[..i])
    {
      assert sorted[..i + 1][..i] == sorted[..i];
      merged := AddProperties(merged, sorted[i].properties);
    }
    assert sorted[..|sorted|] == sorted;
  }

  method AddProperties(merged0: Properties, props: Properties) returns (merged: Properties)
    ensures merged == Overlay(merged0, props)
  {
    merged := merged0;
    var keys := props.Keys;
    while keys != {}
      invariant keys <= props.Keys
      invariant forall k :: k in merged <==> k in merged0 || (k in props && k !in keys && Filled(props[k]))
      invariant forall k :: k in merged ==> merged[k] == if k in merged0 then merged0[k] else props[k]
      decreases |keys|
    {
      var key :| key in keys;
      keys := keys - {key};
      if Filled(props[key]) && key !in merged {
        merged := merged[key := props[key]];
      }
    }
  }

  /** The value of a merged property is that of the first source, by priority of
      its system and then by arrival, that has the property filled. */
  lemma {:induction false} OverlayFirst(sources: seq<Source>, key: string)
    ensures key in OverlayAll(sources) <==> exists i :: 0 <= i < |sources| && HasFilled(sources[i], key)
    ensures key in OverlayAll(sources) ==> exists i :: FirstFilled(sources, i, key) && OverlayAll(sources)[key] == sources[i].properties[key]
  {
    if sources != [] {
      var k := |sources| - 1;
      var before := sources[..k];
      OverlayFirst(before, key);
      if key in OverlayAll(before) {
        var i :| FirstFilled(before, i, key) && OverlayAll(before)[key] == before[i].properties[key];
        assert FirstFilled(sources, i, key);
      } else {
        assert forall i :: 0 <= i < k ==> before[i] == sources[i];
        if HasFilled(sources[k], key) {
          assert FirstFilled(sources, k, key);
        }
      }
    }
  }

  predicate HasFilled(s: Source, key: string)
  {
    key in s.properties && s.properties[key] != Undefined && s.properties[key] != Null && s.properties[key] != Text("")
  }

  ghost predicate FirstFilled(sources: seq<Source>, i: int, key: string)
  {
    0 <= i < |sources| && HasFilled(sources[i], key) && forall j :: 0 <= j < i ==> !HasFilled(sources[j], key)
  }

  /** The merged fields depend only on the order of sources within each system:
      reordering sources of different systems changes nothing. */
  lemma MergeIgnoresOrderAcrossSystems(a: seq<Source>, b: seq<Source>)
    requires forall system: System :: OfSystem(a, system) == OfSystem(b, system)
    ensures MergedFields(a) == MergedFields(b)
  {
    SortIsBuckets(SystemRank(), a, 7);
    SortIsBuckets(SystemRank(), b, 7);
    forall r: nat | r < 7 ensures Filter(a, OfRank(SystemRank(), r)) == Filter(b, OfRank(SystemRank(), r)) {
      RankedIsOfSystem(a, r);
      RankedIsOfSystem(b, r);
      assert OfSystem(a, SystemAt(r)) == OfSystem(b, SystemAt(r));
    }
    SameBuckets(SystemRank(), a, b, 7);
  }

  function SystemAt(r: nat): System
    requires r < 7
  {
    if r == 0 then Manual else if r == 1 then ActiveDirectory else if r == 2 then EntraId else if r == 3 then FreeIpa
    else if r == 4 then Linux else if r == 5 then Ldap else Custom
  }

  lemma {:induction false} RankedIsOfSystem(a: seq<Source>, r: nat)
    requires r < 7
    ensures Filter(a, OfRank(SystemRank(), r)) == OfSystem(a, SystemAt(r))
  {
    if a != [] {
      var k := |a| - 1;
      RankedIsOfSystem(a[..k], r);
      assert OfRank(SystemRank(), r)(a[k]) <==> a[k].system == SystemAt(r);
    }
  }

  /** The sources of one system, in order of arrival. */
  function OfSystem(sources: seq<Source>, system: System): seq<Source>
  {
    if sources == [] then [] else
      var k := |sources| - 1;
      OfSystem(sources[..k], system) + (if sources[k].system == system then [sources[k]] else [])
  }

  // ------------------------------------------------------ which source wins

  /** Source `w` has the property filled, and every other source that has it comes
      later by priority of its system or, within one system, by arrival. */
  ghost predicate Wins(sources: seq<Source>, w: nat, key: string)
  {
    && w < |sources| && HasFilled(sources[w], key)
    && forall i :: 0 <= i < |sources| && i != w && HasFilled(sources[i], key) ==> Precedes(sources, w, i)
  }

  predicate Precedes(sources: seq<Source>, i: nat, j: nat)
    requires i < |sources| && j < |sources|
  {
    Rank(sources[i].system) < Rank(sources[j].system) || (Rank(sources[i].system) == Rank(sources[j].system) && i < j)
  }

  lemma {:induction false} OverlayConcat(a: seq<Source>, b: seq<Source>, key: string)
    ensures key in OverlayAll(a + b) <==> key in OverlayAll(a) || key in OverlayAll(b)
    ensures key in OverlayAll(a) ==> OverlayAll(a + b)[key] == OverlayAll(a)[key]
    ensures key !in OverlayAll(a) && key in OverlayAll(b) ==> OverlayAll(a + b)[key] == OverlayAll(b)[key]
  {
    if b == [] {
      assert a + b == a;
    } else {
      var k := |b| - 1;
      OverlayConcat(a, b[..k], key);
      assert (a + b)[..|a + b| - 1] == a + b[..k];
    }
  }

  /** Some source of rank `r` has the property filled. */
  ghost predicate FilledAt(sources: seq<Source>, r: nat, key: string)
  {
    exists i :: 0 <= i < |sources| && Rank(sources[i].system) == r && HasFilled(sources[i], key)
  }

  ghost predicate FirstAt(sources: seq<Source>, w: nat, r: nat, key: string)
  {
    && w < |sources| && Rank(sources[w].system) == r && HasFilled(sources[w], key)
    && forall i :: 0 <= i < w && Rank(sources[i].system) == r ==> !HasFilled(sources[i], key)
  }

  /** The overlay of the sources of one rank, in order of arrival. */
  function OverlayAt(sources: seq<Source>, r: nat): Properties
  {
    OverlayAll(Filter(sources, OfRank(SystemRank(), r)))
  }

  lemma OverlayAtLast(before: seq<Source>, x: Source, r: nat)
    ensures OverlayAt(before + [x], r) ==
      if Rank(x.system) == r then Overlay(OverlayAt(before, r), x.properties) else OverlayAt(before, r)
  {
    FilterAppend(before, x, OfRank(SystemRank(), r));
    if Rank(x.system) == r {
      OverlayMore(Filter(before, OfRank(SystemRank(), r)), x);
    } else {
      assert Filter(before, OfRank(SystemRank(), r)) + [] == Filter(before, OfRank(SystemRank(), r));
    }
  }

  lemma OverlayMore(sources: seq<Source>, x: Source)
    ensures OverlayAll(sources + [x]) == Overlay(OverlayAll(sources), x.properties)
  {
    assert (sources + [x])[..|sources|] == sources;
  }

  lemma OverlayHas(merged: Properties, s: Source, key: string)
    ensures key in Overlay(merged, s.properties) <==> key in merged || HasFilled(s, key)
  {
  }

  lemma {:induction false} OverlayAtHas(sources: seq<Source>, r: nat, key: string)
    ensures key in OverlayAt(sources, r) <==> FilledAt(sources, r, key)
  {
    if sources != [] {
      var k := |sources| - 1;
      assert sources[..k] + [sources[k]] == sources;
      OverlayAtHas(sources[..k], r, key);
      OverlayAtLast(sources[..k], sources[k], r);
      OverlayHas(OverlayAt(sources[..k], r), sources[k], key);
      FilledAppend(sources[..k], sources[k], r, key);
    }
  }

  lemma {:induction false} OverlayAtFirst(sources: seq<Source>, r: nat, w: nat, key: string)
    requires FirstAt(sources, w, r, key)
    ensures key in OverlayAt(sources, r) && OverlayAt(sources, r)[key] == sources[w].properties[key]
  {
    var k := |sources| - 1;
    var before := sources[..k];
    assert before + [sources[k]] == sources;
    OverlayAtLast(before, sources[k], r);
    if w < k {
      assert forall i :: 0 <= i < w ==> before[i] == sources[i];
      OverlayAtFirst(before, r, w, key);
    } else {
      OverlayAtHas(before, r, key);
      forall i | 0 <= i < |before| && Rank(before[i].system) == r ensures !HasFilled(before[i], key) {
        assert sources[i] == before[i];
      }
    }
  }

  lemma FilledAppend(before: seq<Source>, x: Source, r: nat, key: string)
    ensures FilledAt(before + [x], r, key) <==> FilledAt(before, r, key) || (Rank(x.system) == r && HasFilled(x, key))
  {
    var all := before + [x];
    if FilledAt(before, r, key) {
      var i :| 0 <= i < |before| && Rank(before[i].system) == r && HasFilled(before[i], key);
      assert all[i] == before[i];
    }
    assert all[|before|] == x;
  }

  /** At ranks before the winner's nothing is filled, at its own it is the first. */
  lemma WinnerAt(sources: seq<Source>, r: nat, w: nat, key: string)
    requires Wins(sources, w, key) && r <= Rank(sources[w].system)
    ensures r < Rank(sources[w].system) ==> key !in OverlayAt(sources, r)
    ensures r == Rank(sources[w].system) ==>
      key in OverlayAt(sources, r) && OverlayAt(sources, r)[key] == sources[w].properties[key]
  {
    if r < Rank(sources[w].system) {
      OverlayAtHas(sources, r, key);
      forall i | 0 <= i < |sources| && Rank(sources[i].system) == r ensures !HasFilled(sources[i], key) {
        assert !Precedes(sources, w, i);
      }
    } else {
      forall i | 0 <= i < w && Rank(sources[i].system) == r ensures !HasFilled(sources[i], key) {
        assert !Precedes(sources, w, i);
      }
      OverlayAtFirst(sources, r, w, key);
    }
  }

  lemma {:induction false} BucketsOverlay(sources: seq<Source>, n: nat, w: nat, key: string)
    requires Wins(sources, w, key)
    ensures var all := OverlayAll(Buckets(SystemRank(), sources, n));
      if n <= Rank(sources[w].system) then key !in all else key in all && all[key] == sources[w].properties[key]
  {
    if n > 0 {
      var r := n - 1;
      var lower, top := Buckets(SystemRank(), sources, r), Filter(sources, OfRank(SystemRank(), r));
      assert Buckets(SystemRank(), sources, n) == lower + top;
      BucketsOverlay(sources, r, w, key);
      OverlayConcat(lower, top, key);
      if r <= Rank(sources[w].system) {
        WinnerAt(sources, r, w, key);
        assert OverlayAt(sources, r) == OverlayAll(top);
      }
    }
  }

  /** If any source has the property filled, one wins. */
  lemma {:induction false} SomeSourceWins(sources: seq<Source>, key: string, i: nat) returns (w: nat)
    requires i < |sources| && HasFilled(sources[i], key)
    ensures Wins(sources, w, key)
    decreases Rank(sources[i].system), i
  {
    if j :| 0 <= j < |sources| && j != i && HasFilled(sources[j], key) && !Precedes(sources, i, j) {
      w := SomeSourceWins(sources, key, j);
    } else {
      w := i;
    }
  }

  /** A merged property is present exactly if some source has it filled, and its
      value is that of the winning source. */
  lemma MergedValue(sources: seq<Source>, key: string)
    ensures key in MergedFields(sources) <==> exists w: nat :: Wins(sources, w, key)
    ensures forall w: nat :: Wins(sources, w, key) ==> key in MergedFields(sources) && MergedFields(sources)[key] == sources[w].properties[key]
  {
    SortIsBuckets(SystemRank(), sources, 7);
    forall w: nat | Wins(sources, w, key) ensures key in MergedFields(sources) && MergedFields(sources)[key] == sources[w].properties[key] {
      BucketsOverlay(sources, 7, w, key);
    }
    if key in MergedFields(sources) {
      var sorted := Sort(RankOrder(SystemRank()), sources);
      OverlayFirst(sorted, key);
      var i :| FirstFilled(sorted, i, key);
      SortMember(RankOrder(SystemRank()), sources, sorted[i]);
      var j :| 0 <= j < |sources| && sources[j] == sorted[i];
      var w := SomeSourceWins(sources, key, j);
    }
  }
}
