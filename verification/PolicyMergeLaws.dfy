/** What a merge promises about the policy it returns. */
module PolicyMergeLaws {
  import opened Base
  import opened Decimal
  import opened Json
  import opened CanonicalJson
  import opened PolicyMerge
  import Utf8

  // ---------------------------------------------------------------- key order does not matter

  lemma SameProperty(a: Json, b: Json, key: Text)
    requires Same(a, b)
    ensures Property(a, key).Some? <==> Property(b, key).Some?
    ensures Property(a, key).Some? ==> Same(Property(a, key).value, Property(b, key).value)
  {
    if a.Obj? && key in Keys(a.members) {
      var i := IndexOf(a.members, key);
      assert Keys(a.members)[i] == key;
    }
  }

  lemma {:induction false} SameStrings(a: seq<Json>, b: seq<Json>)
    requires |a| == |b| && forall i :: 0 <= i < |a| ==> Same(a[i], b[i])
    ensures Strings(a) == Strings(b)
  {
    if a != [] {
      assert Same(a[0], b[0]);
      assert forall i :: 0 <= i < |a| - 1 ==> Same(a[1..][i], b[1..][i]);
      SameStrings(a[1..], b[1..]);
    }
  }

  lemma SameStringValues(a: Json, b: Json, key: Text)
    requires Same(a, b)
    ensures StringValues(Property(a, key)) == StringValues(Property(b, key))
  {
    hide Property;
    SameProperty(a, b, key);
    match Property(a, key)
    case Some(Arr(items)) => SameStrings(items, Property(b, key).value.items);
    case _ =>
  }

  /** A statement's Sid and reach are the same whatever the order of its keys. */
  lemma SameStatement(a: Json, b: Json)
    requires Same(a, b)
    ensures SidOf(a) == SidOf(b) && (Wildcard(a) <==> Wildcard(b))
  {
    hide Property, StringValues;
    SameProperty(a, b, SID);
    SameStringValues(a, b, ACTION);
    SameStringValues(a, b, RESOURCE);
  }

  // ---------------------------------------------------------------- pushing a statement

  lemma StatementsReplaced(v: Json, statements: seq<Json>)
    requires HasPolicyShape(v) && Unique(v)
    ensures var w := WithStatements(v, statements);
      && HasPolicyShape(w) && Statements(w) == statements
      && Keys(w.members) == Keys(v.members)
      && forall key :: key != STATEMENT ==> Property(w, key) == Property(v, key)
  {
    hide IndexOf;
    var w := WithStatements(v, statements);
    assert Keys(w.members) == Keys(v.members);
    forall key | key in Keys(v.members) ensures IndexOf(w.members, key) == IndexOf(v.members, key) {
      var i := IndexOf(v.members, key);
      assert Keys(v.members)[i] == key;
      IndexIsUnique(w.members, i);
    }
    assert VERSION != STATEMENT by { assert VERSION[0] != STATEMENT[0]; }
    assert VERSION in Keys(v.members);
  }

  lemma UpdatedIsUnique(v: Json, grant: Json)
    requires HasPolicyShape(v) && Unique(v) && Unique(grant)
    ensures Unique(WithStatements(v, Statements(v) + [grant]))
  {
    hide IndexOf;
    StatementsReplaced(v, Statements(v) + [grant]);
    var i := IndexOf(v.members, STATEMENT);
    assert Unique(v.members[i].value);
    assert Unique(Arr(Statements(v) + [grant]));
  }

  lemma StatementIsUnique(v: Json, k: nat)
    requires HasPolicyShape(v) && Unique(v) && k < |Statements(v)|
    ensures Unique(Statements(v)[k])
  {
    assert Unique(v.members[IndexOf(v.members, STATEMENT)].value);
  }

  // ---------------------------------------------------------------- main results

  /** The first statement about the publisher, if any, is the grant up to key order. */
  predicate NoConflict(statements: seq<Json>, arn: Text, grant: Json) {
    var target := FirstTarget(statements, arn, 0);
    target.Some? ==> Same(statements[target.value], grant)
  }

  predicate IsPolicy(v: Json) {
    HasPolicyShape(v) && forall i :: 0 <= i < |Statements(v)| ==> Statements(v)[i].Obj?
  }

  lemma MergeDecision(sha: Sha256, input: Json, expected: Text, arn: Text, grant: Json)
    requires Unique(input) && Unique(grant)
    ensures Merge(sha, input, expected, arn, grant).Ok? <==>
      && IsPolicy(input) && IsSha256(expected) && Digest(sha, input) == expected
      && SidsDiffer(Statements(input)) && NoWildcard(Statements(input))
      && NoConflict(Statements(input), arn, grant)
      && Bytes(Updated(input, grant, FirstTarget(Statements(input), arn, 0).Some?)) <= MAX_POLICY_BYTES
  {
    hide Canon, SidsDiffer, NoWildcard, FirstFault, Bytes, IsSha256, Digest, Updated;
    if IsPolicy(input) {
      CleanPass(Statements(input));
      var target := FirstTarget(Statements(input), arn, 0);
      if target.Some? {
        StatementIsUnique(input, target.value);
        CanonIsExact(Statements(input)[target.value], grant);
      }
    }
  }

  predicate HoldsGrantOnce(statements: seq<Json>, grant: Json) {
    exists k ::
      && 0 <= k < |statements| && SidOf(statements[k]) == Some(PUBLISHER_SID) && Same(statements[k], grant)
      && forall j :: 0 <= j < |statements| && SidOf(statements[j]) == Some(PUBLISHER_SID) ==> j == k
  }

  /** What a successful merge leaves: the earlier statements in order, distinct Sids, the grant exactly once,
      and every other property of the policy as it was. */
  lemma MergeMeaning(sha: Sha256, input: Json, expected: Text, arn: Text, grant: Json)
    requires Unique(input) && Unique(grant) && SidOf(grant) == Some(PUBLISHER_SID)
    requires Merge(sha, input, expected, arn, grant).Ok?
    ensures var m := Merge(sha, input, expected, arn, grant).value;
      && IsPolicy(input) && HasPolicyShape(m.updated) && Unique(m.updated)
      && Statements(m.updated) == Statements(input) + (if m.grantAlreadyPresent then [] else [grant])
      && SidsDiffer(Statements(m.updated))
      && HoldsGrantOnce(Statements(m.updated), grant)
      && forall key :: key != STATEMENT ==> Property(m.updated, key) == Property(input, key)
  {
    hide Canon, SidsDiffer, NoWildcard, FirstFault, Bytes, IsSha256, Digest, SidOf, HasPolicyShape, Statements,
         WithStatements;
    var m := Merge(sha, input, expected, arn, grant).value;
    MergeDecision(sha, input, expected, arn, grant);
    var statements := Statements(input);
    var target := FirstTarget(statements, arn, 0);
    if target.Some? {
      SameStatement(statements[target.value], grant);
      assert statements + [] == statements;
      PublisherIsUnique(statements, grant, target.value);
    } else {
      StatementsReplaced(input, statements + [grant]);
      UpdatedIsUnique(input, grant);
      PushedSidDiffers(statements, arn, grant);
    }
  }

  lemma PublisherIsUnique(statements: seq<Json>, grant: Json, k: nat)
    requires SidsDiffer(statements) && k < |statements|
    requires SidOf(statements[k]) == Some(PUBLISHER_SID) && Same(statements[k], grant)
    ensures HoldsGrantOnce(statements, grant)
  {
    hide SidOf;
    forall j | 0 <= j < |statements| && SidOf(statements[j]) == Some(PUBLISHER_SID) ensures j == k {
    }
  }

  lemma {:induction false} SameAsItself(v: Json)
    requires Unique(v)
    ensures Same(v, v)
  {
    OneNormalIsSame(v, v);
  }

  lemma PublisherSidIsTarget(s: Json, arn: Text)
    requires SidOf(s) == Some(PUBLISHER_SID)
    ensures IsTarget(s, arn)
  {
  }

  lemma PushedSidDiffers(statements: seq<Json>, arn: Text, grant: Json)
    requires SidsDiffer(statements) && Unique(grant) && SidOf(grant) == Some(PUBLISHER_SID)
    requires FirstTarget(statements, arn, 0).None?
    ensures SidsDiffer(statements + [grant]) && HoldsGrantOnce(statements + [grant], grant)
  {
    hide SidOf, IsTarget, FirstTarget;
    forall j | 0 <= j < |statements| ensures SidOf(statements[j]) != Some(PUBLISHER_SID) {
      if SidOf(statements[j]) == Some(PUBLISHER_SID) { PublisherSidIsTarget(statements[j], arn); }
    }
    SameAsItself(grant);
    PublisherIsUnique(statements + [grant], grant, |statements|);
  }

  /** The canonical text changes exactly when the grant was missing. */
  lemma TextChangesExactlyWhenAdded(sha: Sha256, input: Json, expected: Text, arn: Text, grant: Json)
    requires Unique(input) && Unique(grant)
    requires Merge(sha, input, expected, arn, grant).Ok?
    ensures var m := Merge(sha, input, expected, arn, grant).value;
      Canon(m.updated) == Canon(m.current) <==> m.grantAlreadyPresent
  {
    hide Canon, FirstFault, Bytes, IsSha256, Digest, HasPolicyShape, Statements, WithStatements, Same;
    var m := Merge(sha, input, expected, arn, grant).value;
    if !m.grantAlreadyPresent {
      StatementsReplaced(input, Statements(input) + [grant]);
      UpdatedIsUnique(input, grant);
      CanonIsExact(m.updated, input);
      if Same(m.updated, input) { SameStatementCount(m.updated, input); }
    }
  }

  lemma SameStatementCount(a: Json, b: Json)
    requires HasPolicyShape(a) && HasPolicyShape(b) && Same(a, b)
    ensures |Statements(a)| == |Statements(b)|
  {
    SameProperty(a, b, STATEMENT);
  }

  /** Merging again, with the hash of the result, changes nothing; it goes through unless the grant itself
      lets its holder assume every role. */
  lemma MergeIsIdempotent(sha: Sha256, input: Json, expected: Text, arn: Text, grant: Json)
    requires Unique(input) && Unique(grant) && grant.Obj? && SidOf(grant) == Some(PUBLISHER_SID)
    requires Merge(sha, input, expected, arn, grant).Ok?
    requires IsSha256(Merge(sha, input, expected, arn, grant).value.updatedSha256)
    ensures var m := Merge(sha, input, expected, arn, grant).value;
      var again := Merge(sha, m.updated, m.updatedSha256, arn, grant);
      && (again.Ok? <==> !AssumesAnyRole(grant))
      && (again.Ok? ==>
            again.value == Merged(m.updated, m.updatedSha256, m.updated, m.updatedSha256, m.updatedBytes, true))
  {
    hide Canon, Bytes, IsSha256, Digest, SidOf, HasPolicyShape, Statements, WithStatements, Same, Wildcard,
         HoldsGrantOnce, SidsDiffer, NoWildcard, FirstFault, IsTarget, AssumesAnyRole;
    WildcardMeaning(grant);
    var m := Merge(sha, input, expected, arn, grant).value;
    MergeDecision(sha, input, expected, arn, grant);
    MergeMeaning(sha, input, expected, arn, grant);
    TargetAfterMerge(Statements(input), arn, grant);
    WildcardsAfterMerge(Statements(input), arn, grant);
    assert m.grantAlreadyPresent ==> Statements(input) + [] == Statements(input);
    CleanPass(Statements(m.updated));
    MergeDecision(sha, m.updated, m.updatedSha256, arn, grant);
  }

  lemma TargetAfterMerge(statements: seq<Json>, arn: Text, grant: Json)
    requires Unique(grant) && SidOf(grant) == Some(PUBLISHER_SID) && NoConflict(statements, arn, grant)
    ensures FirstTarget(statements, arn, 0).None? ==>
      FirstTarget(statements + [grant], arn, 0) == Some(|statements|) && NoConflict(statements + [grant], arn, grant)
  {
    hide SidOf, IsTarget, Same, FirstTarget;
    PublisherSidIsTarget(grant, arn);
    SameAsItself(grant);
    var pushed := statements + [grant];
    if FirstTarget(statements, arn, 0).None? {
      assert IsTarget(pushed[|statements|], arn);
    }
  }

  lemma WildcardsAfterMerge(statements: seq<Json>, arn: Text, grant: Json)
    requires NoWildcard(statements) && NoConflict(statements, arn, grant)
    ensures FirstTarget(statements, arn, 0).Some? ==> !Wildcard(grant)
    ensures NoWildcard(statements + [grant]) <==> !Wildcard(grant)
  {
    hide Wildcard, Same;
    var target := FirstTarget(statements, arn, 0);
    if target.Some? { SameStatement(statements[target.value], grant); }
    assert (statements + [grant])[|statements|] == grant;
  }

  // ---------------------------------------------------------------- the grant that is merged

  /** The statement built for the publisher role. */
  function PublisherGrant(arn: Text): Json {
    Obj([Member(SID, Str(PUBLISHER_SID)), Member(EFFECT, Str(ALLOW)), Member(ACTION, Str(ASSUME_ROLE)),
         Member(RESOURCE, Str(arn))])
  }

  lemma PublisherGrantMeaning(arn: Text)
    ensures var g := PublisherGrant(arn);
      Unique(g) && SidOf(g) == Some(PUBLISHER_SID) && IncludesValue(g, arn) && (Wildcard(g) <==> arn == STAR)
      && (AssumesAnyRole(g) <==> arn == STAR)
  {
    var g := PublisherGrant(arn);
    var keys := Keys(g.members);
    assert keys == [SID, EFFECT, ACTION, RESOURCE];
    assert |SID| == 3 && |EFFECT| == 6 && |ACTION| == 6 && |RESOURCE| == 8 && EFFECT[0] != ACTION[0];
    assert Distinct(keys);
    IndexIsUnique(g.members, 0);
    IndexIsUnique(g.members, 2);
    IndexIsUnique(g.members, 3);
    assert keys[0] == SID && keys[2] == ACTION && keys[3] == RESOURCE;
    assert IncludesValue(g.members[3].value, arn);
    WildcardMeaning(g);
  }

  // ---------------------------------------------------------------- when a merge goes through

  /** What lies in `v` at the end of a path of positions. */
  function At(v: Json, path: seq<nat>): Option<Json>
    decreases |path|
  {
    if path == [] then Some(v)
    else
      match v
      case Arr(items) => if path[0] < |items| then At(items[path[0]], path[1..]) else None
      case Obj(members) => if path[0] < |members| then At(members[path[0]].value, path[1..]) else None
      case _ => None
  }

  /** The text stands somewhere in `v` as a value, at any depth. */
  ghost predicate Mentions(v: Json, t: Text) { exists path :: At(v, path) == Some(Str(t)) }

  lemma {:induction false} FoundIsMentioned(v: Json, t: Text) returns (path: seq<nat>)
    requires IncludesValue(v, t)
    ensures At(v, path) == Some(Str(t))
  {
    match v
    case Arr(items) =>
      var i :| 0 <= i < |items| && IncludesValue(items[i], t);
      var rest := FoundIsMentioned(items[i], t);
      path := [i] + rest;
      assert path[1..] == rest;
    case Obj(members) =>
      var i :| 0 <= i < |members| && IncludesValue(members[i].value, t);
      var rest := FoundIsMentioned(members[i].value, t);
      path := [i] + rest;
      assert path[1..] == rest;
    case _ =>
      path := [];
  }

  lemma {:induction false} MentionedIsFound(v: Json, t: Text, path: seq<nat>)
    requires At(v, path) == Some(Str(t))
    ensures IncludesValue(v, t)
    decreases |path|
  {
    if path != [] {
      match v
      case Arr(items) => MentionedIsFound(items[path[0]], t, path[1..]);
      case Obj(members) => MentionedIsFound(members[path[0]].value, t, path[1..]);
    }
  }

  /** The search finds a text exactly when some path leads to it. */
  lemma MentionMeaning(v: Json, t: Text)
    ensures IncludesValue(v, t) <==> Mentions(v, t)
  {
    hide IncludesValue, At;
    if IncludesValue(v, t) { var path := FoundIsMentioned(v, t); }
    if Mentions(v, t) {
      var path :| At(v, path) == Some(Str(t));
      MentionedIsFound(v, t, path);
    }
  }

  /** A statement about the publisher role. */
  ghost predicate IsAbout(s: Json, arn: Text) { Property(s, SID) == Some(Str(PUBLISHER_SID)) || Mentions(s, arn) }

  lemma TargetMeaning(statements: seq<Json>, arn: Text)
    ensures forall k :: 0 <= k < |statements| ==> (IsTarget(statements[k], arn) <==> IsAbout(statements[k], arn))
  {
    forall k | 0 <= k < |statements| ensures IsTarget(statements[k], arn) <==> IsAbout(statements[k], arn) {
      MentionMeaning(statements[k], arn);
    }
  }

  ghost predicate IsFirstAbout(statements: seq<Json>, arn: Text, k: nat) {
    k < |statements| && IsAbout(statements[k], arn) && forall j :: 0 <= j < k ==> !IsAbout(statements[j], arn)
  }

  lemma FirstTargetMeaning(statements: seq<Json>, arn: Text)
    ensures var target := FirstTarget(statements, arn, 0);
      forall k: nat {:trigger IsFirstAbout(statements, arn, k)} ::
        IsFirstAbout(statements, arn, k) <==> target == Some(k)
  {
    hide IsTarget, IsAbout;
    TargetMeaning(statements, arn);
  }

  /** 64 lower-case hexadecimal digits. */
  predicate IsLowerHex64(t: Text) { |t| == 64 && forall i :: 0 <= i < 64 ==> 48 <= t[i] <= 57 || 97 <= t[i] <= 102 }

  /** A policy of the right version whose statements are all objects. */
  predicate IsStatementList(v: Json, statements: seq<Json>) {
    && v.Obj? && Property(v, VERSION) == Some(Str(VERSION_2012)) && Property(v, STATEMENT) == Some(Arr(statements))
    && forall i :: 0 <= i < |statements| ==> statements[i].Obj?
  }

  lemma PolicyMeaning(v: Json, statements: seq<Json>)
    ensures IsStatementList(v, statements) <==> IsPolicy(v) && Statements(v) == statements
  {
  }

  /** The input is a policy with these statements and the approved hash, every statement has a Sid of its own, none
      assumes every role, the first one about the publisher role, if any, is the grant up to key order, and the
      result takes at most 32768 bytes. */
  ghost predicate MayMerge(
    sha: Sha256, input: Json, statements: seq<Json>, expected: Text, arn: Text, grant: Json)
  {
    && IsStatementList(input, statements)
    && IsLowerHex64(expected) && sha(Utf8.Encode(Canon(input))) == expected
    && OwnSids(statements) && (forall k :: 0 <= k < |statements| ==> !AssumesAnyRole(statements[k]))
    && (forall k: nat :: IsFirstAbout(statements, arn, k) ==> Same(statements[k], grant))
    && |Utf8.Encode(Canon(if exists k: nat :: IsFirstAbout(statements, arn, k) then input
                          else WithStatements(input, statements + [grant])))| <= 32_768
  }

  lemma HexMeaning(t: Text)
    ensures IsSha256(t) <==> IsLowerHex64(t)
  {
  }

  lemma MergeMeansMayMerge(sha: Sha256, input: Json, statements: seq<Json>, expected: Text, arn: Text, grant: Json)
    requires Unique(input) && Unique(grant) && IsStatementList(input, statements)
    ensures Merge(sha, input, expected, arn, grant).Ok? <==> MayMerge(sha, input, statements, expected, arn, grant)
  {
    hide Merge, Canon, Same, Unique, IsSha256, IsLowerHex64, IsStatementList, IsPolicy, Statements, HasPolicyShape,
         SidsDiffer, NoWildcard, OwnSids, AssumesAnyRole, FirstTarget, IsFirstAbout, WithStatements;
    MergeDecision(sha, input, expected, arn, grant);
    PolicyMeaning(input, statements);
    HexMeaning(expected);
    NoFault(statements);
    CleanPass(statements);
    FirstTargetMeaning(statements, arn);
    if FirstTarget(statements, arn, 0).Some? {
      assert IsFirstAbout(statements, arn, FirstTarget(statements, arn, 0).value);
    }
  }

  lemma MayMergeMeansPolicy(sha: Sha256, input: Json, statements: seq<Json>, expected: Text, arn: Text, grant: Json)
    requires MayMerge(sha, input, statements, expected, arn, grant)
    ensures IsStatementList(input, statements)
  {
  }

  lemma MergedIsPolicy(sha: Sha256, input: Json, expected: Text, arn: Text, grant: Json)
    requires Merge(sha, input, expected, arn, grant).Ok?
    ensures HasPolicyShape(input) && IsStatementList(input, Statements(input))
  {
    hide Canon, FirstFault, FirstTarget, IsSha256, Bytes, Digest;
  }

  /** When a merge goes through, in terms of the policy alone. */
  lemma MergeSucceedsExactlyWhen(sha: Sha256, input: Json, expected: Text, arn: Text, grant: Json)
    requires Unique(input) && Unique(grant)
    ensures Merge(sha, input, expected, arn, grant).Ok? <==>
      exists statements :: MayMerge(sha, input, statements, expected, arn, grant)
  {
    hide Merge, MayMerge, IsStatementList;
    if Merge(sha, input, expected, arn, grant).Ok? {
      MergedIsPolicy(sha, input, expected, arn, grant);
      MergeMeansMayMerge(sha, input, Statements(input), expected, arn, grant);
    }
    if statements :| MayMerge(sha, input, statements, expected, arn, grant) {
      MayMergeMeansPolicy(sha, input, statements, expected, arn, grant);
      MergeMeansMayMerge(sha, input, statements, expected, arn, grant);
    }
  }

  lemma {:induction false} FirstFaultIs(statements: seq<Json>, k: nat, i: nat)
    requires k <= i < |statements| && StatementFault(statements, i).Some?
    requires forall j :: k <= j < i ==> StatementFault(statements, j).None?
    ensures FirstFault(statements, k) == StatementFault(statements, i)
    decreases i - k
  {
    hide StatementFault;
    if k < i { FirstFaultIs(statements, k + 1, i); }
  }

  lemma {:induction false} FirstFaultAt(statements: seq<Json>, k: nat) returns (i: nat)
    requires k <= |statements| && FirstFault(statements, k).Some?
    ensures k <= i < |statements| && FirstFault(statements, k) == StatementFault(statements, i)
    ensures forall j :: k <= j < i ==> StatementFault(statements, j).None?
    decreases |statements| - k
  {
    hide StatementFault;
    if StatementFault(statements, k).Some? { i := k; } else { i := FirstFaultAt(statements, k + 1); }
  }

  /** Statement `k` assumes every role, and everything before it and its own Sid are in order. */
  predicate IsFirstWildcard(statements: seq<Json>, k: nat) {
    && k < |statements| && AssumesAnyRole(statements[k]) && OwnSids(statements[..k + 1])
    && forall j :: 0 <= j < k ==> !AssumesAnyRole(statements[j])
  }

  lemma FirstWildcardMeaning(statements: seq<Json>, k: nat)
    requires k < |statements|
    ensures IsFirstWildcard(statements, k) <==>
      && StatementFault(statements, k) == Some(WildcardAssumeRole)
      && forall j :: 0 <= j < k ==> StatementFault(statements, j).None?
  {
    hide SidOf, Wildcard, OwnSids, AssumesAnyRole;
    var upto := statements[..k + 1];
    forall j | 0 <= j <= k
      ensures Wildcard(statements[j]) <==> AssumesAnyRole(statements[j])
      ensures upto[j] == statements[j]
    {
      WildcardMeaning(statements[j]);
    }
    SidsDifferMeaning(upto);
    if IsFirstWildcard(statements, k) {
      forall j | 0 <= j <= k
        ensures SidOf(statements[j]).Some?
        ensures forall i :: 0 <= i < j ==> SidOf(statements[i]) != SidOf(statements[j])
      {
        assert SidOf(upto[j]).Some?;
        forall i | 0 <= i < j ensures SidOf(statements[i]) != SidOf(statements[j]) {
          assert SidOf(upto[i]) != SidOf(upto[j]);
        }
      }
    } else if StatementFault(statements, k) == Some(WildcardAssumeRole)
        && forall j :: 0 <= j < k ==> StatementFault(statements, j).None? {
      forall j | 0 <= j <= k
        ensures SidOf(upto[j]).Some? && (j < k ==> !Wildcard(statements[j]))
        ensures forall i :: 0 <= i < j ==> SidOf(upto[i]) != SidOf(upto[j])
      {
        if j < k { assert StatementFault(statements, j).None?; }
      }
      assert false;
    }
  }

  /** A merge is refused for a statement that assumes every role exactly when there is one, in a policy with the
      approved hash, and everything before it and its own Sid are in order. */
  lemma RefusedAsWildcardExactlyWhen(
    sha: Sha256, input: Json, statements: seq<Json>, expected: Text, arn: Text, grant: Json)
    requires IsStatementList(input, statements) && IsLowerHex64(expected) && sha(Utf8.Encode(Canon(input))) == expected
    ensures Merge(sha, input, expected, arn, grant) == Err(WildcardAssumeRole) <==>
      exists k: nat :: IsFirstWildcard(statements, k)
  {
    hide Canon, Same, IsSha256, IsLowerHex64, IsFirstWildcard, StatementFault, FirstFault, FirstTarget, Bytes;
    HexMeaning(expected);
    PolicyMeaning(input, statements);
    if FirstFault(statements, 0) == Some(WildcardAssumeRole) {
      var k := FirstFaultAt(statements, 0);
      FirstWildcardMeaning(statements, k);
    }
    if k: nat :| IsFirstWildcard(statements, k) {
      WithinStatements(statements, k);
      FirstWildcardMeaning(statements, k);
      FirstFaultIs(statements, 0, k);
    }
  }

  lemma WithinStatements(statements: seq<Json>, k: nat)
    requires IsFirstWildcard(statements, k)
    ensures k < |statements|
  {
  }

  // ---------------------------------------------------------------- which mentions are compared

  predicate OnlyGrantMentions(statements: seq<Json>, arn: Text, grant: Json) {
    forall k :: 0 <= k < |statements| && IncludesValue(statements[k], arn) ==> Same(statements[k], grant)
  }

  /** Only the first statement about the publisher is compared with the grant, so the merged policy names the
      role in no other statement exactly when none after that first one names it. */
  lemma OnlyGrantMentionsExactlyWhen(sha: Sha256, input: Json, expected: Text, arn: Text, grant: Json)
    requires Unique(input) && Unique(grant) && SidOf(grant) == Some(PUBLISHER_SID)
    requires Merge(sha, input, expected, arn, grant).Ok?
    ensures HasPolicyShape(input) && HasPolicyShape(Merge(sha, input, expected, arn, grant).value.updated)
    ensures var statements := Statements(input);
      var target := FirstTarget(statements, arn, 0);
      OnlyGrantMentions(Statements(Merge(sha, input, expected, arn, grant).value.updated), arn, grant) <==>
      target.Some? ==> forall k :: target.value < k < |statements| ==> !IncludesValue(statements[k], arn)
  {
    hide Canon, FirstFault, Bytes, IsSha256, Digest, HasPolicyShape, Statements, WithStatements, Same, SidOf,
         IncludesValue, Property, Wildcard, HoldsGrantOnce;
    MergeDecision(sha, input, expected, arn, grant);
    MergeMeaning(sha, input, expected, arn, grant);
    var statements := Statements(input);
    var target := FirstTarget(statements, arn, 0);
    SameAsItself(grant);
    if target.Some? {
      assert statements + [] == statements;
      SameStatement(statements[target.value], grant);
      forall k | target.value < k < |statements| ensures !Same(statements[k], grant) {
        assert SidOf(statements[target.value]) != SidOf(statements[k]);
        if Same(statements[k], grant) { SameStatement(statements[k], grant); }
      }
    }
  }

  // ---------------------------------------------------------------- the approved hash fixes the outcome

  lemma SameIsSymmetric(a: Json, b: Json)
    requires Unique(a) && Unique(b) && Same(a, b)
    ensures Same(b, a)
  {
    CanonIsExact(a, b);
    CanonIsExact(b, a);
  }

  lemma {:induction false} SameKeepsMention(a: Json, b: Json, t: Text)
    requires Same(a, b) && IncludesValue(a, t)
    ensures IncludesValue(b, t)
    decreases a
  {
    match a
    case Arr(items) =>
      var i :| 0 <= i < |items| && IncludesValue(items[i], t);
      SameKeepsMention(items[i], b.items[i], t);
    case Obj(members) =>
      var i :| 0 <= i < |members| && IncludesValue(members[i].value, t);
      var j := IndexOf(b.members, Keys(members)[i]);
      assert Same(members[i].value, b.members[j].value);
      SameKeepsMention(members[i].value, b.members[j].value, t);
      assert IncludesValue(b.members[j].value, t);
    case _ =>
  }

  lemma SameTarget(a: Json, b: Json, arn: Text)
    requires Unique(a) && Unique(b) && Same(a, b)
    ensures IsTarget(a, arn) <==> IsTarget(b, arn)
  {
    hide IncludesValue, Same;
    SameIsSymmetric(a, b);
    if IncludesValue(a, arn) { SameKeepsMention(a, b, arn); }
    if IncludesValue(b, arn) { SameKeepsMention(b, a, arn); }
    SameSid(a, b);
  }

  lemma SameSid(a: Json, b: Json)
    requires Same(a, b)
    ensures Property(a, SID) == Some(Str(PUBLISHER_SID)) <==> Property(b, SID) == Some(Str(PUBLISHER_SID))
  {
    SameProperty(a, b, SID);
  }

  predicate SameStatements(a: seq<Json>, b: seq<Json>) {
    |a| == |b| && forall k :: 0 <= k < |a| ==> Unique(a[k]) && Unique(b[k]) && Same(a[k], b[k])
  }

  lemma SamePolicies(a: Json, b: Json)
    requires Unique(a) && Unique(b) && Same(a, b) && IsPolicy(a)
    ensures IsPolicy(b) && SameStatements(Statements(a), Statements(b))
  {
    hide IndexOf;
    SameProperty(a, b, VERSION);
    SameProperty(a, b, STATEMENT);
    forall k | 0 <= k < |Statements(a)|
      ensures Unique(Statements(a)[k]) && Unique(Statements(b)[k]) && Same(Statements(a)[k], Statements(b)[k])
    {
      StatementIsUnique(a, k);
      StatementIsUnique(b, k);
    }
  }

  lemma {:induction false} SameFirstTarget(a: seq<Json>, b: seq<Json>, arn: Text, k: nat)
    requires SameStatements(a, b) && k <= |a|
    ensures FirstTarget(a, arn, k) == FirstTarget(b, arn, k)
    decreases |a| - k
  {
    hide IsTarget, Same, Unique;
    if k < |a| {
      SameTarget(a[k], b[k], arn);
      SameFirstTarget(a, b, arn, k + 1);
    }
  }

  lemma SameChecks(a: seq<Json>, b: seq<Json>)
    requires SameStatements(a, b)
    ensures SidsDiffer(a) <==> SidsDiffer(b)
    ensures NoWildcard(a) <==> NoWildcard(b)
  {
    hide SidOf, Wildcard, Same, Unique;
    forall k | 0 <= k < |a| ensures SidOf(a[k]) == SidOf(b[k]) && (Wildcard(a[k]) <==> Wildcard(b[k])) {
      SameStatement(a[k], b[k]);
    }
  }

  lemma SameNoConflict(a: seq<Json>, b: seq<Json>, arn: Text, grant: Json)
    requires SameStatements(a, b) && Unique(grant) && NoConflict(a, arn, grant)
    ensures NoConflict(b, arn, grant)
  {
    hide Same, Unique, FirstTarget;
    SameFirstTarget(a, b, arn, 0);
    var target := FirstTarget(a, arn, 0);
    if target.Some? {
      CanonIsExact(a[target.value], b[target.value]);
      CanonIsExact(a[target.value], grant);
      CanonIsExact(b[target.value], grant);
    }
  }

  lemma SameFromProperties(a: Json, b: Json)
    requires a.Obj? && b.Obj? && Unique(a) && SameKeys(Keys(a.members), Keys(b.members))
    requires forall key :: key in Keys(a.members) ==>
      Property(a, key).Some? && Property(b, key).Some? && Same(Property(a, key).value, Property(b, key).value)
    ensures Same(a, b)
  {
    hide IndexOf;
    forall i | 0 <= i < |a.members|
      ensures Same(a.members[i].value, b.members[IndexOf(b.members, Keys(a.members)[i])].value)
    {
      IndexIsUnique(a.members, i);
      assert Keys(a.members)[i] in Keys(a.members);
    }
  }

  lemma SamePushedArray(a: seq<Json>, b: seq<Json>, grant: Json)
    requires SameStatements(a, b) && Unique(grant)
    ensures Same(Arr(a + [grant]), Arr(b + [grant]))
  {
    SameAsItself(grant);
  }

  lemma SamePushed(a: Json, b: Json, grant: Json)
    requires Unique(a) && Unique(b) && Unique(grant) && Same(a, b) && IsPolicy(a) && IsPolicy(b)
    ensures Same(WithStatements(a, Statements(a) + [grant]), WithStatements(b, Statements(b) + [grant]))
  {
    SamePolicies(a, b);
    SamePushedArray(Statements(a), Statements(b), grant);
    UpdatedIsUnique(a, grant);
    assert SameKeys(Keys(a.members), Keys(b.members));
    hide IndexOf, Same, Unique, SameStatements;
    var x, y := WithStatements(a, Statements(a) + [grant]), WithStatements(b, Statements(b) + [grant]);
    StatementsReplaced(a, Statements(a) + [grant]);
    StatementsReplaced(b, Statements(b) + [grant]);
    forall key | key in Keys(x.members)
      ensures Property(x, key).Some? && Property(y, key).Some? && Same(Property(x, key).value, Property(y, key).value)
    {
      if key != STATEMENT { SameProperty(a, b, key); }
    }
    SameFromProperties(x, y);
  }

  /** Two inputs that the same approved hash admits merge alike: if one goes through so does the other, and
      the results are equal up to key order with the same hash. */
  lemma ApprovedHashFixesOutcome(sha: Sha256, a: Json, b: Json, expected: Text, arn: Text, grant: Json)
    requires Unique(a) && Unique(b) && Unique(grant)
    requires sha(Utf8.Encode(Canon(a))) == sha(Utf8.Encode(Canon(b))) ==> Utf8.Encode(Canon(a)) == Utf8.Encode(Canon(b))
    requires Merge(sha, a, expected, arn, grant).Ok? && Digest(sha, b) == expected
    ensures Merge(sha, b, expected, arn, grant).Ok?
    ensures var m, n := Merge(sha, a, expected, arn, grant).value, Merge(sha, b, expected, arn, grant).value;
      && Same(m.updated, n.updated) && m.updatedSha256 == n.updatedSha256
      && m.updatedBytes == n.updatedBytes && m.grantAlreadyPresent == n.grantAlreadyPresent
  {
    hide Canon, FirstFault, IsSha256, HasPolicyShape, Statements, WithStatements, Same, Unique, IsPolicy,
         SidsDiffer, NoWildcard, NoConflict, FirstTarget, PolicyFault, SameStatements;
    MergeDecision(sha, a, expected, arn, grant);
    MergeDecision(sha, b, expected, arn, grant);
    BytesAreExact(a, b);
    SamePolicies(a, b);
    assert HasPolicyShape(a) && HasPolicyShape(b) by { PolicyHasShape(a); PolicyHasShape(b); }
    var sa, sb := Statements(a), Statements(b);
    SameChecks(sa, sb);
    SameFirstTarget(sa, sb, arn, 0);
    SameNoConflict(sa, sb, arn, grant);
    var present := FirstTarget(sa, arn, 0).Some?;
    if !present {
      SamePushed(a, b, grant);
      UpdatedIsUnique(a, grant);
      UpdatedIsUnique(b, grant);
    }
    CanonIsExact(Updated(a, grant, present), Updated(b, grant, present));
  }

  lemma PolicyHasShape(v: Json)
    requires IsPolicy(v)
    ensures HasPolicyShape(v)
  {
  }
}
