/** Adding the image-publisher grant to the deployer's inline policy
    (apps/proofofhumanity/app/quick-launch-iam-administrator.ts). */
module PolicyMerge {
  import opened Base
  import opened Decimal
  import opened Json
  import opened CanonicalJson
  import Utf8

  const VERSION: Text := [86, 101, 114, 115, 105, 111, 110]
  const VERSION_2012: Text := [50, 48, 49, 50, 45, 49, 48, 45, 49, 55]
  const STATEMENT: Text := [83, 116, 97, 116, 101, 109, 101, 110, 116]
  const SID: Text := [83, 105, 100]
  const ACTION: Text := [65, 99, 116, 105, 111, 110]
  const RESOURCE: Text := [82, 101, 115, 111, 117, 114, 99, 101]
  const EFFECT: Text := [69, 102, 102, 101, 99, 116]
  const ALLOW: Text := [65, 108, 108, 111, 119]
  const ASSUME_ROLE: Text := [115, 116, 115, 58, 65, 115, 115, 117, 109, 101, 82, 111, 108, 101]
  const STAR: Text := [42]
  const PUBLISHER_SID: Text :=
    [65, 115, 115, 117, 109, 101, 81, 117, 105, 99, 107, 76, 97, 117, 110, 99, 104, 73, 109, 97, 103, 101,
     80, 117, 98, 108, 105, 115, 104, 101, 114]
  const MAX_POLICY_BYTES: nat := 32_768

  datatype MergeError =
    | NotAnObject
    | NotAPolicy
    | StatementNotAnObject
    | BadExpectedSha256
    | Sha256Mismatch
    | MissingSid
    | DuplicateSid(sid: Text)
    | WildcardAssumeRole
    | ConflictingGrant
    | TooLarge

  datatype Merged = Merged(
    current: Json, currentSha256: Text, updated: Json, updatedSha256: Text, updatedBytes: nat,
    grantAlreadyPresent: bool)

  /** The hash of a text's UTF-8 bytes, in hexadecimal. */
  type Sha256 = seq<byte> -> Text

  // ---------------------------------------------------------------- reading a policy

  /** `v[key]`, with `undefined` as None. */
  function Property(v: Json, key: Text): Option<Json> {
    if v.Obj? && key in Keys(v.members) then Some(v.members[IndexOf(v.members, key)].value) else None
  }

  function Strings(items: seq<Json>): seq<Text> {
    if items == [] then []
    else (if items[0].Str? then [items[0].s] else []) + Strings(items[1..])
  }

  function StringValues(v: Option<Json>): seq<Text> {
    match v
    case Some(Str(s)) => [s]
    case Some(Arr(items)) => Strings(items)
    case _ => []
  }

  predicate IncludesValue(v: Json, expected: Text) {
    match v
    case Str(s) => s == expected
    case Arr(items) => exists i :: 0 <= i < |items| && IncludesValue(items[i], expected)
    case Obj(members) => exists i :: 0 <= i < |members| && IncludesValue(members[i].value, expected)
    case _ => false
  }

  /** `JSON.parse(JSON.stringify(v))` copies a JSON value without changing it. */
  function CloneJson(v: Json): (r: Json)
    ensures r == v
  {
    PrintRoundTrip(v, []);
    assert Print(v) + [] == Print(v);
    Parse(Print(v)).value
  }

  predicate IsSha256(t: Text) { |t| == 64 && forall i :: 0 <= i < 64 ==> HexValue(t[i]) < 16 }

  function Digest(sha: Sha256, v: Json): Text { sha(Utf8.Encode(Canon(v))) }

  predicate HasPolicyShape(v: Json) {
    && Property(v, VERSION) == Some(Str(VERSION_2012))
    && Property(v, STATEMENT).Some? && Property(v, STATEMENT).value.Arr?
  }

  function Statements(v: Json): seq<Json>
    requires HasPolicyShape(v)
  {
    Property(v, STATEMENT).value.items
  }

  function PolicyFault(v: Json): Option<MergeError> {
    if !v.Obj? then Some(NotAnObject)
    else if !HasPolicyShape(v) then Some(NotAPolicy)
    else if exists i :: 0 <= i < |Statements(v)| && !Statements(v)[i].Obj? then Some(StatementNotAnObject)
    else None
  }

  method PolicyObject(v: Json) returns (r: Result<Json, MergeError>)
    ensures r == if PolicyFault(v).Some? then Err(PolicyFault(v).value) else Ok(v)
  {
    if !v.Obj? { return Err(NotAnObject); }
    var policy := CloneJson(v);
    if !HasPolicyShape(policy) { return Err(NotAPolicy); }
    var statements := Statements(policy);
    for i := 0 to |statements|
      invariant forall j :: 0 <= j < i ==> statements[j].Obj?
    {
      if !statements[i].Obj? { return Err(StatementNotAnObject); }
    }
    return Ok(policy);
  }

  // ---------------------------------------------------------------- checking its statements

  function SidOf(s: Json): Option<Text> {
    match Property(s, SID)
    case Some(Str(sid)) => if sid == [] then None else Some(sid)
    case _ => None
  }

  /** Whether a statement lets its holder assume any role. */
  predicate Wildcard(s: Json) {
    ASSUME_ROLE in StringValues(Property(s, ACTION)) && STAR in StringValues(Property(s, RESOURCE))
  }

  /** What is wrong with statement `k`, given those before it. */
  function StatementFault(statements: seq<Json>, k: nat): Option<MergeError>
    requires k < |statements|
  {
    var sid := SidOf(statements[k]);
    if sid.None? then Some(MissingSid)
    else if exists j :: 0 <= j < k && SidOf(statements[j]) == sid then Some(DuplicateSid(sid.value))
    else if Wildcard(statements[k]) then Some(WildcardAssumeRole)
    else None
  }

  /** The first fault from statement `k` on. */
  function FirstFault(statements: seq<Json>, k: nat): Option<MergeError>
    requires k <= |statements|
    decreases |statements| - k
  {
    if k == |statements| then None
    else if StatementFault(statements, k).Some? then StatementFault(statements, k)
    else FirstFault(statements, k + 1)
  }

  // ---------------------------------------------------------------- statements without fault

  predicate SidsDiffer(statements: seq<Json>) {
    && (forall k :: 0 <= k < |statements| ==> SidOf(statements[k]).Some?)
    && forall j, k :: 0 <= j < k < |statements| ==> SidOf(statements[j]) != SidOf(statements[k])
  }

  predicate NoWildcard(statements: seq<Json>) {
    forall k :: 0 <= k < |statements| ==> !Wildcard(statements[k])
  }

  lemma {:induction false} NoFaultFrom(statements: seq<Json>, k: nat)
    requires k <= |statements|
    ensures FirstFault(statements, k).None? <==>
      forall i :: k <= i < |statements| ==> StatementFault(statements, i).None?
    decreases |statements| - k
  {
    hide StatementFault;
    if k < |statements| { NoFaultFrom(statements, k + 1); }
  }

  lemma CleanPass(statements: seq<Json>)
    ensures FirstFault(statements, 0).None? <==> SidsDiffer(statements) && NoWildcard(statements)
  {
    hide SidOf, Wildcard, FirstFault;
    NoFaultFrom(statements, 0);
    if FirstFault(statements, 0).None? {
      forall k | 0 <= k < |statements|
        ensures SidOf(statements[k]).Some? && !Wildcard(statements[k])
        ensures forall j :: 0 <= j < k ==> SidOf(statements[j]) != SidOf(statements[k])
      {
        assert StatementFault(statements, k).None?;
      }
    }
  }

  // ---------------------------------------------------------------- what the checks mean

  /** A property that is the text `t`, or an array with `t` at some position. */
  predicate Holds(v: Option<Json>, t: Text) {
    && v.Some?
    && (|| v.value == Str(t)
        || (v.value.Arr? && exists i :: 0 <= i < |v.value.items| && v.value.items[i] == Str(t)))
  }

  lemma {:induction false} StringsAreListed(items: seq<Json>, t: Text)
    ensures t in Strings(items) <==> exists i :: 0 <= i < |items| && items[i] == Str(t)
  {
    if items != [] {
      StringsAreListed(items[1..], t);
      assert forall i :: 0 < i < |items| ==> items[i] == items[1..][i - 1];
    }
  }

  lemma HoldsIsListed(v: Option<Json>, t: Text)
    ensures t in StringValues(v) <==> Holds(v, t)
  {
    match v
    case Some(Arr(items)) => StringsAreListed(items, t);
    case _ =>
  }

  /** A statement that lets its holder assume any role. */
  predicate AssumesAnyRole(s: Json) { Holds(Property(s, ACTION), ASSUME_ROLE) && Holds(Property(s, RESOURCE), STAR) }

  lemma WildcardMeaning(s: Json)
    ensures Wildcard(s) <==> AssumesAnyRole(s)
  {
    HoldsIsListed(Property(s, ACTION), ASSUME_ROLE);
    HoldsIsListed(Property(s, RESOURCE), STAR);
  }

  /** Every statement has a Sid, a non-empty text that no other statement has. */
  predicate OwnSids(statements: seq<Json>) {
    && (forall k :: 0 <= k < |statements| ==>
          var sid := Property(statements[k], SID); sid.Some? && sid.value.Str? && sid.value.s != [])
    && forall j, k :: 0 <= j < k < |statements| ==> Property(statements[j], SID) != Property(statements[k], SID)
  }

  lemma SidsDifferMeaning(statements: seq<Json>)
    ensures SidsDiffer(statements) <==> OwnSids(statements)
  {
    hide Property;
  }

  /** The pass over the statements finds nothing exactly when every statement has a Sid of its own and none allows
      assuming every role. */
  lemma NoFault(statements: seq<Json>)
    ensures FirstFault(statements, 0).None? <==>
      OwnSids(statements) && forall k :: 0 <= k < |statements| ==> !AssumesAnyRole(statements[k])
  {
    hide Wildcard, AssumesAnyRole, OwnSids, SidsDiffer, FirstFault;
    CleanPass(statements);
    SidsDifferMeaning(statements);
    forall k | 0 <= k < |statements| ensures Wildcard(statements[k]) <==> AssumesAnyRole(statements[k]) {
      WildcardMeaning(statements[k]);
    }
  }

  /** One pass with the set of Sids seen so far. */
  method CheckStatements(statements: seq<Json>) returns (fault: Option<MergeError>)
    ensures fault == FirstFault(statements, 0)
    ensures fault.None? <==>
      OwnSids(statements) && forall k :: 0 <= k < |statements| ==> !AssumesAnyRole(statements[k])
  {
    hide SidOf, Wildcard, OwnSids, AssumesAnyRole;
    NoFault(statements);
    var seen: set<Text> := {};
    for k := 0 to |statements|
      invariant FirstFault(statements, 0) == FirstFault(statements, k)
      invariant forall sid :: sid in seen <==> exists j :: 0 <= j < k && SidOf(statements[j]) == Some(sid)
    {
      var sid := SidOf(statements[k]);
      if sid.None? { return Some(MissingSid); }
      if sid.value in seen { return Some(DuplicateSid(sid.value)); }
      seen := seen + {sid.value};
      if Wildcard(statements[k]) { return Some(WildcardAssumeRole); }
    }
    return None;
  }

  // ---------------------------------------------------------------- merging

  predicate IsTarget(s: Json, arn: Text) {
    Property(s, SID) == Some(Str(PUBLISHER_SID)) || IncludesValue(s, arn)
  }

  /** The first statement from `k` on about the publisher role. */
  function FirstTarget(statements: seq<Json>, arn: Text, k: nat): (r: Option<nat>)
    requires k <= |statements|
    ensures r.Some? ==> k <= r.value < |statements| && IsTarget(statements[r.value], arn)
    ensures r.Some? ==> forall i :: k <= i < r.value ==> !IsTarget(statements[i], arn)
    ensures r.None? ==> forall i :: k <= i < |statements| ==> !IsTarget(statements[i], arn)
    decreases |statements| - k
  {
    if k == |statements| then None
    else if IsTarget(statements[k], arn) then Some(k)
    else FirstTarget(statements, arn, k + 1)
  }

  function WithStatements(v: Json, statements: seq<Json>): Json
    requires HasPolicyShape(v)
  {
    Obj(v.members[IndexOf(v.members, STATEMENT) := Member(STATEMENT, Arr(statements))])
  }

  function Updated(v: Json, grant: Json, present: bool): Json
    requires HasPolicyShape(v)
  {
    if present then v else WithStatements(v, Statements(v) + [grant])
  }

  function Bytes(v: Json): nat { |Utf8.Encode(Canon(v))| }

  function Merge(sha: Sha256, input: Json, expected: Text, arn: Text, grant: Json): Result<Merged, MergeError> {
    if PolicyFault(input).Some? then Err(PolicyFault(input).value)
    else if !IsSha256(expected) then Err(BadExpectedSha256)
    else if Digest(sha, input) != expected then Err(Sha256Mismatch)
    else if FirstFault(Statements(input), 0).Some? then Err(FirstFault(Statements(input), 0).value)
    else
      var target := FirstTarget(Statements(input), arn, 0);
      if target.Some? && Canon(Statements(input)[target.value]) != Canon(grant) then Err(ConflictingGrant)
      else
        var updated := Updated(input, grant, target.Some?);
        if Bytes(updated) > MAX_POLICY_BYTES then Err(TooLarge)
        else Ok(Merged(input, expected, updated, Digest(sha, updated), Bytes(updated), target.Some?))
  }

  method MergePublisherGrant(sha: Sha256, input: Json, expected: Text, arn: Text, grant: Json)
    returns (r: Result<Merged, MergeError>)
    ensures r == Merge(sha, input, expected, arn, grant)
  {
    var policy := PolicyObject(input);
    if policy.Err? { return Err(policy.error); }
    var current := policy.value;
    if !IsSha256(expected) { return Err(BadExpectedSha256); }
    var currentSha256 := Digest(sha, current);
    if currentSha256 != expected { return Err(Sha256Mismatch); }
    var statements := Statements(current);
    var fault := CheckStatements(statements);
    if fault.Some? { return Err(fault.value); }
    var expectedGrant := CloneJson(grant);
    var target := FirstTarget(statements, arn, 0);
    var present := false;
    if target.Some? {
      if Canon(statements[target.value]) != Canon(expectedGrant) { return Err(ConflictingGrant); }
      present := true;
    }
    var updated := CloneJson(current);
    if !present { updated := WithStatements(updated, Statements(updated) + [expectedGrant]); }
    var bytes := Bytes(updated);
    if bytes > MAX_POLICY_BYTES { return Err(TooLarge); }
    return Ok(Merged(current, currentSha256, updated, Digest(sha, updated), bytes, present));
  }

  // ---------------------------------------------------------------- the names used

  /** The names that the policy language and this tool use. */
  lemma PolicySpelling()
    ensures Spells(VERSION, "Version") && Spells(VERSION_2012, "2012-10-17") && Spells(STATEMENT, "Statement")
  {
  }

  lemma StatementSpelling()
    ensures Spells(SID, "Sid") && Spells(EFFECT, "Effect") && Spells(ACTION, "Action") && Spells(RESOURCE, "Resource")
  {
  }

  lemma ValueSpelling()
    ensures Spells(ALLOW, "Allow") && Spells(ASSUME_ROLE, "sts:AssumeRole") && Spells(STAR, "*")
  {
  }

  lemma SidSpelling()
    ensures Spells(PUBLISHER_SID, "AssumeQuickLaunchImagePublisher")
  {
  }
}
