/** A family of policies on which the merge lets a second mention of the publisher role through. */
module PolicyMergeCases {
  import opened Base
  import opened Decimal
  import opened Json
  import opened CanonicalJson
  import opened PolicyMerge
  import opened PolicyMergeLaws
  import Utf8

  lemma {:induction false} EscapeLength(t: Text)
    ensures |Escape(t)| <= 6 * |t|
    decreases |t|
  {
    if t != [] { EscapeLength(if StartsWithPair(t) then t[2..] else t[1..]); }
  }

  lemma {:induction false} EncodeLength(t: Text)
    ensures |Utf8.Encode(t)| <= 3 * |t|
    decreases |t|
  {
    if t != [] { EncodeLength(if StartsWithPair(t) then t[2..] else t[1..]); }
  }

  lemma OneMore(n: nat, bound: nat)
    requires n > 0
    ensures n * (bound + 1) == (n - 1) * (bound + 1) + (bound + 1)
  {
  }

  lemma {:induction false} MembersLength(members: seq<Member>, keys: seq<Text>, bound: nat)
    requires forall k :: k in keys ==> k in Keys(members)
    requires forall k :: k in Keys(members) ==> |CanonMember(members, k)| <= bound
    ensures |CanonMembers(members, keys)| <= |keys| * (bound + 1)
    decreases |keys|
  {
    hide CanonMember, Keys;
    if keys != [] {
      assert keys[0] in keys;
      OneMore(|keys|, bound);
      if |keys| == 1 {
        assert CanonMembers(members, keys) == CanonMember(members, keys[0]);
      } else {
        MembersLength(members, keys[1..], bound);
        assert CanonMembers(members, keys)
            == CanonMember(members, keys[0]) + [COMMA] + CanonMembers(members, keys[1..]);
      }
    }
  }

  lemma ObjectLength(v: Json, bound: nat)
    requires v.Obj?
    requires forall i :: 0 <= i < |v.members| ==> 6 * |v.members[i].key| + 3 + |Canon(v.members[i].value)| <= bound
    ensures |Canon(v)| <= 2 + |v.members| * (bound + 1)
  {
    var keys := Keys(v.members);
    forall k | k in keys ensures |CanonMember(v.members, k)| <= bound {
      EscapeLength(k);
      assert v.members[IndexOf(v.members, k)].key == k;
    }
    SortHolds(keys);
    MembersLength(v.members, SortKeys(keys), bound);
  }

  lemma ShortString(t: Text)
    ensures |Canon(Str(t))| <= 2 + 6 * |t|
  {
    EscapeLength(t);
  }

  lemma ShortStatement(arn: Text)
    requires |arn| <= 63
    ensures |Canon(PublisherGrant(arn))| <= 1730 && |Canon(OtherStatement(arn))| <= 1730
  {
    ShortString(PUBLISHER_SID);
    ShortString(ALLOW);
    ShortString(ASSUME_ROLE);
    ShortString(OTHER_SID);
    ShortString(arn);
    hide Canon;
    ObjectLength(PublisherGrant(arn), 431);
    ObjectLength(OtherStatement(arn), 431);
  }

  const OTHER_SID: Text := [120]

  /** A second statement about the same role, under a Sid of its own. */
  function OtherStatement(arn: Text): Json {
    Obj([Member(SID, Str(OTHER_SID)), Member(RESOURCE, Str(arn))])
  }

  function SlipPolicy(arn: Text): Json {
    Obj([Member(VERSION, Str(VERSION_2012)), Member(STATEMENT, Arr([PublisherGrant(arn), OtherStatement(arn)]))])
  }

  lemma PairLength(x: Json, y: Json)
    ensures |Canon(Arr([x, y]))| == 3 + |Canon(x)| + |Canon(y)|
  {
    assert [x, y][1..] == [y];
    assert CanonItems([y]) == Canon(y);
    assert CanonItems([x, y]) == Canon(x) + [COMMA] + Canon(y);
  }

  lemma ShortPolicy(arn: Text)
    requires |arn| <= 63
    ensures Bytes(SlipPolicy(arn)) <= MAX_POLICY_BYTES
  {
    ShortStatement(arn);
    PairLength(PublisherGrant(arn), OtherStatement(arn));
    ShortString(VERSION_2012);
    hide Canon, PublisherGrant, OtherStatement;
    ObjectLength(SlipPolicy(arn), 3520);
    EncodeLength(Canon(SlipPolicy(arn)));
  }

  lemma OtherStatementMeaning(arn: Text)
    ensures var s := OtherStatement(arn);
      Unique(s) && SidOf(s) == Some(OTHER_SID) && IncludesValue(s, arn) && !Wildcard(s)
  {
    var s := OtherStatement(arn);
    assert Keys(s.members) == [SID, RESOURCE];
    assert |SID| == 3 && |RESOURCE| == 8 && |ACTION| == 6;
    assert IncludesValue(s.members[1].value, arn);
  }

  lemma PolicyOf(statements: seq<Json>)
    ensures var v := Obj([Member(VERSION, Str(VERSION_2012)), Member(STATEMENT, Arr(statements))]);
      HasPolicyShape(v) && Statements(v) == statements && Distinct(Keys(v.members))
  {
    var v := Obj([Member(VERSION, Str(VERSION_2012)), Member(STATEMENT, Arr(statements))]);
    assert Keys(v.members) == [VERSION, STATEMENT];
    assert |VERSION| == 7 && |STATEMENT| == 9;
    IndexIsUnique(v.members, 0);
    IndexIsUnique(v.members, 1);
    assert Keys(v.members)[0] == VERSION && Keys(v.members)[1] == STATEMENT;
  }

  lemma SlipPolicyMeaning(arn: Text)
    ensures var v := SlipPolicy(arn);
      IsPolicy(v) && Unique(v) && Statements(v) == [PublisherGrant(arn), OtherStatement(arn)]
  {
    hide HasPolicyShape, Statements, Keys, IncludesValue, SidOf;
    PublisherGrantMeaning(arn);
    OtherStatementMeaning(arn);
    var statements := [PublisherGrant(arn), OtherStatement(arn)];
    assert forall i :: 0 <= i < |statements| ==> statements[i].Obj?;
    hide PublisherGrant, OtherStatement;
    PolicyOf(statements);
    assert Unique(Arr(statements));
  }

  lemma SlipTarget(g: Json, s: Json, arn: Text)
    requires Unique(g) && SidOf(g) == Some(PUBLISHER_SID)
    ensures FirstTarget([g, s], arn, 0) == Some(0) && NoConflict([g, s], arn, g)
  {
    hide SidOf, IncludesValue, Unique, Same, IsTarget;
    PublisherSidIsTarget(g, arn);
    SameAsItself(g);
  }

  lemma SlipMention(g: Json, s: Json, arn: Text)
    requires SidOf(g) != SidOf(s) && IncludesValue(s, arn)
    ensures !OnlyGrantMentions([g, s], arn, g)
  {
    hide SidOf, IncludesValue, Same;
    if Same(s, g) { SameStatement(s, g); }
    assert IncludesValue([g, s][1], arn);
  }

  lemma SlipStatements(arn: Text)
    requires arn != STAR
    ensures var g, s := PublisherGrant(arn), OtherStatement(arn);
      && FirstTarget([g, s], arn, 0) == Some(0) && SidsDiffer([g, s]) && NoWildcard([g, s])
      && NoConflict([g, s], arn, g)
      && !OnlyGrantMentions([g, s], arn, g)
  {
    hide PublisherGrant, OtherStatement, SidOf, Wildcard, IncludesValue, Unique, FirstTarget, NoConflict,
         OnlyGrantMentions;
    var g, s := PublisherGrant(arn), OtherStatement(arn);
    PublisherGrantMeaning(arn);
    OtherStatementMeaning(arn);
    assert SidOf(s) != SidOf(g) by { assert |OTHER_SID| == 1 && |PUBLISHER_SID| == 31; }
    SlipTarget(g, s, arn);
    SlipMention(g, s, arn);
  }

  /** Such a policy: the grant, then another statement naming the role, goes through unchanged. */
  lemma LaterMentionGoesThrough(sha: Sha256, arn: Text)
    requires |arn| <= 63 && arn != STAR && IsSha256(Digest(sha, SlipPolicy(arn)))
    ensures var v := SlipPolicy(arn);
      var r := Merge(sha, v, Digest(sha, v), arn, PublisherGrant(arn));
      && r.Ok? && r.value.updated == v && HasPolicyShape(v)
      && !OnlyGrantMentions(Statements(v), arn, PublisherGrant(arn))
  {
    hide PublisherGrant, OtherStatement, SlipPolicy, Canon, Bytes, SidOf, Wildcard, IncludesValue, Unique,
         HasPolicyShape, Statements, Digest, IsSha256, PolicyFault, FirstFault, FirstTarget, SidsDiffer, NoWildcard,
         NoConflict, OnlyGrantMentions;
    var v := SlipPolicy(arn);
    SlipPolicyMeaning(arn);
    PublisherGrantMeaning(arn);
    ShortPolicy(arn);
    SlipStatements(arn);
    MergeDecision(sha, v, Digest(sha, v), arn, PublisherGrant(arn));
  }

  // ---------------------------------------------------------------- at the role's own name

  const ARN_PREFIX: Text :=
    [97, 114, 110, 58, 97, 119, 115, 58, 105, 97, 109, 58, 58]
  const ARN_SUFFIX: Text :=
    [58, 114, 111, 108, 101, 47, 80, 111, 72, 81, 117, 105, 99, 107, 76, 97, 117, 110, 99, 104, 73, 109,
     97, 103, 101, 80, 117, 98, 108, 105, 115, 104, 101, 114, 82, 111, 108, 101]

  /** The name of the publisher role in an account. */
  function PublisherArn(account: Text): Text { ARN_PREFIX + account + ARN_SUFFIX }

  /** So it happens with the name the merge is called with, for every account. */
  lemma LaterRoleMentionGoesThrough(sha: Sha256, account: Text)
    requires |account| == 12 && AllDigits(account) && IsSha256(Digest(sha, SlipPolicy(PublisherArn(account))))
    ensures var arn := PublisherArn(account); var v := SlipPolicy(arn);
      var r := Merge(sha, v, Digest(sha, v), arn, PublisherGrant(arn));
      && r.Ok? && r.value.updated == v && HasPolicyShape(v)
      && !OnlyGrantMentions(Statements(v), arn, PublisherGrant(arn))
  {
    var arn := PublisherArn(account);
    assert |arn| == 63 && |STAR| == 1;
    LaterMentionGoesThrough(sha, arn);
  }

  lemma ArnSpelling()
    ensures Spells(ARN_PREFIX, "arn:aws:iam::") && Spells(ARN_SUFFIX, ":role/PoHQuickLaunchImagePublisherRole")
  {
  }
}
