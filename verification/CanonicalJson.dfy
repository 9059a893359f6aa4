/** The canonical printer (apps/proofofhumanity/app/quick-launch-image-release.ts): `JSON.stringify` with the
    keys of every object sorted by UTF-16 code units, as in section 3.2.3 of RFC 8785. */
module CanonicalJson {
  import opened Decimal
  import opened Json
  import Utf8

  // ---------------------------------------------------------------- key order

  /** The default string order: by code units, a proper prefix first. */
  predicate Before(a: Text, b: Text) {
    if b == [] then false
    else if a == [] then true
    else if a[0] != b[0] then a[0] < b[0]
    else Before(a[1..], b[1..])
  }

  lemma {:induction false} BeforeIsTotal(a: Text, b: Text)
    ensures a == b || Before(a, b) || Before(b, a)
    ensures !(Before(a, b) && Before(b, a))
    ensures !Before(a, a)
  {
    if a != [] {
      BeforeIsTotal(a[1..], if b == [] then a[1..] else b[1..]);
      if b != [] && a[0] == b[0] && a[1..] == b[1..] {
        assert a == [a[0]] + a[1..] && b == [b[0]] + b[1..];
      }
    }
  }

  /** `a` and `b` agree before position `k`, and there `a` has ended or has the smaller code unit. */
  predicate PrecedesAt(a: Text, b: Text, k: nat) {
    k <= |a| && k < |b| && (forall i :: 0 <= i < k ==> a[i] == b[i]) && (k == |a| || a[k] < b[k])
  }

  predicate Precedes(a: Text, b: Text) { exists k: nat :: k <= |a| && PrecedesAt(a, b, k) }

  lemma {:induction false} BeforeIsPrecedes(a: Text, b: Text)
    ensures Before(a, b) <==> Precedes(a, b)
  {
    if b == [] || a == [] || a[0] != b[0] {
      assert Before(a, b) ==> PrecedesAt(a, b, 0);
    } else {
      BeforeIsPrecedes(a[1..], b[1..]);
      if Before(a, b) {
        var k: nat :| k <= |a[1..]| && PrecedesAt(a[1..], b[1..], k);
        assert PrecedesAt(a, b, k + 1);
      } else if Precedes(a, b) {
        var k: nat :| k <= |a| && PrecedesAt(a, b, k);
        assert PrecedesAt(a[1..], b[1..], k - 1);
      }
    }
  }

  lemma {:induction false} BeforeIsTransitive(a: Text, b: Text, c: Text)
    requires Before(a, b) && Before(b, c)
    ensures Before(a, c)
  {
    if a != [] && a[0] == b[0] && b[0] == c[0] { BeforeIsTransitive(a[1..], b[1..], c[1..]); }
  }

  function Insert(k: Text, sorted: seq<Text>): seq<Text> {
    if sorted == [] || Before(k, sorted[0]) then [k] + sorted else [sorted[0]] + Insert(k, sorted[1..])
  }

  function SortKeys(keys: seq<Text>): seq<Text> {
    if keys == [] then [] else Insert(keys[0], SortKeys(keys[1..]))
  }

  predicate Distinct(keys: seq<Text>) { forall i, j :: 0 <= i < j < |keys| ==> keys[i] != keys[j] }

  predicate Ascending(keys: seq<Text>) { forall i, j :: 0 <= i < j < |keys| ==> Before(keys[i], keys[j]) }

  lemma {:induction false} InsertHolds(k: Text, sorted: seq<Text>)
    ensures multiset(Insert(k, sorted)) == multiset(sorted) + multiset{k}
  {
    if sorted != [] {
      InsertHolds(k, sorted[1..]);
      assert sorted == [sorted[0]] + sorted[1..];
    }
  }

  lemma {:induction false} InsertAscends(k: Text, sorted: seq<Text>)
    requires Ascending(sorted) && k !in sorted
    ensures Ascending(Insert(k, sorted))
  {
    if sorted == [] {
    } else if Before(k, sorted[0]) {
      forall j | 0 <= j < |sorted| ensures Before(k, sorted[j]) {
        if j > 0 { BeforeIsTransitive(k, sorted[0], sorted[j]); }
      }
    } else {
      BeforeIsTotal(k, sorted[0]);
      var rest := Insert(k, sorted[1..]);
      InsertAscends(k, sorted[1..]);
      InsertHolds(k, sorted[1..]);
      forall j | 0 <= j < |rest| ensures Before(sorted[0], rest[j]) {
        assert rest[j] in multiset(rest);
        if rest[j] != k {
          assert rest[j] in sorted[1..];
        }
      }
    }
  }

  lemma {:induction false} SortPermutes(keys: seq<Text>)
    ensures multiset(SortKeys(keys)) == multiset(keys)
  {
    if keys != [] {
      SortPermutes(keys[1..]);
      InsertHolds(keys[0], SortKeys(keys[1..]));
      assert keys == [keys[0]] + keys[1..];
    }
  }

  lemma SortHolds(keys: seq<Text>)
    ensures |SortKeys(keys)| == |keys|
    ensures forall k :: k in SortKeys(keys) <==> k in keys
  {
    hide SortKeys;
    SortPermutes(keys);
    assert |multiset(SortKeys(keys))| == |multiset(keys)|;
    forall k ensures k in SortKeys(keys) <==> k in keys {
      assert k in multiset(SortKeys(keys)) <==> k in multiset(keys);
    }
  }

  lemma {:induction false} SortAscends(keys: seq<Text>)
    requires Distinct(keys)
    ensures Ascending(SortKeys(keys))
  {
    if keys != [] {
      SortAscends(keys[1..]);
      SortHolds(keys[1..]);
      InsertAscends(keys[0], SortKeys(keys[1..]));
    }
  }

  predicate SameKeys(a: seq<Text>, b: seq<Text>) { (forall k :: k in a ==> k in b) && (forall k :: k in b ==> k in a) }

  /** A set of keys has one ascending arrangement. */
  lemma {:induction false} AscendingIsUnique(a: seq<Text>, b: seq<Text>)
    requires Ascending(a) && Ascending(b) && SameKeys(a, b)
    ensures a == b
  {
    if a != [] { assert a[0] in a; }
    if b != [] { assert b[0] in b; }
    if a != [] && b != [] {
      assert a[0] in b && b[0] in a;
      BeforeIsTotal(a[0], b[0]);
      assert a[0] == b[0];
      TailKeys(a, b);
      TailKeys(b, a);
      AscendingIsUnique(a[1..], b[1..]);
      assert a == [a[0]] + a[1..] && b == [b[0]] + b[1..];
    }
  }

  lemma TailKeys(a: seq<Text>, b: seq<Text>)
    requires a != [] && b != [] && a[0] == b[0] && Ascending(a) && SameKeys(a, b)
    ensures forall k :: k in a[1..] ==> k in b[1..]
  {
    forall k | k in a[1..] ensures k in b[1..] {
      assert k in a;
      BeforeIsTotal(k, k);
      assert b == [b[0]] + b[1..];
    }
  }

  // ---------------------------------------------------------------- objects

  function Keys(members: seq<Member>): (r: seq<Text>)
    ensures |r| == |members| && forall i :: 0 <= i < |r| ==> r[i] == members[i].key
  {
    seq(|members|, i requires 0 <= i < |members| => members[i].key)
  }

  function IndexOf(members: seq<Member>, k: Text): (i: nat)
    requires k in Keys(members)
    ensures i < |members| && members[i].key == k
  {
    if members[0].key == k then 0
    else
      assert Keys(members)[1..] == Keys(members[1..]);
      1 + IndexOf(members[1..], k)
  }

  /** An object has no key twice, at any depth. */
  predicate Unique(v: Json) {
    match v
    case Arr(items) => forall i :: 0 <= i < |items| ==> Unique(items[i])
    case Obj(members) => Distinct(Keys(members)) && forall i :: 0 <= i < |members| ==> Unique(members[i].value)
    case _ => true
  }

  /** Equality up to the order of object keys, at any depth. */
  predicate Same(a: Json, b: Json) {
    match a
    case Arr(items) =>
      b.Arr? && |items| == |b.items| && forall i :: 0 <= i < |items| ==> Same(items[i], b.items[i])
    case Obj(members) =>
      && b.Obj?
      && SameKeys(Keys(members), Keys(b.members))
      && forall i :: 0 <= i < |members| ==>
           Same(members[i].value, b.members[IndexOf(b.members, Keys(members)[i])].value)
    case _ => a == b
  }

  // ---------------------------------------------------------------- canonical text

  function Canon(v: Json): Text
    decreases v, 0
  {
    match v
    case Arr(items) => [LBRACK] + CanonItems(items) + [RBRACK]
    case Obj(members) =>
      SortHolds(Keys(members));
      [LBRACE] + CanonMembers(members, SortKeys(Keys(members))) + [RBRACE]
    case _ => Print(v)
  }

  function CanonItems(items: seq<Json>): Text
    decreases items, 0
  {
    if items == [] then []
    else if |items| == 1 then Canon(items[0])
    else Canon(items[0]) + [COMMA] + CanonItems(items[1..])
  }

  function CanonMembers(members: seq<Member>, keys: seq<Text>): Text
    requires forall k :: k in keys ==> k in Keys(members)
    decreases members, |keys|
  {
    if keys == [] then []
    else if |keys| == 1 then CanonMember(members, keys[0])
    else CanonMember(members, keys[0]) + [COMMA] + CanonMembers(members, keys[1..])
  }

  function CanonMember(members: seq<Member>, k: Text): Text
    requires k in Keys(members)
    decreases members, 0
  {
    PrintString(k) + [COLON] + Canon(members[IndexOf(members, k)].value)
  }

  // ---------------------------------------------------------------- the value behind the text

  /** The same value with the keys of every object in ascending order. */
  function Normal(v: Json): Json
    decreases v, 0
  {
    match v
    case Arr(items) => Arr(NormalItems(items))
    case Obj(members) =>
      SortHolds(Keys(members));
      Obj(NormalMembers(members, SortKeys(Keys(members))))
    case _ => v
  }

  function NormalItems(items: seq<Json>): (r: seq<Json>)
    ensures |r| == |items|
    decreases items, 0
  {
    if items == [] then [] else [Normal(items[0])] + NormalItems(items[1..])
  }

  function NormalMembers(members: seq<Member>, keys: seq<Text>): (r: seq<Member>)
    requires forall k :: k in keys ==> k in Keys(members)
    ensures |r| == |keys|
    decreases members, |keys|
  {
    if keys == [] then []
    else [Member(keys[0], Normal(members[IndexOf(members, keys[0])].value))] + NormalMembers(members, keys[1..])
  }

  lemma {:induction false} CanonPrintsNormal(v: Json)
    ensures Canon(v) == Print(Normal(v))
    decreases v, 0
  {
    match v
    case Arr(items) => CanonPrintsItems(items);
    case Obj(members) =>
      SortHolds(Keys(members));
      CanonPrintsMembers(members, SortKeys(Keys(members)));
    case _ =>
  }

  lemma {:induction false} CanonPrintsItems(items: seq<Json>)
    ensures CanonItems(items) == PrintItems(NormalItems(items))
    decreases items, 0
  {
    hide Canon, Print, Normal;
    if items != [] {
      CanonPrintsNormal(items[0]);
      CanonPrintsItems(items[1..]);
      assert NormalItems(items)[1..] == NormalItems(items[1..]);
    }
  }

  lemma {:induction false} CanonPrintsMembers(members: seq<Member>, keys: seq<Text>)
    requires forall k :: k in keys ==> k in Keys(members)
    ensures CanonMembers(members, keys) == PrintMembers(NormalMembers(members, keys))
    decreases members, |keys|
  {
    hide Canon, Print, Normal, PrintString;
    if keys != [] {
      CanonPrintsNormal(members[IndexOf(members, keys[0])].value);
      CanonPrintsMembers(members, keys[1..]);
      assert NormalMembers(members, keys)[1..] == NormalMembers(members, keys[1..]);
    }
  }

  // ---------------------------------------------------------------- normal forms and key order

  lemma {:induction false} NormalItemAt(items: seq<Json>, i: nat)
    requires i < |items|
    ensures NormalItems(items)[i] == Normal(items[i])
  {
    if i > 0 { NormalItemAt(items[1..], i - 1); }
  }

  lemma {:induction false} NormalMemberAt(members: seq<Member>, keys: seq<Text>, i: nat)
    requires i < |keys| && forall k :: k in keys ==> k in Keys(members)
    ensures NormalMembers(members, keys)[i] == Member(keys[i], Normal(members[IndexOf(members, keys[i])].value))
    decreases i
  {
    hide Normal;
    if i > 0 { NormalMemberAt(members, keys[1..], i - 1); }
  }

  lemma DistinctIndex(keys: seq<Text>, i: nat, j: nat)
    requires Distinct(keys) && i < |keys| && j < |keys| && keys[i] == keys[j]
    ensures i == j
  {
  }

  lemma IndexIsUnique(members: seq<Member>, i: nat)
    requires Distinct(Keys(members)) && i < |members|
    ensures Keys(members)[i] in Keys(members) && IndexOf(members, Keys(members)[i]) == i
  {
    hide IndexOf, Keys, Distinct;
    var keys := Keys(members);
    assert keys[i] in keys;
    DistinctIndex(keys, i, IndexOf(members, keys[i]));
  }

  lemma SameSortedKeys(a: seq<Text>, b: seq<Text>)
    requires Distinct(a) && Distinct(b) && SameKeys(a, b)
    ensures SortKeys(a) == SortKeys(b)
  {
    SortAscends(a);
    SortAscends(b);
    SortHolds(a);
    SortHolds(b);
    AscendingIsUnique(SortKeys(a), SortKeys(b));
  }

  lemma {:induction false} SameHasOneNormal(a: Json, b: Json)
    requires Unique(a) && Unique(b) && Same(a, b)
    ensures Normal(a) == Normal(b)
    decreases a, 0
  {
    match a
    case Arr(items) =>
      forall i | 0 <= i < |items| ensures NormalItems(items)[i] == NormalItems(b.items)[i] {
        SameHasOneNormal(items[i], b.items[i]);
        NormalItemAt(items, i);
        NormalItemAt(b.items, i);
      }
    case Obj(members) =>
      SameSortedKeys(Keys(members), Keys(b.members));
      SortHolds(Keys(members));
      SortHolds(Keys(b.members));
      SameMembers(members, b.members, SortKeys(Keys(members)));
    case _ =>
  }

  lemma {:induction false} SameMembers(a: seq<Member>, b: seq<Member>, keys: seq<Text>)
    requires Unique(Obj(a)) && Unique(Obj(b)) && Same(Obj(a), Obj(b))
    requires forall k :: k in keys ==> k in Keys(a) && k in Keys(b)
    ensures NormalMembers(a, keys) == NormalMembers(b, keys)
    decreases a, |keys|
  {
    hide Normal;
    if keys != [] {
      var i := IndexOf(a, keys[0]);
      assert Keys(a)[i] == keys[0];
      SameHasOneNormal(a[i].value, b[IndexOf(b, keys[0])].value);
      SameMembers(a, b, keys[1..]);
    }
  }

  lemma {:induction false} OneNormalIsSame(a: Json, b: Json)
    requires Unique(a) && Unique(b) && Normal(a) == Normal(b)
    ensures Same(a, b)
    decreases a
  {
    match a
    case Arr(items) =>
      forall i | 0 <= i < |items| ensures Same(items[i], b.items[i]) {
        NormalItemAt(items, i);
        NormalItemAt(b.items, i);
        OneNormalIsSame(items[i], b.items[i]);
      }
    case Obj(members) => OneNormalIsSameObject(members, b.members);
    case _ =>
  }

  lemma OneSortedKeys(a: seq<Member>, b: seq<Member>)
    requires Normal(Obj(a)) == Normal(Obj(b))
    ensures SortKeys(Keys(a)) == SortKeys(Keys(b)) && SameKeys(Keys(a), Keys(b))
  {
    var ka, kb := SortKeys(Keys(a)), SortKeys(Keys(b));
    SortHolds(Keys(a));
    SortHolds(Keys(b));
    assert NormalMembers(a, ka) == NormalMembers(b, kb);
    forall i | 0 <= i < |ka| ensures ka[i] == kb[i] {
      NormalMemberAt(a, ka, i);
      NormalMemberAt(b, kb, i);
    }
  }

  lemma {:induction false} OneNormalIsSameObject(a: seq<Member>, b: seq<Member>)
    requires Unique(Obj(a)) && Unique(Obj(b)) && Normal(Obj(a)) == Normal(Obj(b))
    ensures Same(Obj(a), Obj(b))
    decreases a
  {
    hide SortKeys;
    OneSortedKeys(a, b);
    var keys := SortKeys(Keys(a));
    SortHolds(Keys(a));
    SortHolds(Keys(b));
    assert NormalMembers(a, keys) == NormalMembers(b, keys);
    forall i | 0 <= i < |a| ensures Same(a[i].value, b[IndexOf(b, Keys(a)[i])].value) {
      var k := Keys(a)[i];
      IndexIsUnique(a, i);
      assert k in keys;
      var j :| 0 <= j < |keys| && keys[j] == k;
      NormalMemberAt(a, keys, j);
      NormalMemberAt(b, keys, j);
      OneNormalIsSame(a[i].value, b[IndexOf(b, k)].value);
    }
  }

  /** Every object lists its keys in ascending order, at any depth. */
  predicate KeySorted(v: Json) {
    match v
    case Arr(items) => forall i :: 0 <= i < |items| ==> KeySorted(items[i])
    case Obj(members) => Ascending(Keys(members)) && forall i :: 0 <= i < |members| ==> KeySorted(members[i].value)
    case _ => true
  }

  lemma {:induction false} NormalIsSorted(v: Json)
    requires Unique(v)
    ensures KeySorted(Normal(v))
  {
    match v
    case Arr(items) =>
      forall i | 0 <= i < |items| ensures KeySorted(NormalItems(items)[i]) {
        NormalItemAt(items, i);
        NormalIsSorted(items[i]);
      }
    case Obj(members) =>
      var keys := SortKeys(Keys(members));
      SortHolds(Keys(members));
      SortAscends(Keys(members));
      var sorted := NormalMembers(members, keys);
      forall i | 0 <= i < |keys| ensures sorted[i].key == keys[i] && KeySorted(sorted[i].value) {
        NormalMemberAt(members, keys, i);
        NormalIsSorted(members[IndexOf(members, keys[i])].value);
      }
      assert Keys(sorted) == keys;
    case _ =>
  }

  lemma AscendingIsDistinct(keys: seq<Text>)
    requires Ascending(keys)
    ensures Distinct(keys)
  {
    forall i, j | 0 <= i < j < |keys| ensures keys[i] != keys[j] { BeforeIsTotal(keys[i], keys[j]); }
  }

  /** A value whose keys are sorted is its own normal form. */
  lemma {:induction false} SortedIsNormal(v: Json)
    requires KeySorted(v)
    ensures Unique(v) && Normal(v) == v
    decreases v
  {
    match v
    case Arr(items) =>
      forall i | 0 <= i < |items| ensures Unique(items[i]) && NormalItems(items)[i] == items[i] {
        SortedIsNormal(items[i]);
        NormalItemAt(items, i);
      }
    case Obj(members) => SortedIsNormalObject(members);
    case _ =>
  }

  lemma {:induction false} SortedIsNormalObject(members: seq<Member>)
    requires KeySorted(Obj(members))
    ensures Unique(Obj(members)) && Normal(Obj(members)) == Obj(members)
    decreases members
  {
    hide SortKeys;
    var keys := Keys(members);
    AscendingIsDistinct(keys);
    SortHolds(keys);
    SortAscends(keys);
    AscendingIsUnique(SortKeys(keys), keys);
    forall i | 0 <= i < |members| ensures Unique(members[i].value) && NormalMembers(members, keys)[i] == members[i] {
      SortedIsNormal(members[i].value);
      NormalMemberAt(members, keys, i);
      IndexIsUnique(members, i);
    }
  }

  /** In every object, at any depth, each key precedes the next. */
  predicate KeysInOrder(v: Json) {
    match v
    case Arr(items) => forall i :: 0 <= i < |items| ==> KeysInOrder(items[i])
    case Obj(members) =>
      && (forall i :: 0 < i < |members| ==> Precedes(members[i - 1].key, members[i].key))
      && forall i :: 0 <= i < |members| ==> KeysInOrder(members[i].value)
    case _ => true
  }

  lemma {:induction false} StepwiseAscends(keys: seq<Text>, i: nat, j: nat)
    requires i < j < |keys| && forall k :: 0 < k < |keys| ==> Before(keys[k - 1], keys[k])
    ensures Before(keys[i], keys[j])
    decreases j
  {
    assert Before(keys[j - 1], keys[j]);
    if i < j - 1 {
      StepwiseAscends(keys, i, j - 1);
      BeforeIsTransitive(keys[i], keys[j - 1], keys[j]);
    }
  }

  lemma AscendingInSteps(members: seq<Member>)
    ensures Ascending(Keys(members)) <==> forall i :: 0 < i < |members| ==> Precedes(members[i - 1].key, members[i].key)
  {
    hide Before, Precedes;
    var keys := Keys(members);
    forall i | 0 < i < |members|
      ensures Before(keys[i - 1], keys[i]) <==> Precedes(members[i - 1].key, members[i].key)
    {
      BeforeIsPrecedes(keys[i - 1], keys[i]);
    }
    if forall i :: 0 < i < |members| ==> Precedes(members[i - 1].key, members[i].key) {
      forall i, j | 0 <= i < j < |keys| ensures Before(keys[i], keys[j]) { StepwiseAscends(keys, i, j); }
    }
  }

  lemma {:induction false} SortedIsInOrder(v: Json)
    ensures KeySorted(v) <==> KeysInOrder(v)
  {
    hide Before, Precedes;
    match v
    case Arr(items) =>
      forall i | 0 <= i < |items| ensures KeySorted(items[i]) <==> KeysInOrder(items[i]) { SortedIsInOrder(items[i]); }
    case Obj(members) =>
      AscendingInSteps(members);
      forall i | 0 <= i < |members| ensures KeySorted(members[i].value) <==> KeysInOrder(members[i].value) {
        SortedIsInOrder(members[i].value);
      }
    case _ =>
  }

  // ---------------------------------------------------------------- main results

  lemma CanonParses(v: Json)
    ensures Parse(Canon(v)) == Done(Normal(v), [])
  {
    CanonPrintsNormal(v);
    PrintRoundTrip(Normal(v), []);
    assert Print(Normal(v)) + [] == Print(Normal(v));
  }

  /** Parsing the text yields the value with the keys of every object in the order of their code units, and otherwise
      unchanged. */
  lemma CanonRecoversSorted(v: Json)
    requires Unique(v)
    ensures var p := Parse(Canon(v));
      p.Done? && p.rest == [] && Unique(p.value) && KeysInOrder(p.value) && Same(v, p.value)
  {
    CanonParses(v);
    SortedIsInOrder(Normal(v));
    NormalIsSorted(v);
    SortedIsNormal(Normal(v));
    OneNormalIsSame(v, Normal(v));
  }

  /** The canonical text is the plain `JSON.stringify` text exactly when the keys are in order already. */
  lemma CanonIsPlainPrint(v: Json)
    requires Unique(v)
    ensures Canon(v) == Print(v) <==> KeysInOrder(v)
  {
    SortedIsInOrder(v);
    CanonPrintsNormal(v);
    CanonParses(v);
    PrintRoundTrip(v, []);
    assert Print(v) + [] == Print(v);
    NormalIsSorted(v);
    if KeySorted(v) { SortedIsNormal(v); }
  }

  /** Two values have one canonical text exactly when they are equal up to key order. */
  lemma CanonIsExact(a: Json, b: Json)
    requires Unique(a) && Unique(b)
    ensures Canon(a) == Canon(b) <==> Same(a, b)
  {
    CanonParses(a);
    CanonParses(b);
    CanonPrintsNormal(a);
    CanonPrintsNormal(b);
    if Same(a, b) { SameHasOneNormal(a, b); }
    if Normal(a) == Normal(b) { OneNormalIsSame(a, b); }
  }

  /** The bytes that are hashed are just as exact: escaping leaves no unpaired surrogate to be replaced. */
  lemma BytesAreExact(a: Json, b: Json)
    requires Unique(a) && Unique(b)
    ensures Utf8.Encode(Canon(a)) == Utf8.Encode(Canon(b)) <==> Same(a, b)
  {
    CanonIsExact(a, b);
    CanonPrintsNormal(a);
    CanonPrintsNormal(b);
    Utf8.PrintIsWellFormed(Normal(a));
    Utf8.PrintIsWellFormed(Normal(b));
    Utf8.Utf8RoundTrip(Canon(a));
    Utf8.Utf8RoundTrip(Canon(b));
  }
}
