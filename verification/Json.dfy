/** JSON values, `JSON.stringify` without spacing, and a parser that undoes it (section 7 of RFC 8259 for
    string literals). Text is a sequence of UTF-16 code units; numbers are integers. */
module Json {
  import opened Decimal

  datatype Json =
    | Null
    | Bool(b: bool)
    | Num(i: int)
    | Str(s: Text)
    | Arr(items: seq<Json>)
    | Obj(members: seq<Member>)

  datatype Member = Member(key: Text, value: Json)

  const QUOTE: CodeUnit := 34
  const BACKSLASH: CodeUnit := 92
  const COMMA: CodeUnit := 44
  const COLON: CodeUnit := 58
  const MINUS: CodeUnit := 45
  const LBRACK: CodeUnit := 91
  const RBRACK: CodeUnit := 93
  const LBRACE: CodeUnit := 123
  const RBRACE: CodeUnit := 125
  const NULL: Text := [110, 117, 108, 108]
  const TRUE: Text := [116, 114, 117, 101]
  const FALSE: Text := [102, 97, 108, 115, 101]

  // ---------------------------------------------------------------- string literals

  predicate IsHigh(c: CodeUnit) { 0xD800 <= c <= 0xDBFF }
  predicate IsLow(c: CodeUnit) { 0xDC00 <= c <= 0xDFFF }

  /** Whether `s` starts with a surrogate pair, which is copied as it stands. */
  predicate StartsWithPair(s: Text) { |s| > 1 && IsHigh(s[0]) && IsLow(s[1]) }

  function HexDigit(n: nat): CodeUnit
    requires n < 16
  {
    if n < 10 then 48 + n else 87 + n
  }

  function HexValue(c: CodeUnit): nat { if 48 <= c <= 57 then c - 48 else if 97 <= c <= 102 then c - 87 else 16 }

  function Hex4(c: CodeUnit): Text {
    [HexDigit(c / 4096), HexDigit(c / 256 % 16), HexDigit(c / 16 % 16), HexDigit(c % 16)]
  }

  /** The letter of a two-character escape, or 0. */
  function ShortEscape(c: CodeUnit): CodeUnit {
    if c == QUOTE || c == BACKSLASH then c
    else if c == 8 then 98
    else if c == 9 then 116
    else if c == 10 then 110
    else if c == 12 then 102
    else if c == 13 then 114
    else 0
  }

  function EscapeUnit(c: CodeUnit): Text {
    if ShortEscape(c) != 0 then [BACKSLASH, ShortEscape(c)]
    else if c < 0x20 || IsHigh(c) || IsLow(c) then [BACKSLASH, 117] + Hex4(c)
    else [c]
  }

  function Escape(s: Text): Text {
    if s == [] then []
    else if StartsWithPair(s) then s[..2] + Escape(s[2..])
    else EscapeUnit(s[0]) + Escape(s[1..])
  }

  function PrintString(s: Text): Text { [QUOTE] + Escape(s) + [QUOTE] }

  // ---------------------------------------------------------------- printing

  function PrintInt(i: int): Text { if i < 0 then [MINUS] + Numeral(-i) else Numeral(i) }

  function Print(v: Json): Text {
    match v
    case Null => NULL
    case Bool(b) => if b then TRUE else FALSE
    case Num(i) => PrintInt(i)
    case Str(s) => PrintString(s)
    case Arr(items) => [LBRACK] + PrintItems(items) + [RBRACK]
    case Obj(members) => [LBRACE] + PrintMembers(members) + [RBRACE]
  }

  function PrintItems(items: seq<Json>): Text {
    if items == [] then []
    else if |items| == 1 then Print(items[0])
    else Print(items[0]) + [COMMA] + PrintItems(items[1..])
  }

  function PrintMembers(members: seq<Member>): Text {
    if members == [] then []
    else if |members| == 1 then PrintMember(members[0])
    else PrintMember(members[0]) + [COMMA] + PrintMembers(members[1..])
  }

  function PrintMember(m: Member): Text { PrintString(m.key) + [COLON] + Print(m.value) }

  // ---------------------------------------------------------------- parsing

  datatype Parsed<+T> = Fail | Done(value: T, rest: Text)

  /** The unit that a two-character escape stands for, or 0. */
  function Unescape(letter: CodeUnit): CodeUnit {
    if letter == QUOTE || letter == BACKSLASH then letter
    else if letter == 98 then 8
    else if letter == 116 then 9
    else if letter == 110 then 10
    else if letter == 102 then 12
    else if letter == 114 then 13
    else 0
  }

  predicate IsHex4(s: Text) { |s| == 4 && forall i :: 0 <= i < 4 ==> HexValue(s[i]) < 16 }

  function ReadHex4(s: Text): CodeUnit
    requires IsHex4(s)
  {
    4096 * HexValue(s[0]) + 256 * HexValue(s[1]) + 16 * HexValue(s[2]) + HexValue(s[3])
  }

  /** One code unit of a string literal, escaped or not. */
  function ReadUnit(s: Text): (r: Parsed<CodeUnit>)
    ensures r.Done? ==> |r.rest| < |s|
  {
    if s == [] then Fail
    else if s[0] != BACKSLASH then Done(s[0], s[1..])
    else if |s| >= 2 && Unescape(s[1]) != 0 then Done(Unescape(s[1]), s[2..])
    else if |s| >= 6 && s[1] == 117 && IsHex4(s[2..6]) then Done(ReadHex4(s[2..6]), s[6..])
    else Fail
  }

  /** The rest of a string literal whose opening quote has been read. */
  function ParseString(s: Text): (r: Parsed<Text>)
    ensures r.Done? ==> |r.rest| < |s|
    decreases |s|
  {
    if s == [] then Fail
    else if s[0] == QUOTE then Done([], s[1..])
    else
      var u := ReadUnit(s);
      if u.Fail? then Fail
      else
        var p := ParseString(u.rest);
        if p.Done? then Done([u.value] + p.value, p.rest) else Fail
  }

  /** How many digits `s` starts with. */
  function DigitRun(s: Text): (n: nat)
    ensures n <= |s| && AllDigits(s[..n])
    ensures n < |s| ==> !IsDigit(s[n])
  {
    if s == [] || !IsDigit(s[0]) then 0 else 1 + DigitRun(s[1..])
  }

  function ParseNat(s: Text): (r: Parsed<nat>)
    ensures r.Done? ==> |r.rest| < |s|
  {
    if DigitRun(s) == 0 then Fail else Done(Value(s[..DigitRun(s)]), s[DigitRun(s)..])
  }

  function ParseInt(s: Text): (r: Parsed<Json>)
    ensures r.Done? ==> |r.rest| < |s|
  {
    if s != [] && s[0] == MINUS then
      (var p := ParseNat(s[1..]); if p.Done? then Done(Num(0 - p.value), p.rest) else Fail)
    else
      (var p := ParseNat(s); if p.Done? then Done(Num(p.value), p.rest) else Fail)
  }

  function ParseWord(s: Text, word: Text, v: Json): (r: Parsed<Json>)
    requires word != []
    ensures r.Done? ==> |r.rest| < |s|
  {
    if |s| >= |word| && s[..|word|] == word then Done(v, s[|word|..]) else Fail
  }

  function Parse(s: Text): (r: Parsed<Json>)
    ensures r.Done? ==> |r.rest| < |s|
    decreases |s|, 2
  {
    if s == [] then Fail
    else if s[0] == NULL[0] then ParseWord(s, NULL, Null)
    else if s[0] == TRUE[0] then ParseWord(s, TRUE, Bool(true))
    else if s[0] == FALSE[0] then ParseWord(s, FALSE, Bool(false))
    else if s[0] == QUOTE then
      (var p := ParseString(s[1..]); if p.Done? then Done(Str(p.value), p.rest) else Fail)
    else if s[0] == LBRACK then
      (if |s| > 1 && s[1] == RBRACK then Done(Arr([]), s[2..])
       else var p := ParseItems(s[1..]); if p.Done? then Done(Arr(p.value), p.rest) else Fail)
    else if s[0] == LBRACE then
      (if |s| > 1 && s[1] == RBRACE then Done(Obj([]), s[2..])
       else var p := ParseMembers(s[1..]); if p.Done? then Done(Obj(p.value), p.rest) else Fail)
    else ParseInt(s)
  }

  /** One or more items, up to and with the closing bracket. */
  function ParseItems(s: Text): (r: Parsed<seq<Json>>)
    ensures r.Done? ==> |r.rest| < |s|
    decreases |s|, 4
  {
    var p := Parse(s);
    if p.Fail? || p.rest == [] then Fail
    else if p.rest[0] == RBRACK then Done([p.value], p.rest[1..])
    else if p.rest[0] == COMMA then
      (var q := ParseItems(p.rest[1..]); if q.Done? then Done([p.value] + q.value, q.rest) else Fail)
    else Fail
  }

  function ParseMember(s: Text): (r: Parsed<Member>)
    ensures r.Done? ==> |r.rest| < |s|
    decreases |s|, 3
  {
    if s == [] || s[0] != QUOTE then Fail
    else
      var k := ParseString(s[1..]);
      if k.Fail? || k.rest == [] || k.rest[0] != COLON then Fail
      else
        var p := Parse(k.rest[1..]);
        if p.Done? then Done(Member(k.value, p.value), p.rest) else Fail
  }

  function ParseMembers(s: Text): (r: Parsed<seq<Member>>)
    ensures r.Done? ==> |r.rest| < |s|
    decreases |s|, 4
  {
    var p := ParseMember(s);
    if p.Fail? || p.rest == [] then Fail
    else if p.rest[0] == RBRACE then Done([p.value], p.rest[1..])
    else if p.rest[0] == COMMA then
      (var q := ParseMembers(p.rest[1..]); if q.Done? then Done([p.value] + q.value, q.rest) else Fail)
    else Fail
  }

  // ---------------------------------------------------------------- the parser undoes the printer

  lemma HexDigits(c: CodeUnit)
    ensures c / 4096 < 16 && 4096 * (c / 4096) + 256 * (c / 256 % 16) + 16 * (c / 16 % 16) + c % 16 == c
  {
    assert c / 256 == c / 16 / 16 && c / 4096 == c / 256 / 16;
  }

  lemma ReadsHex(c: CodeUnit)
    ensures IsHex4(Hex4(c)) && ReadHex4(Hex4(c)) == c
  {
    HexDigits(c);
    var a, b, d, e := c / 4096, c / 256 % 16, c / 16 % 16, c % 16;
    assert Hex4(c) == [HexDigit(a), HexDigit(b), HexDigit(d), HexDigit(e)];
    HexDigitReads(a);
    HexDigitReads(b);
    HexDigitReads(d);
    HexDigitReads(e);
  }

  lemma HexDigitReads(n: nat)
    requires n < 16
    ensures HexValue(HexDigit(n)) == n
  {
  }

  lemma EscapedUnitReads(c: CodeUnit, rest: Text)
    ensures ReadUnit(EscapeUnit(c) + rest) == Done(c, rest)
    ensures EscapeUnit(c)[0] != QUOTE
  {
    hide IsHex4, ReadHex4, HexDigit;
    var s := EscapeUnit(c) + rest;
    assert s[|EscapeUnit(c)|..] == rest;
    if ShortEscape(c) == 0 && (c < 0x20 || IsHigh(c) || IsLow(c)) {
      assert s[2..6] == Hex4(c);
      ReadsHex(c);
    }
  }

  /** How a code unit is written: by two characters for the quote, the backslash and the five control characters with a
      letter of their own, by six for the other control characters and unpaired surrogates, else as it stands. Which
      letter and digits they are is fixed by their being read back. */
  lemma EscapeMeaning(c: CodeUnit)
    ensures |EscapeUnit(c)| == 2 <==> c in {8, 9, 10, 12, 13, 34, 92}
    ensures |EscapeUnit(c)| == 6 <==> (c < 32 && c !in {8, 9, 10, 12, 13}) || 0xD800 <= c <= 0xDFFF
    ensures EscapeUnit(c) == [c] <==> |EscapeUnit(c)| != 2 && |EscapeUnit(c)| != 6
    ensures ReadUnit(EscapeUnit(c)) == Done(c, [])
  {
    EscapedUnitReads(c, []);
    assert EscapeUnit(c) + [] == EscapeUnit(c);
  }

  lemma {:induction false} StringRoundTrip(t: Text, rest: Text)
    ensures ParseString(Escape(t) + [QUOTE] + rest) == Done(t, rest)
    decreases |t|
  {
    hide EscapeUnit, ReadUnit;
    var s := Escape(t) + [QUOTE] + rest;
    if t == [] {
      assert s[1..] == rest;
    } else if StartsWithPair(t) {
      var tail := Escape(t[2..]) + [QUOTE] + rest;
      assert s == [t[0]] + ([t[1]] + tail);
      StringRoundTrip(t[2..], rest);
      RawUnitParses(t[1], tail);
      RawUnitParses(t[0], [t[1]] + tail);
      assert [t[0]] + ([t[1]] + t[2..]) == t;
    } else {
      var tail := Escape(t[1..]) + [QUOTE] + rest;
      assert s == EscapeUnit(t[0]) + tail;
      StringRoundTrip(t[1..], rest);
      EscapedUnitReads(t[0], tail);
      assert [t[0]] + t[1..] == t;
    }
  }

  lemma RawUnitParses(c: CodeUnit, tail: Text)
    requires c != QUOTE && c != BACKSLASH
    requires ParseString(tail).Done?
    ensures var p := ParseString(tail); ParseString([c] + tail) == Done([c] + p.value, p.rest)
  {
    assert ([c] + tail)[1..] == tail;
  }

  /** What may follow a value without being read into it. */
  predicate Stops(rest: Text) { rest == [] || !IsDigit(rest[0]) }

  lemma {:induction false} DigitRunOf(digits: Text, rest: Text)
    requires AllDigits(digits) && Stops(rest)
    ensures DigitRun(digits + rest) == |digits|
  {
    if digits == [] {
      assert digits + rest == rest;
    } else {
      DigitRunOf(digits[1..], rest);
      assert (digits + rest)[1..] == digits[1..] + rest;
    }
  }

  lemma NatRoundTrip(n: nat, rest: Text)
    requires Stops(rest)
    ensures ParseNat(Numeral(n) + rest) == Done(n, rest)
  {
    DigitRunOf(Numeral(n), rest);
    ValueOfNumeral(n);
    assert (Numeral(n) + rest)[..|Numeral(n)|] == Numeral(n);
    assert (Numeral(n) + rest)[|Numeral(n)|..] == rest;
  }

  lemma IntRoundTrip(i: int, rest: Text)
    requires Stops(rest)
    ensures Parse(PrintInt(i) + rest) == Done(Num(i), rest)
  {
    hide Numeral, ParseNat;
    var s := PrintInt(i) + rest;
    if i < 0 {
      NatRoundTrip(-i, rest);
      assert s[1..] == Numeral(-i) + rest;
    } else {
      NatRoundTrip(i, rest);
      assert IsDigit(s[0]);
    }
  }

  lemma PrintStart(v: Json)
    ensures Print(v) != [] && Print(v)[0] != RBRACK && Print(v)[0] != RBRACE
  {
  }

  /** Parsing a printed value gives it back, and leaves what follows. */
  lemma {:induction false} PrintRoundTrip(v: Json, rest: Text)
    requires Stops(rest)
    ensures Parse(Print(v) + rest) == Done(v, rest)
    decreases v
  {
    hide PrintInt, Escape, ParseString, ParseItems, ParseMembers, ParseInt, PrintItems, PrintMembers;
    var s := Print(v) + rest;
    match v
    case Null => assert s[..4] == NULL && s[4..] == rest;
    case Bool(b) =>
      if b {
        assert s[..4] == TRUE && s[4..] == rest;
      } else {
        assert s[..5] == FALSE && s[5..] == rest;
      }
    case Num(i) => IntRoundTrip(i, rest);
    case Str(t) =>
      StringRoundTrip(t, rest);
      assert s[1..] == Escape(t) + [QUOTE] + rest;
    case Arr(items) => ArrRoundTrip(items, rest);
    case Obj(members) => ObjRoundTrip(members, rest);
  }

  lemma {:induction false} ArrRoundTrip(items: seq<Json>, rest: Text)
    ensures Parse(Print(Arr(items)) + rest) == Done(Arr(items), rest)
    decreases items, 1
  {
    hide ParseItems;
    var s := Print(Arr(items)) + rest;
    assert s == [LBRACK] + PrintItems(items) + [RBRACK] + rest;
    if items == [] {
      assert s == [LBRACK, RBRACK] + rest;
    } else {
      ItemsRoundTrip(items, rest);
      assert s[1..] == PrintItems(items) + [RBRACK] + rest;
      PrintStart(items[0]);
      assert s[1] == Print(items[0])[0];
    }
  }

  lemma {:induction false} ObjRoundTrip(members: seq<Member>, rest: Text)
    ensures Parse(Print(Obj(members)) + rest) == Done(Obj(members), rest)
    decreases members, 1
  {
    hide ParseMembers, Escape;
    var s := Print(Obj(members)) + rest;
    assert s == [LBRACE] + PrintMembers(members) + [RBRACE] + rest;
    if members == [] {
      assert s == [LBRACE, RBRACE] + rest;
    } else {
      MembersRoundTrip(members, rest);
      assert s[1..] == PrintMembers(members) + [RBRACE] + rest;
      assert s[1] == QUOTE;
    }
  }

  lemma {:induction false} ItemsRoundTrip(items: seq<Json>, rest: Text)
    requires items != []
    ensures ParseItems(PrintItems(items) + [RBRACK] + rest) == Done(items, rest)
    decreases items, 0
  {
    hide Parse, Print;
    var s := PrintItems(items) + [RBRACK] + rest;
    if |items| == 1 {
      PrintRoundTrip(items[0], [RBRACK] + rest);
      assert s == Print(items[0]) + ([RBRACK] + rest);
      assert ([RBRACK] + rest)[1..] == rest;
      assert items == [items[0]];
    } else {
      var tail := PrintItems(items[1..]) + [RBRACK] + rest;
      PrintRoundTrip(items[0], [COMMA] + tail);
      assert s == Print(items[0]) + ([COMMA] + tail);
      assert ([COMMA] + tail)[1..] == tail;
      ItemsRoundTrip(items[1..], rest);
      assert items == [items[0]] + items[1..];
    }
  }

  lemma {:induction false} MemberRoundTrip(m: Member, rest: Text)
    requires Stops(rest)
    ensures ParseMember(PrintMember(m) + rest) == Done(m, rest)
    decreases m
  {
    hide Parse, Print, ParseString, Escape;
    var s := PrintMember(m) + rest;
    var tail := [COLON] + Print(m.value) + rest;
    assert s[1..] == Escape(m.key) + [QUOTE] + tail;
    StringRoundTrip(m.key, tail);
    assert tail[1..] == Print(m.value) + rest;
    PrintRoundTrip(m.value, rest);
  }

  lemma {:induction false} MembersRoundTrip(members: seq<Member>, rest: Text)
    requires members != []
    ensures ParseMembers(PrintMembers(members) + [RBRACE] + rest) == Done(members, rest)
    decreases members, 0
  {
    hide ParseMember, PrintMember;
    var s := PrintMembers(members) + [RBRACE] + rest;
    if |members| == 1 {
      MemberRoundTrip(members[0], [RBRACE] + rest);
      assert s == PrintMember(members[0]) + ([RBRACE] + rest);
      assert ([RBRACE] + rest)[1..] == rest;
      assert members == [members[0]];
    } else {
      var tail := PrintMembers(members[1..]) + [RBRACE] + rest;
      MemberRoundTrip(members[0], [COMMA] + tail);
      assert s == PrintMember(members[0]) + ([COMMA] + tail);
      assert ([COMMA] + tail)[1..] == tail;
      MembersRoundTrip(members[1..], rest);
      assert members == [members[0]] + members[1..];
    }
  }

  /** And a text is written unit by unit, except that the two halves of a surrogate pair stand as they are. */
  lemma EscapeStep(c: CodeUnit, rest: Text)
    ensures Escape([c] + rest) ==
      if rest != [] && 0xD800 <= c <= 0xDBFF && 0xDC00 <= rest[0] <= 0xDFFF then [c, rest[0]] + Escape(rest[1..])
      else EscapeUnit(c) + Escape(rest)
  {
    hide EscapeUnit;
    var s := [c] + rest;
    assert s[1..] == rest;
    if rest != [] { assert s[..2] == [c, rest[0]] && s[2..] == rest[1..]; }
  }

  // ---------------------------------------------------------------- the characters used

  predicate Spells(t: Text, s: string) { |t| == |s| && forall i :: 0 <= i < |s| ==> t[i] == s[i] as int }

  /** The words and punctuation of JSON. */
  lemma JsonSpelling()
    ensures Spells(NULL, "null") && Spells(TRUE, "true") && Spells(FALSE, "false")
    ensures Spells([LBRACE, QUOTE, COLON, LBRACK, COMMA, MINUS, RBRACK, RBRACE, BACKSLASH], "{\":[,-]}\\")
  {
  }
}
