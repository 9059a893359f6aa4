/** UTF-8 as the runtime encodes a string for hashing and measuring: an unpaired surrogate is replaced,
    so only well-formed text survives. */
module Utf8 {
  import opened Base
  import opened Decimal
  import opened Json

  predicate IsSurrogate(c: CodeUnit) { IsHigh(c) || IsLow(c) }

  predicate WellFormed(t: Text) {
    if t == [] then true
    else if StartsWithPair(t) then WellFormed(t[2..])
    else !(0xD800 <= t[0] <= 0xDFFF) && WellFormed(t[1..])
  }

  const REPLACEMENT: seq<byte> := [0xEF, 0xBF, 0xBD]

  predicate IsAstral(cp: nat) { 0x1_0000 <= cp < 0x11_0000 }

  function CodePoint(high: CodeUnit, low: CodeUnit): (cp: nat)
    requires IsHigh(high) && IsLow(low)
    ensures IsAstral(cp)
  {
    0x1_0000 + 1024 * (high - 0xD800) + (low - 0xDC00)
  }

  function PairOf(cp: nat): Text
    requires IsAstral(cp)
  {
    [0xD800 + (cp - 0x1_0000) / 1024, 0xDC00 + (cp - 0x1_0000) % 1024]
  }

  function EncodeAstral(cp: nat): (b: seq<byte>)
    requires IsAstral(cp)
    ensures |b| == 4 && b[0] >= 0xF0
  {
    [0xF0 + cp / 262144, 0x80 + cp / 4096 % 64, 0x80 + cp / 64 % 64, 0x80 + cp % 64]
  }

  function EncodeUnit(c: CodeUnit): seq<byte> {
    if c < 0x80 then [c]
    else if c < 0x800 then [0xC0 + c / 64, 0x80 + c % 64]
    else if IsSurrogate(c) then REPLACEMENT
    else [0xE0 + c / 4096, 0x80 + c / 64 % 64, 0x80 + c % 64]
  }

  function Encode(t: Text): seq<byte> {
    if t == [] then []
    else if StartsWithPair(t) then EncodeAstral(CodePoint(t[0], t[1])) + Encode(t[2..])
    else EncodeUnit(t[0]) + Encode(t[1..])
  }

  datatype Character = Character(text: Text, size: nat)

  /** The six bits carried by a byte of a longer sequence. */
  function Bits(b: byte): nat { b % 64 }

  function LeadBits(b: byte): nat { if b < 0xE0 then b % 32 else if b < 0xF0 then b % 16 else b % 8 }

  /** The text of the first encoded character and its size in bytes; malformed input is skipped. */
  function DecodeUnit(b: seq<byte>): (u: Character)
    requires b != []
    ensures 1 <= u.size <= |b|
  {
    if b[0] < 0x80 then Character([b[0]], 1)
    else if b[0] < 0xE0 && |b| >= 2 then Character([64 * LeadBits(b[0]) + Bits(b[1])], 2)
    else if b[0] < 0xF0 && |b| >= 3 then Character([4096 * LeadBits(b[0]) + 64 * Bits(b[1]) + Bits(b[2])], 3)
    else if |b| >= 4 then
      var cp := 262144 * LeadBits(b[0]) + 4096 * Bits(b[1]) + 64 * Bits(b[2]) + Bits(b[3]);
      Character(if IsAstral(cp) then PairOf(cp) else [], 4)
    else Character([], |b|)
  }

  function Decode(b: seq<byte>): Text
    decreases |b|
  {
    if b == [] then []
    else var u := DecodeUnit(b); u.text + Decode(b[u.size..])
  }

  lemma SixBitDigits(n: nat)
    ensures 64 * (n / 64) + n % 64 == n
    ensures 4096 * (n / 4096) + 64 * (n / 64 % 64) + n % 64 == n
    ensures 262144 * (n / 262144) + 4096 * (n / 4096 % 64) + 64 * (n / 64 % 64) + n % 64 == n
  {
    assert n / 4096 == n / 64 / 64 && n / 262144 == n / 4096 / 64;
  }

  lemma ContinuationBits(d: nat)
    requires d < 64
    ensures Bits(0x80 + d) == d
  {
  }

  lemma UnitRoundTrip(c: CodeUnit, rest: seq<byte>)
    requires !IsSurrogate(c)
    ensures DecodeUnit(EncodeUnit(c) + rest) == Character([c], |EncodeUnit(c)|)
  {
    if c < 0x80 {
    } else if c < 0x800 {
      TwoBytes(c, rest);
    } else {
      ThreeBytes(c, rest);
    }
  }

  lemma TwoBytes(c: CodeUnit, rest: seq<byte>)
    requires 0x80 <= c < 0x800
    ensures DecodeUnit(EncodeUnit(c) + rest) == Character([c], 2) && |EncodeUnit(c)| == 2
  {
    hide Bits;
    SixBitDigits(c);
    ContinuationBits(c % 64);
  }

  lemma ThreeBytes(c: CodeUnit, rest: seq<byte>)
    requires 0x800 <= c && !IsSurrogate(c)
    ensures DecodeUnit(EncodeUnit(c) + rest) == Character([c], 3) && |EncodeUnit(c)| == 3
  {
    hide Bits;
    SixBitDigits(c);
    ContinuationBits(c % 64);
    ContinuationBits(c / 64 % 64);
  }

  lemma AstralRoundTrip(cp: nat, rest: seq<byte>)
    requires IsAstral(cp)
    ensures DecodeUnit(EncodeAstral(cp) + rest) == Character(PairOf(cp), 4)
  {
    hide Bits, PairOf;
    SixBitDigits(cp);
    ContinuationBits(cp % 64);
    ContinuationBits(cp / 64 % 64);
    ContinuationBits(cp / 4096 % 64);
  }

  lemma PairRoundTrip(high: CodeUnit, low: CodeUnit)
    requires IsHigh(high) && IsLow(low)
    ensures PairOf(CodePoint(high, low)) == [high, low]
  {
  }

  lemma LoneSurrogate(c: CodeUnit)
    requires IsSurrogate(c)
    ensures EncodeUnit(c) == REPLACEMENT && |REPLACEMENT| == 3
  {
  }

  /** The text with U+FFFD for every unpaired surrogate. */
  function Replaced(t: Text): Text {
    if t == [] then []
    else if StartsWithPair(t) then t[..2] + Replaced(t[2..])
    else [if 0xD800 <= t[0] <= 0xDFFF then 0xFFFD else t[0]] + Replaced(t[1..])
  }

  lemma ReplacementReads(rest: seq<byte>)
    ensures DecodeUnit(REPLACEMENT + rest) == Character([0xFFFD], 3)
  {
  }

  /** Every text comes back from its bytes with its unpaired surrogates replaced, so well-formed text and no other
      comes back as it was. */
  lemma {:induction false} Utf8RoundTrip(t: Text)
    ensures Decode(Encode(t)) == Replaced(t)
    ensures Replaced(t) == t <==> WellFormed(t)
    decreases |t|
  {
    hide EncodeUnit, EncodeAstral, CodePoint, PairOf, DecodeUnit;
    if t == [] {
    } else if StartsWithPair(t) {
      var rest := Encode(t[2..]);
      PairRoundTrip(t[0], t[1]);
      AstralRoundTrip(CodePoint(t[0], t[1]), rest);
      assert Encode(t)[4..] == rest;
      Utf8RoundTrip(t[2..]);
      assert t == t[..2] + t[2..] && Replaced(t)[2..] == Replaced(t[2..]);
    } else {
      var rest := Encode(t[1..]);
      if IsSurrogate(t[0]) {
        LoneSurrogate(t[0]);
        ReplacementReads(rest);
      } else {
        UnitRoundTrip(t[0], rest);
      }
      assert Encode(t)[|EncodeUnit(t[0])|..] == rest;
      assert Encode(t) != [];
      Utf8RoundTrip(t[1..]);
      assert t == [t[0]] + t[1..] && Replaced(t)[1..] == Replaced(t[1..]);
    }
  }

  lemma {:induction false} WellFormedConcat(s: Text, t: Text)
    requires WellFormed(s) && WellFormed(t)
    ensures WellFormed(s + t)
    decreases |s|
  {
    if s == [] {
      assert s + t == t;
    } else if StartsWithPair(s) {
      WellFormedConcat(s[2..], t);
      assert (s + t)[2..] == s[2..] + t;
    } else {
      WellFormedConcat(s[1..], t);
      assert (s + t)[1..] == s[1..] + t;
    }
  }

  predicate Plain(t: Text) { forall i :: 0 <= i < |t| ==> t[i] < 0xD800 }

  lemma {:induction false} PlainIsWellFormed(t: Text)
    requires Plain(t)
    ensures WellFormed(t)
  {
    if t != [] { PlainIsWellFormed(t[1..]); }
  }

  // ---------------------------------------------------------------- printed JSON is well formed

  lemma EscapedUnitIsPlain(c: CodeUnit)
    ensures (EscapeUnit(c) == [c] && !IsSurrogate(c)) || Plain(EscapeUnit(c))
  {
  }

  lemma {:induction false} EscapeIsWellFormed(t: Text)
    ensures WellFormed(Escape(t))
    decreases |t|
  {
    hide EscapeUnit;
    if t == [] {
    } else if StartsWithPair(t) {
      EscapeIsWellFormed(t[2..]);
      assert t[..2][2..] == [];
      WellFormedConcat(t[..2], Escape(t[2..]));
    } else {
      EscapeIsWellFormed(t[1..]);
      EscapedUnitIsPlain(t[0]);
      if Plain(EscapeUnit(t[0])) {
        PlainIsWellFormed(EscapeUnit(t[0]));
      } else {
        assert [t[0]][1..] == [];
      }
      WellFormedConcat(EscapeUnit(t[0]), Escape(t[1..]));
    }
  }

  lemma StringIsWellFormed(t: Text)
    ensures WellFormed(PrintString(t))
  {
    EscapeIsWellFormed(t);
    WellFormedBetween([QUOTE], Escape(t), [QUOTE]);
  }

  lemma WellFormedBetween(a: Text, t: Text, b: Text)
    requires Plain(a) && Plain(b) && WellFormed(t)
    ensures WellFormed(a + t + b)
  {
    PlainIsWellFormed(a);
    PlainIsWellFormed(b);
    WellFormedConcat(a, t);
    WellFormedConcat(a + t, b);
  }

  lemma {:induction false} PrintIsWellFormed(v: Json)
    ensures WellFormed(Print(v))
    decreases v
  {
    hide WellFormed, PrintString, Numeral;
    match v
    case Null => PlainIsWellFormed(NULL);
    case Bool(b) => PlainIsWellFormed(Print(v));
    case Num(i) => PlainIsWellFormed(Print(v));
    case Str(s) => StringIsWellFormed(s);
    case Arr(items) =>
      ItemsAreWellFormed(items);
      WellFormedBetween([LBRACK], PrintItems(items), [RBRACK]);
    case Obj(members) =>
      MembersAreWellFormed(members);
      WellFormedBetween([LBRACE], PrintMembers(members), [RBRACE]);
  }

  lemma {:induction false} ItemsAreWellFormed(items: seq<Json>)
    ensures WellFormed(PrintItems(items))
    decreases items
  {
    hide Print;
    if items != [] {
      PrintIsWellFormed(items[0]);
      WellFormedBetween([], Print(items[0]), [COMMA]);
      assert [] + Print(items[0]) + [COMMA] == Print(items[0]) + [COMMA];
      ItemsAreWellFormed(items[1..]);
      WellFormedConcat(Print(items[0]) + [COMMA], PrintItems(items[1..]));
    }
  }

  lemma {:induction false} MembersAreWellFormed(members: seq<Member>)
    ensures WellFormed(PrintMembers(members))
    decreases members
  {
    hide Print, PrintString;
    if members != [] {
      var m := members[0];
      StringIsWellFormed(m.key);
      WellFormedBetween([], PrintString(m.key), [COLON]);
      assert [] + PrintString(m.key) + [COLON] == PrintString(m.key) + [COLON];
      PrintIsWellFormed(m.value);
      WellFormedConcat(PrintString(m.key) + [COLON], Print(m.value));
      WellFormedBetween([], PrintMember(m), [COMMA]);
      assert [] + PrintMember(m) + [COMMA] == PrintMember(m) + [COMMA];
      MembersAreWellFormed(members[1..]);
      WellFormedConcat(PrintMember(m) + [COMMA], PrintMembers(members[1..]));
    }
  }
}
