/** The wire codec of contract effects (crates/exec/src/effect_codec.rs; the encoder is that of
    crates/runtime/src/contracts.rs). */
module EffectCodec {
  import opened Base
  import opened BigEndian
  import opened Effects

  const U32: nat := 0x1_0000_0000

  datatype DecodeError = UnexpectedEnd | CountExceedsBlob | UnknownTag | TrailingBytes

  // ---------------------------------------------------------------- encoding

  function Tag(op: Op): byte {
    match op
    case Transfer(_, _) => 0
    case Refund(_, _) => 1
    case OpenStream(_, _, _) => 2
    case StopStream(_) => 3
    case SetVar(_, _) => 4
    case Abort(_) => 5
  }

  function Payload(op: Op): seq<byte> {
    match op
    case Transfer(to, amount) => Bytes(to, 20) + Bytes(amount, 16)
    case Refund(party, amount) => Bytes(party, 20) + Bytes(amount, 16)
    case OpenStream(to, rate, deposit) => Bytes(to, 20) + Bytes(rate, 16) + Bytes(deposit, 16)
    case StopStream(id) => Bytes(id, 8)
    case SetVar(key, value) => Bytes(key, 32) + Bytes(value, 32)
    case Abort(reason) => Bytes(reason, 32)
  }

  function EncodeOp(op: Op): seq<byte> { [Tag(op)] + Payload(op) }

  function EncodeOps(ops: seq<Op>): seq<byte> {
    if ops == [] then [] else EncodeOp(ops[0]) + EncodeOps(ops[1..])
  }

  /** The count is cast to 32 bits. */
  function Encode(ops: seq<Op>): seq<byte> { Bytes(|ops| % U32, 4) + EncodeOps(ops) }

  // ---------------------------------------------------------------- decoding, on values

  function PayloadLength(tag: byte): Option<nat> {
    if tag == 0 || tag == 1 then Some(36)
    else if tag == 2 then Some(52)
    else if tag == 3 then Some(8)
    else if tag == 4 then Some(64)
    else if tag == 5 then Some(32)
    else None
  }

  lemma FieldFits(s: seq<byte>)
    ensures |s| == 20 ==> Number(s) <= ADDRESS_MAX
    ensures |s| == 16 ==> Number(s) <= U128_MAX
    ensures |s| == 8 ==> Number(s) <= U64_MAX
    ensures |s| == 32 ==> Number(s) <= HASH_MAX
  {
    NumberFits(s);
    Widths();
  }

  function AddressOf(s: seq<byte>): Address requires |s| == 20 { FieldFits(s); Number(s) }
  function AmountOf(s: seq<byte>): u128 requires |s| == 16 { FieldFits(s); Number(s) }
  function IdOf(s: seq<byte>): u64 requires |s| == 8 { FieldFits(s); Number(s) }
  function HashOf(s: seq<byte>): Hash requires |s| == 32 { FieldFits(s); Number(s) }

  /** The op of a tag with a payload of the right length. */
  function OpOf(tag: byte, p: seq<byte>): Op
    requires PayloadLength(tag) == Some(|p|)
  {
    if tag == 0 then Transfer(AddressOf(p[..20]), AmountOf(p[20..]))
    else if tag == 1 then Refund(AddressOf(p[..20]), AmountOf(p[20..]))
    else if tag == 2 then OpenStream(AddressOf(p[..20]), AmountOf(p[20..36]), AmountOf(p[36..]))
    else if tag == 3 then StopStream(IdOf(p))
    else if tag == 4 then SetVar(HashOf(p[..32]), HashOf(p[32..]))
    else Abort(HashOf(p))
  }

  datatype Parsed<T> = Failed(error: DecodeError) | Parsed(value: T, rest: seq<byte>)

  function ParseOp(s: seq<byte>): Parsed<Op> {
    if s == [] then Failed(UnexpectedEnd)
    else
      var length := PayloadLength(s[0]);
      if length.None? then Failed(UnknownTag)
      else if |s| < 1 + length.value then Failed(UnexpectedEnd)
      else Parsed(OpOf(s[0], s[1..1 + length.value]), s[1 + length.value..])
  }

  function ParseOps(s: seq<byte>, count: nat): Parsed<seq<Op>> {
    if count == 0 then Parsed([], s)
    else
      match ParseOp(s)
      case Failed(e) => Failed(e)
      case Parsed(op, rest) =>
        match ParseOps(rest, count - 1)
        case Failed(e) => Failed(e)
        case Parsed(ops, end) => Parsed([op] + ops, end)
  }

  /** What is left to do once the count is known and has passed the guard. */
  function Finish(s: seq<byte>, count: nat): Result<seq<Op>, DecodeError> {
    match ParseOps(s, count)
    case Failed(e) => Err(e)
    case Parsed(ops, rest) => if rest == [] then Ok(ops) else Err(TrailingBytes)
  }

  function Decode(blob: seq<byte>): Result<seq<Op>, DecodeError> {
    if |blob| < 4 then Err(UnexpectedEnd)
    else if Number(blob[..4]) > |blob| then Err(CountExceedsBlob)
    else Finish(blob[4..], Number(blob[..4]))
  }

  // ---------------------------------------------------------------- one op

  lemma Fields(n: nat)
    ensures n <= ADDRESS_MAX ==> Number(Bytes(n, 20)) == n
    ensures n <= U128_MAX ==> Number(Bytes(n, 16)) == n
    ensures n <= U64_MAX ==> Number(Bytes(n, 8)) == n
    ensures n <= HASH_MAX ==> Number(Bytes(n, 32)) == n
  {
    hide Bytes, Number, Pow256;
    Widths();
    if n <= ADDRESS_MAX { Fits(n, 20); }
    if n <= U128_MAX { Fits(n, 16); }
    if n <= U64_MAX { Fits(n, 8); }
    if n <= HASH_MAX { Fits(n, 32); }
  }

  lemma OpOfPayload(op: Op)
    ensures PayloadLength(Tag(op)) == Some(|Payload(op)|)
    ensures OpOf(Tag(op), Payload(op)) == op
  {
    hide Bytes, Number;
    var p := Payload(op);
    match op
    case Transfer(to, amount) =>
      assert p[..20] == Bytes(to, 20) && p[20..] == Bytes(amount, 16);
      Fields(to); Fields(amount);
    case Refund(party, amount) =>
      assert p[..20] == Bytes(party, 20) && p[20..] == Bytes(amount, 16);
      Fields(party); Fields(amount);
    case OpenStream(to, rate, deposit) =>
      assert p[..20] == Bytes(to, 20) && p[20..36] == Bytes(rate, 16) && p[36..] == Bytes(deposit, 16);
      Fields(to); Fields(rate); Fields(deposit);
    case StopStream(id) => Fields(id);
    case SetVar(key, value) =>
      assert p[..32] == Bytes(key, 32) && p[32..] == Bytes(value, 32);
      Fields(key); Fields(value);
    case Abort(reason) => Fields(reason);
  }

  lemma ParseEncodedOp(op: Op, rest: seq<byte>)
    ensures ParseOp(EncodeOp(op) + rest) == Parsed(op, rest)
  {
    hide OpOf, Payload, Tag, PayloadLength;
    var s := EncodeOp(op) + rest;
    OpOfPayload(op);
    assert s[0] == Tag(op);
    assert s[1..1 + |Payload(op)|] == Payload(op);
    assert s[1 + |Payload(op)|..] == rest;
  }

  lemma EncodeParsedPayload(tag: byte, p: seq<byte>)
    requires PayloadLength(tag) == Some(|p|)
    ensures EncodeOp(OpOf(tag, p)) == [tag] + p
  {
    hide Bytes, Number;
    BytesOfNumber(p);
    if |p| >= 20 {
      BytesOfNumber(p[..20]);
      BytesOfNumber(p[20..]);
    }
    if |p| == 52 {
      BytesOfNumber(p[20..36]);
      BytesOfNumber(p[36..]);
      assert p == p[..20] + p[20..36] + p[36..];
    }
    if |p| == 64 {
      BytesOfNumber(p[..32]);
      BytesOfNumber(p[32..]);
      assert p == p[..32] + p[32..];
    }
    if |p| == 36 { assert p == p[..20] + p[20..]; }
  }

  lemma ParsedOpIsEncoded(s: seq<byte>)
    ensures ParseOp(s).Parsed? ==> s == EncodeOp(ParseOp(s).value) + ParseOp(s).rest
  {
    hide OpOf, EncodeOp, PayloadLength;
    if ParseOp(s).Parsed? {
      var length := PayloadLength(s[0]).value;
      EncodeParsedPayload(s[0], s[1..1 + length]);
      assert s == [s[0]] + s[1..1 + length] + s[1 + length..];
    }
  }

  lemma EncodedOpLength(op: Op)
    ensures |EncodeOp(op)| >= 9
  {
    hide Bytes;
  }

  // ---------------------------------------------------------------- op lists

  lemma {:induction false} ParseEncodedOps(ops: seq<Op>, rest: seq<byte>)
    ensures ParseOps(EncodeOps(ops) + rest, |ops|) == Parsed(ops, rest)
  {
    hide EncodeOp, ParseOp;
    if ops == [] {
      assert EncodeOps(ops) + rest == rest;
    } else {
      assert EncodeOps(ops) + rest == EncodeOp(ops[0]) + (EncodeOps(ops[1..]) + rest);
      ParseEncodedOp(ops[0], EncodeOps(ops[1..]) + rest);
      ParseEncodedOps(ops[1..], rest);
      assert [ops[0]] + ops[1..] == ops;
    }
  }

  lemma {:induction false} ParsedOpsAreEncoded(s: seq<byte>, count: nat)
    ensures var r := ParseOps(s, count);
      r.Parsed? ==> |r.value| == count && s == EncodeOps(r.value) + r.rest
    decreases count
  {
    hide ParseOp, EncodeOp;
    if count > 0 && ParseOp(s).Parsed? {
      var op, rest := ParseOp(s).value, ParseOp(s).rest;
      ParsedOpIsEncoded(s);
      ParsedOpsAreEncoded(rest, count - 1);
      var tail := ParseOps(rest, count - 1);
      if tail.Parsed? {
        assert ([op] + tail.value)[1..] == tail.value;
        assert s == EncodeOp(op) + (EncodeOps(tail.value) + tail.rest);
      }
    }
  }

  lemma {:induction false} EncodedOpsLength(ops: seq<Op>)
    ensures |EncodeOps(ops)| >= 9 * |ops|
  {
    hide EncodeOp;
    if ops != [] {
      EncodedOpLength(ops[0]);
      EncodedOpsLength(ops[1..]);
    }
  }

  lemma {:induction false} EncodeOpsSplit(xs: seq<Op>, ys: seq<Op>)
    ensures EncodeOps(xs + ys) == EncodeOps(xs) + EncodeOps(ys)
  {
    hide EncodeOp;
    if xs == [] {
      assert xs + ys == ys;
    } else {
      assert (xs + ys)[1..] == xs[1..] + ys;
      EncodeOpsSplit(xs[1..], ys);
    }
  }

  lemma Header(ops: seq<Op>)
    ensures var blob := Encode(ops);
      && |blob| >= 4 && blob[4..] == EncodeOps(ops) && Number(blob[..4]) == |ops| % U32
  {
    hide Bytes, Number, EncodeOps, Pow256;
    Widths();
    Fits(|ops| % U32, 4);
    assert Encode(ops)[..4] == Bytes(|ops| % U32, 4);
  }

  // ---------------------------------------------------------------- theorems

  /** An effect survives the wire exactly when its op count fits the 32-bit header. */
  lemma RoundTrip(ops: seq<Op>)
    ensures Decode(Encode(ops)) == Ok(ops) <==> |ops| < U32
  {
    hide ParseOps, Bytes, Number, EncodeOps, Encode;
    var n := |ops| % U32;
    Header(ops);
    EncodedOpsLength(ops);
    assert n <= |ops|;
    assert ops == ops[..n] + ops[n..];
    EncodeOpsSplit(ops[..n], ops[n..]);
    ParseEncodedOps(ops[..n], EncodeOps(ops[n..]));
    EncodedOpsLength(ops[n..]);
    if |ops| < U32 { assert ops[..n] == ops; }
  }

  /** Whatever decodes is the encoding of what it decodes to: an effect has one wire form. */
  lemma DecodedIsCanonical(blob: seq<byte>)
    ensures Decode(blob).Ok? ==> Encode(Decode(blob).value) == blob && |Decode(blob).value| < U32
  {
    hide ParseOps, Bytes, Number, EncodeOps, Pow256;
    if Decode(blob).Ok? {
      var count := Number(blob[..4]);
      NumberFits(blob[..4]);
      Widths();
      ParsedOpsAreEncoded(blob[4..], count);
      BytesOfNumber(blob[..4]);
      assert blob == blob[..4] + blob[4..];
      assert EncodeOps(Decode(blob).value) + [] == EncodeOps(Decode(blob).value);
    }
  }

  /** The blobs that decode are exactly the encodings of lists that fit. */
  lemma DecodableIffEncoded(blob: seq<byte>)
    ensures Decode(blob).Ok? <==> exists ops :: |ops| < U32 && Encode(ops) == blob
  {
    DecodedIsCanonical(blob);
    forall ops | |ops| < U32 && Encode(ops) == blob ensures Decode(blob).Ok? { RoundTrip(ops); }
  }

  lemma {:induction false} ParseOpsExtends(s: seq<byte>, more: seq<byte>, count: nat)
    ensures var r := ParseOps(s, count);
      r.Parsed? ==> ParseOps(s + more, count) == Parsed(r.value, r.rest + more)
  {
    hide ParseOps, EncodeOps;
    var r := ParseOps(s, count);
    if r.Parsed? {
      ParsedOpsAreEncoded(s, count);
      assert s + more == EncodeOps(r.value) + (r.rest + more);
      ParseEncodedOps(r.value, r.rest + more);
    }
  }

  /** No proper extension of a blob that decodes decodes, and therefore no proper prefix either. */
  lemma NoExtension(blob: seq<byte>, more: seq<byte>)
    requires Decode(blob).Ok? && Decode(blob + more).Ok?
    ensures more == []
  {
    hide ParseOps, Number;
    var all := blob + more;
    assert all[..4] == blob[..4] && all[4..] == blob[4..] + more;
    ParseOpsExtends(blob[4..], more, Number(blob[..4]));
  }

  lemma NoProperPrefix(blob: seq<byte>, cut: nat)
    requires Decode(blob).Ok? && cut < |blob|
    ensures Decode(blob[..cut]).Err?
  {
    hide Decode;
    if Decode(blob[..cut]).Ok? {
      assert blob == blob[..cut] + blob[cut..];
      NoExtension(blob[..cut], blob[cut..]);
    }
  }

  /** The early guard on the count refuses nothing that parsing would have accepted. */
  lemma CountGuardIsHarmless(blob: seq<byte>)
    requires |blob| >= 4
    ensures Finish(blob[4..], Number(blob[..4])).Ok? ==> Number(blob[..4]) <= |blob|
  {
    hide ParseOps, Number, EncodeOps;
    var count := Number(blob[..4]);
    if Finish(blob[4..], count).Ok? {
      ParsedOpsAreEncoded(blob[4..], count);
      EncodedOpsLength(Finish(blob[4..], count).value);
    }
  }

  // ---------------------------------------------------------------- the cursor

  class Cursor {
    const buf: seq<byte>
    var pos: nat

    /** The cursor never passes the end. */
    ghost predicate Valid()
      reads this
    {
      pos <= |buf|
    }

    ghost function Rest(): seq<byte>
      requires Valid()
      reads this
    {
      buf[pos..]
    }

    constructor (blob: seq<byte>)
      ensures Valid() && buf == blob && pos == 0
    {
      buf := blob;
      pos := 0;
    }

    method IsEmpty() returns (r: bool)
      requires Valid()
      ensures r <==> Rest() == []
    {
      r := pos >= |buf|;
    }

    /** Takes `n` bytes, or fails and stays where it is. */
    method Take(n: nat) returns (r: Result<seq<byte>, DecodeError>)
      requires Valid()
      modifies this
      ensures Valid()
      ensures r.Ok? <==> n <= |old(Rest())|
      ensures r.Ok? ==> r.value == old(Rest())[..n] && Rest() == old(Rest())[n..]
      ensures r.Err? ==> r.error == UnexpectedEnd && pos == old(pos)
    {
      if pos + n > |buf| {
        return Err(UnexpectedEnd);
      }
      r := Ok(buf[pos..pos + n]);
      pos := pos + n;
    }

    /** Reads one tagged op, field by field. */
    method ReadOp() returns (r: Result<Op, DecodeError>)
      requires Valid()
      modifies this
      ensures Valid()
      ensures r.Ok? <==> ParseOp(old(Rest())).Parsed?
      ensures r.Ok? ==> ParseOp(old(Rest())) == Parsed(r.value, Rest())
      ensures r.Err? ==> ParseOp(old(Rest())) == Failed(r.error)
    {
      hide Number, Bytes;
      ghost var s := Rest();
      var head := Take(1);
      if head.Err? { return Err(head.error); }
      var tag := head.value[0];
      if tag == 0 || tag == 1 {
        var a := Take(20);
        if a.Err? { return Err(a.error); }
        var v := Take(16);
        if v.Err? { return Err(v.error); }
        assert s[1..37][..20] == a.value && s[1..37][20..] == v.value;
        r := Ok(if tag == 0 then Transfer(AddressOf(a.value), AmountOf(v.value))
                else Refund(AddressOf(a.value), AmountOf(v.value)));
      } else if tag == 2 {
        var a := Take(20);
        if a.Err? { return Err(a.error); }
        var rate := Take(16);
        if rate.Err? { return Err(rate.error); }
        var deposit := Take(16);
        if deposit.Err? { return Err(deposit.error); }
        assert s[1..53][..20] == a.value && s[1..53][20..36] == rate.value && s[1..53][36..] == deposit.value;
        r := Ok(OpenStream(AddressOf(a.value), AmountOf(rate.value), AmountOf(deposit.value)));
      } else if tag == 3 {
        var id := Take(8);
        if id.Err? { return Err(id.error); }
        assert s[1..9] == id.value;
        r := Ok(StopStream(IdOf(id.value)));
      } else if tag == 4 {
        var key := Take(32);
        if key.Err? { return Err(key.error); }
        var value := Take(32);
        if value.Err? { return Err(value.error); }
        assert s[1..65][..32] == key.value && s[1..65][32..] == value.value;
        r := Ok(SetVar(HashOf(key.value), HashOf(value.value)));
      } else if tag == 5 {
        var reason := Take(32);
        if reason.Err? { return Err(reason.error); }
        assert s[1..33] == reason.value;
        r := Ok(Abort(HashOf(reason.value)));
      } else {
        r := Err(UnknownTag);
      }
    }
  }

  /** Earlier ops put in front of what remains to be parsed. */
  ghost function After(earlier: seq<Op>, r: Parsed<seq<Op>>): Parsed<seq<Op>> {
    if r.Failed? then r else Parsed(earlier + r.value, r.rest)
  }

  lemma Nothing(r: Parsed<seq<Op>>)
    ensures After([], r) == r
  {
    if r.Parsed? { assert [] + r.value == r.value; }
  }

  lemma AfterOne(earlier: seq<Op>, op: Op, r: Parsed<seq<Op>>)
    ensures After(earlier + [op], r) == After(earlier, if r.Failed? then r else Parsed([op] + r.value, r.rest))
  {
    if r.Parsed? { assert earlier + [op] + r.value == earlier + ([op] + r.value); }
  }

  method DecodeEffect(blob: seq<byte>) returns (r: Result<seq<Op>, DecodeError>)
    ensures r == Decode(blob)
  {
    hide Number, Bytes, ParseOp;
    var c := new Cursor(blob);
    var header := c.Take(4);
    if header.Err? { return Err(header.error); }
    var count := Number(header.value);
    if count > |blob| { return Err(CountExceedsBlob); }
    var ops: seq<Op> := [];
    var i := 0;
    assert c.Rest() == blob[4..];
    Nothing(ParseOps(blob[4..], count));
    while i < count
      invariant i <= count && c.Valid() && c.buf == blob
      invariant ParseOps(blob[4..], count) == After(ops, ParseOps(c.Rest(), count - i))
    {
      var op := c.ReadOp();
      if op.Err? {
        assert ParseOps(blob[4..], count) == Failed(op.error);
        return Err(op.error);
      }
      AfterOne(ops, op.value, ParseOps(c.Rest(), count - i - 1));
      ops := ops + [op.value];
      i := i + 1;
    }
    assert ops + [] == ops;
    assert ParseOps(blob[4..], count) == Parsed(ops, c.Rest());
    var empty := c.IsEmpty();
    if !empty { return Err(TrailingBytes); }
    r := Ok(ops);
  }
}
