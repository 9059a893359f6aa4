/** Length-prefixed frames of the block-sync protocol (crates/network/src/codec.rs). */
module SyncFraming {
  import opened Base
  import opened BigEndian

  const U32: nat := 0x1_0000_0000
  const SYNC_MAX_BATCH: nat := 128
  const MAX_BLOCK_BYTES: nat := 8 * 1024 * 1024

  /** A full batch of maximal blocks plus a megabyte of slack: 2^30 + 2^20. */
  const MAX_SYNC_FRAME: nat := SYNC_MAX_BATCH * MAX_BLOCK_BYTES + 0x10_0000

  datatype FrameError = UnexpectedEof | FrameTooLarge

  datatype Read = Failed(error: FrameError, left: seq<byte>) | Got(message: seq<byte>, rest: seq<byte>)

  /** The length is cast to 32 bits. */
  function Frame(message: seq<byte>): seq<byte> { Bytes(|message| % U32, 4) + message }

  /** A short read drains the stream before it fails. */
  function ReadFrame(s: seq<byte>): Read {
    if |s| < 4 then Failed(UnexpectedEof, [])
    else
      var length := Number(s[..4]);
      if length > MAX_SYNC_FRAME then Failed(FrameTooLarge, s[4..])
      else if |s| < 4 + length then Failed(UnexpectedEof, [])
      else Got(s[4..4 + length], s[4 + length..])
  }

  function Frames(messages: seq<seq<byte>>): seq<byte> {
    if messages == [] then [] else Frame(messages[0]) + Frames(messages[1..])
  }

  datatype ReadAll = AllFailed(error: FrameError) | AllGot(messages: seq<seq<byte>>, rest: seq<byte>)

  function ReadFrames(s: seq<byte>, count: nat): ReadAll
    decreases count
  {
    if count == 0 then AllGot([], s)
    else
      match ReadFrame(s)
      case Failed(e, _) => AllFailed(e)
      case Got(m, rest) =>
        match ReadFrames(rest, count - 1)
        case AllFailed(e) => AllFailed(e)
        case AllGot(ms, end) => AllGot([m] + ms, end)
  }

  // ---------------------------------------------------------------- one frame

  lemma Header(message: seq<byte>, rest: seq<byte>)
    ensures var s := Frame(message) + rest;
      |s| >= 4 && Number(s[..4]) == |message| % U32 && s[4..] == message + rest
  {
    hide Bytes, Number, Pow256;
    Widths();
    Fits(|message| % U32, 4);
    assert (Frame(message) + rest)[..4] == Bytes(|message| % U32, 4);
  }

  /** A frame is read back as written, with the stream behind it untouched, exactly when the message
      respects the limit. The limit lies far below 2^32, so the cast cannot cut an acceptable length; a
      longer message is refused or, past 2^32, read back as a different one. */
  lemma FrameRoundTrip(message: seq<byte>, rest: seq<byte>)
    ensures ReadFrame(Frame(message) + rest) == Got(message, rest) <==> |message| <= 1_074_790_400
  {
    hide Frame, Number;
    var s := Frame(message) + rest;
    Header(message, rest);
    var length := |message| % U32;
    if |message| <= MAX_SYNC_FRAME {
      assert length == |message|;
      assert s[4..4 + length] == s[4..][..length] == message;
      assert s[4 + length..] == s[4..][length..] == rest;
    } else if length <= MAX_SYNC_FRAME {
      assert length < |message|;
    }
  }

  /** Whatever is read was framed within the limit: the buffer allocated for it never exceeds the limit,
      whatever the peer claims. */
  lemma ReadIsFramed(s: seq<byte>)
    ensures var r := ReadFrame(s);
      r.Got? ==> s == Frame(r.message) + r.rest && |r.message| <= MAX_SYNC_FRAME
  {
    hide Bytes, Number;
    if ReadFrame(s).Got? {
      var length := Number(s[..4]);
      BytesOfNumber(s[..4]);
      assert |s[4..4 + length]| == length;
      assert s == s[..4] + s[4..4 + length] + s[4 + length..];
    }
  }

  /** A frame cut short is an end-of-stream error, never a shorter message. */
  lemma CutFrameFails(message: seq<byte>, cut: nat)
    requires |message| <= MAX_SYNC_FRAME && cut < |Frame(message)|
    ensures ReadFrame(Frame(message)[..cut]) == Failed(UnexpectedEof, [])
  {
    hide Bytes, Number;
    var s := Frame(message);
    Header(message, []);
    assert s + [] == s;
    if cut >= 4 { assert s[..cut][..4] == s[..4]; }
  }

  // ---------------------------------------------------------------- many frames

  /** Messages written back to back are read back as exactly that sequence, the rest untouched. */
  lemma {:induction false} FramesRoundTrip(messages: seq<seq<byte>>, rest: seq<byte>)
    requires forall i :: 0 <= i < |messages| ==> |messages[i]| <= MAX_SYNC_FRAME
    ensures ReadFrames(Frames(messages) + rest, |messages|) == AllGot(messages, rest)
  {
    hide ReadFrame, Frame;
    if messages == [] {
      assert Frames(messages) + rest == rest;
    } else {
      assert Frames(messages) + rest == Frame(messages[0]) + (Frames(messages[1..]) + rest);
      FrameRoundTrip(messages[0], Frames(messages[1..]) + rest);
      FramesRoundTrip(messages[1..], rest);
      assert [messages[0]] + messages[1..] == messages;
    }
  }

  /** Two batches of messages with the same bytes on the wire are the same batch. */
  lemma {:induction false} FramesAreUnambiguous(a: seq<seq<byte>>, b: seq<seq<byte>>)
    requires forall i :: 0 <= i < |a| ==> |a[i]| <= MAX_SYNC_FRAME
    requires forall i :: 0 <= i < |b| ==> |b[i]| <= MAX_SYNC_FRAME
    requires Frames(a) == Frames(b)
    ensures a == b
  {
    hide ReadFrame, Bytes;
    if a != [] && b != [] {
      FrameRoundTrip(a[0], Frames(a[1..]));
      FrameRoundTrip(b[0], Frames(b[1..]));
      FramesAreUnambiguous(a[1..], b[1..]);
      assert a == [a[0]] + a[1..] && b == [b[0]] + b[1..];
    }
  }

  // ---------------------------------------------------------------- the stream

  /** A byte stream between two peers: writers append, readers consume from the front. */
  class Stream {
    var data: seq<byte>

    constructor ()
      ensures data == []
    {
      data := [];
    }

    method WriteFrame(message: seq<byte>)
      modifies this
      ensures data == old(data) + Frame(message)
    {
      var length := |message| % U32;
      data := data + Bytes(length, 4);
      data := data + message;
    }

    /** `read_exact` into a buffer of `n` bytes. */
    method ReadExact(n: nat) returns (r: Result<seq<byte>, FrameError>)
      modifies this
      ensures r.Ok? <==> n <= |old(data)|
      ensures r.Ok? ==> r.value == old(data)[..n] && data == old(data)[n..]
      ensures r.Err? ==> r.error == UnexpectedEof && data == []
    {
      if |data| < n {
        data := [];
        return Err(UnexpectedEof);
      }
      r := Ok(data[..n]);
      data := data[n..];
    }

    method ReadOne() returns (r: Result<seq<byte>, FrameError>)
      modifies this
      ensures r.Ok? ==> ReadFrame(old(data)) == Got(r.value, data)
      ensures r.Err? ==> ReadFrame(old(data)) == Failed(r.error, data)
    {
      hide Number;
      var header := ReadExact(4);
      if header.Err? { return Err(header.error); }
      var length := Number(header.value);
      if length > MAX_SYNC_FRAME { return Err(FrameTooLarge); }
      r := ReadExact(length);
    }
  }
}
