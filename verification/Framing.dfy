/** The message protocol of the network thread: a message number and a body length of four
    bytes each, then the body. A length of zero or less announces no body. */
module Framing {
  import opened Bytes

  datatype Frame = Frame(message: Int32, length: Int32, body: seq<Byte>) {
    predicate WellFormed() {
      |body| == BodySize(length)
    }
  }

  const HEADER_SIZE: nat := 8

  function BodySize(length: Int32): (n: nat) { if length > 0 then length else 0 }

  function Encode(f: Frame): (bytes: seq<Byte>)
    ensures |bytes| == HEADER_SIZE + |f.body|
  {
    Int32Bytes(f.message) + Int32Bytes(f.length) + f.body
  }

  function EncodeAll(frames: seq<Frame>): (bytes: seq<Byte>) {
    if frames == [] then [] else Encode(frames[0]) + EncodeAll(frames[1..])
  }

  function LengthField(bytes: seq<Byte>): Int32
    requires HEADER_SIZE <= |bytes|
  {
    BytesInt32(bytes[4..8])
  }

  /** The bytes begin with a whole frame. */
  predicate Complete(bytes: seq<Byte>) {
    HEADER_SIZE <= |bytes| && HEADER_SIZE + BodySize(LengthField(bytes)) <= |bytes|
  }

  function FrameSize(bytes: seq<Byte>): (n: nat)
    requires HEADER_SIZE <= |bytes|
  {
    HEADER_SIZE + BodySize(LengthField(bytes))
  }

  function FirstFrame(bytes: seq<Byte>): (f: Frame)
    requires Complete(bytes)
    ensures f.WellFormed()
  {
    Frame(BytesInt32(bytes[..4]), LengthField(bytes), bytes[8..FrameSize(bytes)])
  }

  /** The whole frames at the front of a stream, and the bytes after them. */
  function Parse(bytes: seq<Byte>): (r: (seq<Frame>, seq<Byte>))
    ensures !Complete(r.1)
    ensures forall f <- r.0 :: f.WellFormed()
  {
    if !Complete(bytes) then ([], bytes)
    else
      var (frames, rest) := Parse(bytes[FrameSize(bytes)..]);
      ([FirstFrame(bytes)] + frames, rest)
  }

  /** Where the fields are: the message number in the first four bytes, the body length in the next
      four, and the body from the ninth on, if the length is positive. */
  lemma FrameLayout(f: Frame)
    ensures var bytes := Encode(f);
            && |bytes| == 8 + |f.body|
            && bytes[..4] == Int32Bytes(f.message) && bytes[4..8] == Int32Bytes(f.length) && bytes[8..] == f.body
    ensures f.WellFormed() <==> |f.body| == if f.length > 0 then f.length else 0
  {
  }

  lemma CompleteIff(bytes: seq<Byte>)
    ensures Complete(bytes) <==>
            8 <= |bytes| && (BytesInt32(bytes[4..8]) <= 0 || 8 + BytesInt32(bytes[4..8]) <= |bytes|)
    ensures Complete(bytes) ==>
              var f, n := FirstFrame(bytes), BytesInt32(bytes[4..8]);
              && f.message == BytesInt32(bytes[..4]) && f.length == n
              && f.body == if n > 0 then bytes[8..8 + n] else []
  {
  }

  /** A whole frame at the front of a stream is the code of the frame read off it. */
  lemma FirstFrameRoundTrip(bytes: seq<Byte>)
    requires Complete(bytes)
    ensures Encode(FirstFrame(bytes)) == bytes[..FrameSize(bytes)]
  {
    BytesRoundTrip(bytes[..4]);
    BytesRoundTrip(bytes[4..8]);
    assert bytes[..FrameSize(bytes)] == bytes[..4] + bytes[4..8] + bytes[8..FrameSize(bytes)];
  }

  /** Whatever follows the code of a frame, that frame is read back from it. */
  lemma EncodeRoundTrip(f: Frame, rest: seq<Byte>)
    requires f.WellFormed()
    ensures var bytes := Encode(f) + rest;
            Complete(bytes) && FirstFrame(bytes) == f && bytes[FrameSize(bytes)..] == rest
  {
    var bytes := Encode(f) + rest;
    IntegersRoundTrip(f.message, 0);
    IntegersRoundTrip(f.length, 0);
    assert bytes[..4] == Int32Bytes(f.message);
    assert bytes[4..8] == Int32Bytes(f.length);
    assert bytes[8..8 + |f.body|] == f.body;
  }

  /** Parsing inverts encoding: a stream of frames followed by part of a frame is cut at
      exactly the frame boundaries. */
  lemma {:induction false} ParseEncode(bytes: seq<Byte>, frames: seq<Frame>, rest: seq<Byte>)
    requires bytes == EncodeAll(frames) + rest
    requires forall f <- frames :: f.WellFormed()
    requires !Complete(rest)
    ensures Parse(bytes) == (frames, rest)
    decreases |frames|
  {
    if frames == [] {
      assert bytes == rest;
    } else {
      var more := EncodeAll(frames[1..]) + rest;
      assert bytes == Encode(frames[0]) + more;
      EncodeRoundTrip(frames[0], more);
      ParseEncode(more, frames[1..], rest);
      assert [frames[0]] + frames[1..] == frames;
    }
  }

  /** Encoding inverts parsing: no byte is lost, added or moved. */
  lemma {:induction false} EncodeParse(bytes: seq<Byte>)
    ensures EncodeAll(Parse(bytes).0) + Parse(bytes).1 == bytes
    decreases |bytes|
  {
    if Complete(bytes) {
      var tail := bytes[FrameSize(bytes)..];
      FirstFrameRoundTrip(bytes);
      EncodeParse(tail);
      var (frames, rest) := Parse(tail);
      assert ([FirstFrame(bytes)] + frames)[1..] == frames;
      assert bytes == bytes[..FrameSize(bytes)] + tail;
    } else {
      assert EncodeAll([]) + bytes == bytes;
    }
  }

  lemma {:induction false} EncodeAllAppend(a: seq<Frame>, b: seq<Frame>)
    ensures EncodeAll(a + b) == EncodeAll(a) + EncodeAll(b)
  {
    if a == [] {
      assert a + b == b;
    } else {
      assert (a + b)[1..] == a[1..] + b;
      EncodeAllAppend(a[1..], b);
    }
  }

  lemma EncodeOne(f: Frame)
    ensures EncodeAll([f]) == Encode(f)
  {
    assert [f][1..] == [];
  }

  /** Fragmentation does not matter: parsing what is left over together with the next piece
      of the stream yields the frames that parsing the whole stream yields. */
  lemma ParseIncremental(received: seq<Byte>, more: seq<Byte>)
    ensures var (frames, rest) := Parse(received);
            Parse(received + more) == (frames + Parse(rest + more).0, Parse(rest + more).1)
  {
    var parsed := Parse(received);
    var again := Parse(parsed.1 + more);
    EncodeParse(received);
    EncodeParse(parsed.1 + more);
    EncodeAllAppend(parsed.0, again.0);
    Reassociate(EncodeAll(parsed.0), parsed.1, more, EncodeAll(again.0), again.1);
    ParseEncode(received + more, parsed.0 + again.0, again.1);
  }

  lemma Reassociate(a: seq<Byte>, b: seq<Byte>, c: seq<Byte>, d: seq<Byte>, e: seq<Byte>)
    requires d + e == b + c
    ensures (a + b) + c == (a + d) + e
  {
    assert (a + b) + c == a + (b + c);
    assert (a + d) + e == a + (d + e);
  }

  /** Of a stream that is made of frames, any part received so far yields a prefix of those
      frames, and the bytes left over are the beginning of the next ones. */
  lemma PrefixOfStream(frames: seq<Frame>, received: seq<Byte>)
    requires forall f <- frames :: f.WellFormed()
    requires received <= EncodeAll(frames)
    ensures Parse(received).0 <= frames
    ensures Parse(received).1 <= EncodeAll(frames[|Parse(received).0|..])
  {
    var whole := EncodeAll(frames);
    var more := whole[|received|..];
    var parsed := Parse(received);
    var later := Parse(parsed.1 + more);
    assert received + more == whole;
    ParseEncode(whole, frames, []);
    ParseIncremental(received, more);
    assert frames == parsed.0 + later.0 && later.1 == [];
    assert frames[|parsed.0|..] == later.0;
    EncodeParse(parsed.1 + more);
    assert EncodeAll(later.0) == parsed.1 + more;
  }
}
