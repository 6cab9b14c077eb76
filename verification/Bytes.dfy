/** Bytes on the wire, and the fixed-width big-endian integers built from them. */
module Bytes {
  type Byte = x: int | 0 <= x < 256

  datatype Option<+T> = None | Some(value: T)

  /** The width-`n` range of unsigned integers is `0 <= w < Pow256(n)`. */
  function Pow256(n: nat): (p: nat)
    ensures 0 < p
  {
    if n == 0 then 1 else 256 * Pow256(n - 1)
  }

  /** Most significant byte first: what `htons`, `htonl` and the 64-bit byte reversal put on the wire. */
  function BigEndian(w: nat, n: nat): (bytes: seq<Byte>)
    ensures |bytes| == n
  {
    if n == 0 then [] else BigEndian(w / 256, n - 1) + [w % 256]
  }

  /** Least significant byte first: how a little-endian host keeps an integer in memory. */
  function LittleEndian(w: nat, n: nat): (bytes: seq<Byte>)
    ensures |bytes| == n
  {
    if n == 0 then [] else [w % 256] + LittleEndian(w / 256, n - 1)
  }

  /** The integer a big-endian byte string stands for. */
  function FromBigEndian(bytes: seq<Byte>): (w: nat)
    ensures w < Pow256(|bytes|)
  {
    if bytes == [] then 0
    else 256 * FromBigEndian(bytes[..|bytes| - 1]) + bytes[|bytes| - 1]
  }

  /** Decoding undoes encoding for every integer that fits the width. */
  lemma {:induction false} DecodeEncode(w: nat, n: nat)
    requires w < Pow256(n)
    ensures FromBigEndian(BigEndian(w, n)) == w
  {
    if n > 0 {
      DecodeEncode(w / 256, n - 1);
      assert BigEndian(w, n)[..n - 1] == BigEndian(w / 256, n - 1);
    }
  }

  /** Encoding undoes decoding for every byte string. */
  lemma {:induction false} EncodeDecode(bytes: seq<Byte>)
    ensures BigEndian(FromBigEndian(bytes), |bytes|) == bytes
  {
    if bytes != [] {
      EncodeDecode(bytes[..|bytes| - 1]);
    }
  }

  function Reversed(bytes: seq<Byte>): (r: seq<Byte>)
    ensures |r| == |bytes|
    ensures forall i :: 0 <= i < |r| ==> r[i] == bytes[|bytes| - 1 - i]
  {
    seq(|bytes|, i requires 0 <= i < |bytes| => bytes[|bytes| - 1 - i])
  }

  /** Swapping the bytes of a little-endian host's integer gives the wire order. */
  lemma {:induction false} ReversedLittleIsBig(w: nat, n: nat)
    ensures Reversed(LittleEndian(w, n)) == BigEndian(w, n)
  {
    if n > 0 {
      ReversedLittleIsBig(w / 256, n - 1);
      assert Reversed(LittleEndian(w, n)) == Reversed(LittleEndian(w / 256, n - 1)) + [w % 256];
    }
  }

  // ----- Two's complement -----

  type Int32 = x: int | -0x8000_0000 <= x < 0x8000_0000
  type Int64 = x: int | -0x8000_0000_0000_0000 <= x < 0x8000_0000_0000_0000

  const INT_MAX: int := 0x7fff_ffff

  function Word32(x: Int32): nat { if x < 0 then x + 0x1_0000_0000 else x }
  function Signed32(w: nat): Int32
    requires w < 0x1_0000_0000
  { if w > INT_MAX then w - 0x1_0000_0000 else w }

  function Word64(x: Int64): nat { if x < 0 then x + 0x1_0000_0000_0000_0000 else x }
  function Signed64(w: nat): Int64
    requires w < 0x1_0000_0000_0000_0000
  { if w >= 0x8000_0000_0000_0000 then w - 0x1_0000_0000_0000_0000 else w }

  lemma Pow256Values()
    ensures Pow256(4) == 0x1_0000_0000
    ensures Pow256(8) == 0x1_0000_0000_0000_0000
  {
    assert Pow256(1) == 256 && Pow256(2) == 0x1_0000;
    assert Pow256(3) == 0x100_0000 && Pow256(4) == 0x1_0000_0000;
    assert Pow256(5) == 0x100_0000_0000 && Pow256(6) == 0x1_0000_0000_0000;
    assert Pow256(7) == 0x100_0000_0000_0000;
  }

  /** `htonl` followed by a four-byte copy. */
  function Int32Bytes(x: Int32): (bytes: seq<Byte>)
    ensures |bytes| == 4
  {
    BigEndian(Word32(x), 4)
  }

  /** A four-byte copy followed by `ntohl`. */
  function BytesInt32(bytes: seq<Byte>): Int32
    requires |bytes| == 4
  {
    Pow256Values();
    Signed32(FromBigEndian(bytes))
  }

  function Int64Bytes(x: Int64): (bytes: seq<Byte>)
    ensures |bytes| == 8
  {
    BigEndian(Word64(x), 8)
  }

  function BytesInt64(bytes: seq<Byte>): Int64
    requires |bytes| == 8
  {
    Pow256Values();
    Signed64(FromBigEndian(bytes))
  }

  /** Most significant byte first, and negative integers in two's complement. */
  lemma Int32OnTheWire(x: Int32)
    ensures var w := if x < 0 then x + 0x1_0000_0000 else x;
            Int32Bytes(x) == [w / 0x100_0000 % 256, w / 0x1_0000 % 256, w / 0x100 % 256, w % 256]
  {
    var w := Word32(x);
    FourBytes(w);
    assert w / 256 / 256 == w / 0x1_0000 && w / 256 / 256 / 256 == w / 0x100_0000;
  }

  lemma Int64OnTheWire(x: Int64)
    ensures var w := if x < 0 then x + 0x1_0000_0000_0000_0000 else x;
            Int64Bytes(x) == [w / 0x100_0000_0000_0000 % 256, w / 0x1_0000_0000_0000 % 256,
                              w / 0x100_0000_0000 % 256, w / 0x1_0000_0000 % 256,
                              w / 0x100_0000 % 256, w / 0x1_0000 % 256, w / 0x100 % 256, w % 256]
  {
    var w := Word64(x);
    var high := w / 0x1_0000_0000;
    assert w / 256 / 256 == w / 0x1_0000 && w / 256 / 256 / 256 == w / 0x100_0000;
    assert w / 256 / 256 / 256 / 256 == high;
    assert high / 256 == w / 0x100_0000_0000 && high / 256 / 256 == w / 0x1_0000_0000_0000;
    assert high / 256 / 256 / 256 == w / 0x100_0000_0000_0000;
    FourBytes(high);
    FourMoreBytes(w, 4);
  }

  lemma FourBytes(w: nat)
    ensures BigEndian(w, 4) == [w / 256 / 256 / 256 % 256, w / 256 / 256 % 256, w / 256 % 256, w % 256]
  {
    FourMoreBytes(w, 0);
    assert BigEndian(w / 256 / 256 / 256 / 256, 0) == [];
  }

  lemma FourMoreBytes(w: nat, n: nat)
    ensures BigEndian(w, n + 4) == BigEndian(w / 256 / 256 / 256 / 256, n)
                                   + [w / 256 / 256 / 256 % 256, w / 256 / 256 % 256, w / 256 % 256, w % 256]
  {
    var a, b, c := w / 256, w / 256 / 256, w / 256 / 256 / 256;
    assert BigEndian(w, n + 4) == BigEndian(a, n + 3) + [w % 256];
    assert BigEndian(a, n + 3) == BigEndian(b, n + 2) + [a % 256];
    assert BigEndian(b, n + 2) == BigEndian(c, n + 1) + [b % 256];
  }

  /** Signed integers survive the wire, and every four (eight) bytes are the code of one integer. */
  lemma IntegersRoundTrip(x: Int32, y: Int64)
    ensures BytesInt32(Int32Bytes(x)) == x
    ensures BytesInt64(Int64Bytes(y)) == y
  {
    Pow256Values();
    DecodeEncode(Word32(x), 4);
    DecodeEncode(Word64(y), 8);
  }

  lemma BytesRoundTrip(b: seq<Byte>)
    requires |b| == 4
    ensures Int32Bytes(BytesInt32(b)) == b
  {
    Pow256Values();
    EncodeDecode(b);
  }
}
