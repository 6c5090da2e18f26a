/**
 * The leading `int type` field of a native SDL event record, as JNA reads it:
 * four bytes in the host's native byte order, read as a two's-complement
 * 32-bit Java `int`.
 */
module Wire {

  /** One octet of native memory. */
  type byte = x: int | 0 <= x < 0x100

  /** A Java `int`. */
  type int32 = x: int | -0x8000_0000 <= x < 0x8000_0000

  /** The byte order of the host, which JNA uses for every native field. */
  datatype ByteOrder = LittleEndian | BigEndian

  /** Width in bytes of the `type` field that every event layout starts with. */
  const TYPE_FIELD_SIZE: nat := 4

  /** Four bytes put into little-endian order (least significant first). */
  function LeastFirst(b: seq<byte>, order: ByteOrder): (r: seq<byte>)
    requires |b| == 4
    ensures |r| == 4
    ensures order == LittleEndian ==> r == b
    ensures order == BigEndian ==> forall i :: 0 <= i < 4 ==> r[i] == b[3 - i]
  {
    match order
    case LittleEndian => b
    case BigEndian => [b[3], b[2], b[1], b[0]]
  }

  /** The unsigned value of four little-endian bytes. */
  function Unsigned(b: seq<byte>): (u: nat)
    requires |b| == 4
    ensures u < 0x1_0000_0000
  {
    var b0, b1, b2, b3: int := b[0], b[1], b[2], b[3];
    b0 + 0x100 * (b1 + 0x100 * (b2 + 0x100 * b3))
  }

  /** The Java `int` whose bit pattern is the 32-bit unsigned value `u`. */
  function ToInt32(u: nat): (x: int32)
    requires u < 0x1_0000_0000
    ensures x >= 0 <==> u < 0x8000_0000
    ensures (x as int) % 0x1_0000_0000 == u
  {
    if u < 0x8000_0000 then u else u - 0x1_0000_0000
  }

  /** The value JNA reads for an `int` field stored in `b`. */
  function DecodeInt32(b: seq<byte>, order: ByteOrder): (x: int32)
    requires |b| == 4
  {
    ToInt32(Unsigned(LeastFirst(b, order)))
  }

  /** The four bytes native code stores for the `int` value `x`. */
  function EncodeInt32(x: int32, order: ByteOrder): (b: seq<byte>)
    ensures |b| == 4
  {
    var u := (x as int) % 0x1_0000_0000;
    var u1 := u / 0x100;
    var u2 := u1 / 0x100;
    LeastFirst([u % 0x100, u1 % 0x100, u2 % 0x100, u2 / 0x100], order)
  }

  lemma LeastFirstInvolution(b: seq<byte>, order: ByteOrder)
    requires |b| == 4
    ensures LeastFirst(LeastFirst(b, order), order) == b
  {
  }

  /** Decoding what was encoded gives back the original `int`. */
  lemma DecodeEncode(x: int32, order: ByteOrder)
    ensures DecodeInt32(EncodeInt32(x, order), order) == x
  {
    var u := (x as int) % 0x1_0000_0000;
    var u1 := u / 0x100;
    var u2 := u1 / 0x100;
    var le: seq<byte> := [u % 0x100, u1 % 0x100, u2 % 0x100, u2 / 0x100];
    LeastFirstInvolution(le, order);
    assert Unsigned(le) == u;
  }

  /** Encoding a decoded value gives back the original four bytes. */
  lemma EncodeDecode(b: seq<byte>, order: ByteOrder)
    requires |b| == 4
    ensures EncodeInt32(DecodeInt32(b, order), order) == b
  {
    var le := LeastFirst(b, order);
    var u := Unsigned(le);
    var x := DecodeInt32(b, order);
    assert (x as int) % 0x1_0000_0000 == u;
    var u1 := u / 0x100;
    var u2 := u1 / 0x100;
    var l0, l1, l2, l3: int := le[0], le[1], le[2], le[3];
    assert u % 0x100 == l0 && u1 == l1 + 0x100 * (l2 + 0x100 * l3);
    assert u1 % 0x100 == l1 && u2 == l2 + 0x100 * l3;
    assert [u % 0x100, u1 % 0x100, u2 % 0x100, u2 / 0x100] == le;
    LeastFirstInvolution(b, order);
  }

  /** Two different byte patterns never decode to the same `int`. */
  lemma DecodeInjective(a: seq<byte>, b: seq<byte>, order: ByteOrder)
    requires |a| == 4 && |b| == 4
    requires DecodeInt32(a, order) == DecodeInt32(b, order)
    ensures a == b
  {
    EncodeDecode(a, order);
    EncodeDecode(b, order);
  }
}
