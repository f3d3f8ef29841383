/**
 * The binary codec of integer nodes: a width code chosen from the value, and
 * a big-endian payload of 2^code bytes (one unsigned byte for code 0, two's
 * complement for the wider codes).
 */
module IntegerNode {
  import opened Wrappers
  import opened Bytes

  const XmlTag: string := "integer"
  const BinaryTag: int := 1

  /** `v` is representable in the payload selected by width code `code`. */
  predicate Fits(v: int, code: int) {
    match code
    case 0 => 0 <= v < 0x100
    case 1 => ShortMin <= v <= ShortMax
    case 2 => IntMin <= v <= IntMax
    case 3 => -0x8000_0000_0000_0000 <= v < 0x8000_0000_0000_0000
    case _ => false
  }

  /** The width code of a value: a code whose payload represents it. */
  function BinaryLength(v: Long): (code: int)
    ensures 0 <= code <= 3
    ensures Fits(v, code)
  {
    if 0 <= v <= 255 then 0
    else if ShortMin <= v <= ShortMax then 1
    else if IntMin <= v <= IntMax then 2
    else if -0x8000_0000_0000_0000 <= v <= 0x7FFF_FFFF_FFFF_FFFF then 3
    else -1
  }

  /** The width code is the least one whose payload represents the value. */
  lemma BinaryLengthIsLeast(v: Long, c: int)
    requires 0 <= c < BinaryLength(v)
    ensures !Fits(v, c)
  {
  }

  /** The payload bytes `WriteBinary` emits for `v`. */
  function WriteBinary(v: Long): (bytes: seq<Byte>)
    ensures |bytes| == Pow2(BinaryLength(v))
  {
    match BinaryLength(v)
    case 0 => [v]
    case 1 => BeEncodeSigned(v, 2)
    case 2 => BeEncodeSigned(v, 4)
    case _ => BeEncodeSigned(v, 8)
  }

  /**
   * `ReadBinary` at position `pos` for width code `nodeLength`: it first
   * reads `1 << nodeLength` bytes, then decodes them by the code.
   */
  function ReadBinary(data: seq<Byte>, pos: nat, nodeLength: int): (r: Result<Long>)
    ensures r.Ok? ==> 0 <= nodeLength <= 3 && pos + Pow2(nodeLength) <= |data|
    ensures 0 <= nodeLength <= 3 && pos + Pow2(nodeLength) <= |data| ==> r.Ok?
    ensures r.Ok? ==> Fits(r.value, nodeLength)
    ensures r.Ok? ==> r.value == if nodeLength == 0 then data[pos] else BeSigned(data[pos..pos + Pow2(nodeLength)])
  {
    var size := OneShiftedLeft(nodeLength);
    if size < 0 then Result<Long>.Err(Overflow)
    else
      match Take(data, pos, size)
      case None => Err(ShortRead)
      case Some(buf) =>
        match nodeLength
        case 0 => Ok(buf[0])
        case 1 => Ok(BeSigned(buf))
        case 2 => Ok(BeSigned(buf))
        case 3 => LongRange(buf); Ok(BeSigned(buf))
        case _ => Err(IntTooLong)
  }

  lemma LongRange(buf: seq<Byte>)
    requires |buf| == 8
    ensures -0x8000_0000_0000_0000 <= BeSigned(buf) < 0x8000_0000_0000_0000
  {
    assert Pow256(7) == 0x100_0000_0000_0000;
  }

  lemma WidthPowers()
    ensures Pow2(0) == 1 && Pow2(1) == 2 && Pow2(2) == 4 && Pow2(3) == 8
    ensures Pow256(1) == 0x100 && Pow256(2) == 0x1_0000 && Pow256(4) == 0x1_0000_0000
    ensures Pow256(8) == 0x1_0000_0000_0000_0000
  {
    assert Pow256(7) == 0x100_0000_0000_0000;
  }

  /** Reading back what `WriteBinary` wrote, with the width code of the value, yields the value. */
  lemma RoundTrip(v: Long, prefix: seq<Byte>, suffix: seq<Byte>)
    ensures ReadBinary(prefix + WriteBinary(v) + suffix, |prefix|, BinaryLength(v)) == Ok(v)
  {
    WidthPowers();
    var code := BinaryLength(v);
    var data := prefix + WriteBinary(v) + suffix;
    var buf := Take(data, |prefix|, Pow2(code)).value;
    assert buf == WriteBinary(v);
    match code
    case 0 =>
    case 1 => BeSignedRoundTrip(v, 2);
    case 2 => BeSignedRoundTrip(v, 4);
    case 3 => BeSignedRoundTrip(v, 8);
  }

  /**
    * A payload of any wider code than the least one reads back too: a value
    * written in two's complement over the `2^code` bytes of code 1, 2 or 3,
    * such as -1 in eight bytes, is read back as itself.
    */
  lemma WideRoundTrip(v: int, code: int, prefix: seq<Byte>, suffix: seq<Byte>)
    requires 1 <= code <= 3 && Fits(v, code)
    ensures ReadBinary(prefix + BeEncodeSigned(v, Pow2(code)) + suffix, |prefix|, code) == Ok(v)
  {
    WidthPowers();
    var payload := BeEncodeSigned(v, Pow2(code));
    var data := prefix + payload + suffix;
    assert data[|prefix|..|prefix| + Pow2(code)] == payload;
    BeSignedRoundTrip(v, Pow2(code));
  }

  /** The width codes of the boundary values. */
  lemma WidthExamples()
    ensures BinaryLength(255) == 0 && BinaryLength(256) == 1 && BinaryLength(-1) == 1
    ensures BinaryLength(32767) == 1 && BinaryLength(32768) == 2
    ensures BinaryLength(0x8000_0000) == 3 && BinaryLength(-0x8000_0000) == 2
  {
  }
}
