/**
 * Date nodes, with the value kept as the eight big-endian bytes of the
 * double that counts seconds since 2001-01-01 (a four-byte single is widened
 * to a double when it is read); the conversion to and from a calendar date
 * is not modelled.
 */
module DateNode {
  import opened Wrappers
  import opened Bytes
  import Ieee754

  const XmlTag: string := "date"
  const BinaryTag: int := 3
  const BinaryLength: int := 3

  /**
    * `ReadBinary` reads `1 << nodeLength` bytes and accepts only codes 2 and 3:
    * eight bytes are the double as they stand, and four bytes a single,
    * which assigning it to a `double` widens to the same number.
    */
  function ReadBinary(data: seq<Byte>, pos: nat, nodeLength: int): (r: Result<seq<Byte>>)
    ensures r.Ok? <==> (nodeLength == 2 || nodeLength == 3) && pos + Pow2(nodeLength) <= |data|
    ensures r.Ok? ==> |r.value| == 8
    ensures r.Ok? && nodeLength == 3 ==> r.value == data[pos..pos + 8]
    ensures r.Ok? && nodeLength == 2 ==> pos + 4 <= |data| && r.value == Ieee754.Widen(data[pos..pos + 4])
  {
    var size := OneShiftedLeft(nodeLength);
    if size < 0 then Err(Overflow)
    else
      match Take(data, pos, size)
      case None => Err(ShortRead)
      case Some(buf) =>
        if nodeLength == 0 || nodeLength == 1 then Err(DateTooShort)
        else if nodeLength == 2 then Ok(Ieee754.Widen(buf))
        else if nodeLength == 3 then Ok(buf)
        else Err(DateTooLong)
  }

  /** When four bytes are left, reading them with code 2 gives a double of the same value as the single they hold. */
  lemma ReadsSingleAsDouble(data: seq<Byte>, pos: nat)
    requires pos + 4 <= |data|
    ensures ReadBinary(data, pos, 2).Ok? && BeValue(data[pos..pos + 4]) < 0x1_0000_0000
    ensures var d := ReadBinary(data, pos, 2).value;
      BeValue(d) < 0x1_0000_0000_0000_0000 &&
      Ieee754.SameValue(Ieee754.SingleValue(BeValue(data[pos..pos + 4])), Ieee754.DoubleValue(BeValue(d)))
  {
    Ieee754.WidenKeepsValue(data[pos..pos + 4]);
  }

  /** `WriteBinary` writes the eight bytes of the seconds count. */
  function WriteBinary(raw: seq<Byte>): seq<Byte> {
    raw
  }

  /** Eight bytes written with code 3 read back unchanged. */
  lemma RoundTrip(raw: seq<Byte>, prefix: seq<Byte>, suffix: seq<Byte>)
    requires |raw| == 8
    ensures ReadBinary(prefix + WriteBinary(raw) + suffix, |prefix|, BinaryLength) == Ok(raw)
  {
    var data := prefix + raw + suffix;
    assert Pow2(3) == 8;
    assert data[|prefix|..|prefix| + 8] == raw;
  }
}
