/** Data nodes: a byte blob whose length is its byte count, copied verbatim. */
module DataNode {
  import opened Wrappers
  import opened Bytes

  const XmlTag: string := "data"
  const BinaryTag: int := 4

  function BinaryLength(value: seq<Byte>): (n: int)
    ensures n == |value|
  {
    |value|
  }

  /** `ReadBinary` allocates exactly `nodeLength` bytes and fails on a short read. */
  function ReadBinary(data: seq<Byte>, pos: nat, nodeLength: int): (r: Result<seq<Byte>>)
    ensures r.Ok? <==> 0 <= nodeLength && (nodeLength == 0 || pos + nodeLength <= |data|)
    ensures r.Ok? ==> |r.value| == nodeLength
  {
    if nodeLength < 0 then Err(Overflow)
    else
      match Take(data, pos, nodeLength)
      case None => Err(ShortRead)
      case Some(buf) => Ok(buf)
  }

  /** `WriteBinary` writes the payload unchanged. */
  function WriteBinary(value: seq<Byte>): seq<Byte> {
    value
  }

  /** Reading back with the written length yields the written bytes. */
  lemma RoundTrip(value: seq<Byte>, prefix: seq<Byte>, suffix: seq<Byte>)
    ensures ReadBinary(prefix + WriteBinary(value) + suffix, |prefix|, BinaryLength(value)) == Ok(value)
  {
    var data := prefix + value + suffix;
    assert data[|prefix|..|prefix| + |value|] == value;
  }
}
