/**
 * Boolean nodes: the value travels in the length nibble of the marker byte
 * (8 for false, 9 for true) and there is no payload; in XML the element name
 * itself is the value.
 */
module BooleanNode {
  import opened Wrappers
  import opened Bytes

  const XmlTag: string := "boolean"
  const BinaryTag: int := 0

  function BinaryLength(value: bool): int {
    if value then 9 else 8
  }

  /** `ReadBinary` accepts only the lengths 8 and 9 and consumes no payload. */
  function ReadBinary(nodeLength: int): (r: Result<bool>)
    ensures r.Ok? <==> nodeLength == 8 || nodeLength == 9
  {
    if nodeLength != 8 && nodeLength != 9 then Err(BadBooleanLength)
    else Ok(nodeLength == 9)
  }

  /** `WriteBinary` writes nothing: the marker byte carries the value. */
  function WriteBinary(value: bool): (bytes: seq<Byte>)
    ensures |bytes| == 0
  {
    []
  }

  /** The value read back from the length a value is written with is that value. */
  lemma BinaryRoundTrip(value: bool)
    ensures ReadBinary(BinaryLength(value)) == Ok(value)
    ensures BinaryLength(value) != BinaryLength(!value)
  {
  }

  /** `Parse`: only the exact text `true` is true. */
  function Parse(data: string): (value: bool)
    ensures value <==> data == "true"
  {
    data == "true"
  }

  function ToXmlString(value: bool): (s: string)
    ensures s == "true" || s == "false"
  {
    if value then "true" else "false"
  }

  /** The XML element of a boolean is named by its value, and reading the name back gives the value. */
  lemma XmlRoundTrip(value: bool)
    ensures Parse(ToXmlString(value)) == value
    ensures ToXmlString(value) != XmlTag
  {
  }
}
