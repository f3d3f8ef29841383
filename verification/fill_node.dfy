/** The fill node: tag 0 with length 0xF and no payload, never deduplicated. */
module FillNode {
  import opened Wrappers

  const XmlTag: string := "fill"
  const BinaryTag: int := 0
  const BinaryLength: int := 0x0F
  const IsBinaryUnique: bool := false

  /** `ReadBinary` rejects every length but 0xF. */
  function ReadBinary(nodeLength: int): (r: Result<()>)
    ensures r.Ok? <==> nodeLength == BinaryLength
  {
    if nodeLength != 0x0F then Err(BadFillLength) else Ok(())
  }
}
