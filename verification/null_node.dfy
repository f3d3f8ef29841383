/** The null node: tag 0 with length 0 and no payload, never deduplicated. */
module NullNode {
  import opened Wrappers

  const XmlTag: string := "null"
  const BinaryTag: int := 0
  const BinaryLength: int := 0
  const IsBinaryUnique: bool := false

  /** `ReadBinary` rejects every length but 0. */
  function ReadBinary(nodeLength: int): (r: Result<()>)
    ensures r.Ok? <==> nodeLength == BinaryLength
  {
    if nodeLength != 0 then Err(BadNullLength) else Ok(())
  }
}
