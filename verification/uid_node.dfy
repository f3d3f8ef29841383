/** A UID is an integer node with its own tag and XML name; its XML form is not implemented. */
module UidNode {
  import opened Wrappers
  import opened Bytes

  const XmlTag: string := "uid"
  const BinaryTag: int := 8

  /** `Parse` throws `NotImplementedException` for every input. */
  function Parse(data: string): (r: Result<Long>)
    ensures r.Err?
  {
    Err(NotImplemented)
  }

  /** `ToXmlString` throws `NotImplementedException` for every value. */
  function ToXmlString(v: Long): (r: Result<string>)
    ensures r.Err?
  {
    Err(NotImplemented)
  }
}
