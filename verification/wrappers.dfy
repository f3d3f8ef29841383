/** Success-or-failure values standing in for the exceptions of the library. */
module Wrappers {

  datatype Option<T> = None | Some(value: T)

  /** `Err` carries the exception the library throws. */
  datatype Result<T> = Ok(value: T) | Err(error: Error)
  {
    predicate IsFailure() {
      Err?
    }

    function PropagateFailure<U>(): Result<U>
      requires Err?
    {
      Err(error)
    }

    function Extract(): T
      requires Ok?
    {
      value
    }
  }

  /**
   * The exceptions the library and the runtime under it throw, one per
   * message; `Message` gives the text. `ReferenceCycle` stands for the
   * stack overflow of a reference cycle.
   */
  datatype Error =
    | ShortHeader
    | MissingMagic
    | UnreadableTrailer
    | UnexpectedOffsetIntSize(width: int)
    | UnreadableOffset(index: int)
    | TooManyOffsets(count: int)
    | SeekBeforeStart
    | MissingTagByte
    | MissingLengthByte
    | BadLengthHeader
    | MissingLengthBytes
    | UnknownBinaryTag(tag: int)
    | UnknownXmlTag(name: string)
    | ContainerReadsItself
    | ContainerWritesItself
    | IndexOutOfRange
    | Overflow
    | ShortReferenceBlock
    | ShortKeyBlock
    | ShortValueBlock
    | UnexpectedIndexSize
    | KeyNotString
    | DuplicateKey
    | ReferenceCycle
    | ShortRead
    | BadNullLength
    | BadFillLength
    | BadBooleanLength
    | IntTooLong
    | RealTooShort
    | RealTooLong
    | DateTooShort
    | DateTooLong
    | BadIndexSize
    | NotImplemented
    | ListIndexOutOfRange
    | ListInsertOutOfRange
    | KeyNotFound

  /** The message .NET gives a `PListFormatException` thrown without one. */
  const NoMessage: string := "Exception of type 'PListNet.PListFormatException' was thrown."

  /**
   * The message of each exception. `ReferenceCycle` has no exception in the
   * source, which recurses until the stack overflows; its text is the
   * model's own.
   */
  function Message(e: Error): string {
    match e
    case ShortHeader => "Invalid plist file: must start with 8-byte header."
    case MissingMagic => "Invalid plist file: must start with string \"bplist\"."
    case UnreadableTrailer => "Invalid plist file: unable to read trailer."
    case UnexpectedOffsetIntSize(width) => "Unexpected offset int size: " + DecimalText(width) + "."
    case UnreadableOffset(index) => "Invalid plist file: unable to read value " + DecimalText(index) + " in the offset table."
    case TooManyOffsets(count) => "Offset table contains too many entries: " + DecimalText(count) + "."
    case SeekBeforeStart => "An attempt was made to move the position before the beginning of the stream."
    case MissingTagByte => "Couldn't read node tag byte."
    case MissingLengthByte => "Couldn't read node length byte."
    case BadLengthHeader => "Invalid node length byte header."
    case MissingLengthBytes => "Couldn't read node length byte(s)."
    case UnknownBinaryTag(tag) => "Unknown node - binary tag " + DecimalText(tag)
    case UnknownXmlTag(name) => "Unknown node - XML tag \"" + name + "\""
    case ContainerReadsItself => "This type of node does not do it's own reading, refer to the binary reader."
    case ContainerWritesItself => "This type of node does not do it's own writing, refer to the binary writer."
    case IndexOutOfRange => "Index was outside the bounds of the array."
    case Overflow => "Arithmetic operation resulted in an overflow."
    case ShortReferenceBlock => NoMessage
    case ShortKeyBlock => NoMessage
    case ShortValueBlock => NoMessage
    case UnexpectedIndexSize => "$Unexpected index size: {readerState.IndexSize}."
    case KeyNotString => "Key is not a string"
    case DuplicateKey => "An item with the same key has already been added."
    case ReferenceCycle => "The object references form a cycle."
    case ShortRead => NoMessage
    case BadNullLength => NoMessage
    case BadFillLength => NoMessage
    case BadBooleanLength => NoMessage
    case IntTooLong => "Int > 64Bit"
    case RealTooShort => "Real < 32Bit"
    case RealTooLong => "Real > 64Bit"
    case DateTooShort => "Date < 32Bit"
    case DateTooLong => "Date > 64Bit"
    case BadIndexSize => "Invalid node index size"
    case NotImplemented => "The method or operation is not implemented."
    case ListIndexOutOfRange => "Index was out of range. Must be non-negative and less than the size of the collection."
    case ListInsertOutOfRange => "Index must be within the bounds of the List."
    case KeyNotFound => "The given key was not present in the dictionary."
  }

  /** The decimal text of an integer, as messages print it. */
  function DecimalText(n: int): string
    decreases if n < 0 then -n + 1 else n
  {
    if n < 0 then "-" + DecimalText(-n)
    else if n < 10 then ["0123456789"[n]]
    else DecimalText(n / 10) + ["0123456789"[n % 10]]
  }
}
