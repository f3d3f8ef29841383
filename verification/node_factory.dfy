/**
 * The node factory: two registries, filled once in a fixed order, that name
 * the node class to create for a binary tag or an XML element name. A class
 * here is a `Kind`; the reader then fills in the value of the new node.
 */
module NodeFactory {
  import opened Wrappers
  import opened Bytes
  import opened Nodes
  import IntegerNode
  import BooleanNode
  import NullNode
  import FillNode
  import DataNode
  import RealNode
  import DateNode
  import StringNode

  /** The class of a freshly created node; a string node also carries its `IsUtf16` flag. */
  datatype Kind =
    | NullKind
    | FillKind
    | BooleanKind
    | IntegerKind
    | RealKind
    | DateKind
    | DataKind
    | StringKind(utf16: bool)
    | ArrayKind
    | DictKind

  /** The XML tag a default instance of the class reports. */
  function KindXmlTag(k: Kind): string {
    match k
    case NullKind => NullNode.XmlTag
    case FillKind => FillNode.XmlTag
    case BooleanKind => BooleanNode.XmlTag
    case IntegerKind => IntegerNode.XmlTag
    case RealKind => RealNode.XmlTag
    case DateKind => DateNode.XmlTag
    case DataKind => DataNode.XmlTag
    case StringKind(_) => StringNode.XmlTag
    case ArrayKind => ArrayXmlTag
    case DictKind => DictXmlTag
  }

  /** The binary tag a default instance of the class reports. */
  function KindBinaryTag(k: Kind): int {
    match k
    case NullKind => NullNode.BinaryTag
    case FillKind => FillNode.BinaryTag
    case BooleanKind => BooleanNode.BinaryTag
    case IntegerKind => IntegerNode.BinaryTag
    case RealKind => RealNode.BinaryTag
    case DateKind => DateNode.BinaryTag
    case DataKind => DataNode.BinaryTag
    case StringKind(utf16) => StringNode.BinaryTag(utf16)
    case ArrayKind => ArrayBinaryTag
    case DictKind => DictBinaryTag
  }

  /** The class of a node. */
  function KindOf(n: Node): (k: Kind)
    requires !n.Uid?
    ensures KindBinaryTag(k) == BinaryTag(n) && KindXmlTag(k) == XmlTag(n)
  {
    match n
    case Null => NullKind
    case Fill => FillKind
    case Boolean(_) => BooleanKind
    case Integer(_) => IntegerKind
    case Real(_) => RealKind
    case Date(_) => DateKind
    case Data(_) => DataKind
    case String(_, utf16) => StringKind(utf16)
    case Array(_) => ArrayKind
    case Dict(_) => DictKind
  }

  /** The two registries; `Register` fills them, the first registration of a key wins. */
  class Registry {
    var xmlTags: map<string, Kind>
    var binaryTags: map<int, Kind>

    /** The static constructor: registrations in the library's order. */
    constructor ()
      ensures xmlTags == XmlTags && binaryTags == BinaryTags
    {
      xmlTags := map[];
      binaryTags := map[];
      new;
      RegisterNodes();
      RegisterNames();
    }

    /** The first seven registrations, each under the tags of a default instance. */
    method RegisterNodes()
      requires xmlTags == map[] && binaryTags == map[]
      modifies this
      ensures xmlTags == map["dict" := DictKind, "integer" := IntegerKind, "real" := RealKind,
        "string" := StringKind(false), "array" := ArrayKind, "data" := DataKind, "date" := DateKind]
      ensures binaryTags == map[0x0D := DictKind, 1 := IntegerKind, 2 := RealKind,
        5 := StringKind(false), 0x0A := ArrayKind, 4 := DataKind, 3 := DateKind]
    {
      RegisterNode(DictKind);
      RegisterNode(IntegerKind);
      RegisterNode(RealKind);
      RegisterNode(StringKind(false));
      RegisterMoreNodes();
    }

    /** The last three of those seven; a separate method only to keep each proof small. */
    method RegisterMoreNodes()
      requires xmlTags == map["dict" := DictKind, "integer" := IntegerKind, "real" := RealKind,
        "string" := StringKind(false)]
      requires binaryTags == map[0x0D := DictKind, 1 := IntegerKind, 2 := RealKind,
        5 := StringKind(false)]
      modifies this
      ensures xmlTags == map["dict" := DictKind, "integer" := IntegerKind, "real" := RealKind,
        "string" := StringKind(false), "array" := ArrayKind, "data" := DataKind, "date" := DateKind]
      ensures binaryTags == map[0x0D := DictKind, 1 := IntegerKind, 2 := RealKind,
        5 := StringKind(false), 0x0A := ArrayKind, 4 := DataKind, 3 := DateKind]
    {
      RegisterNode(ArrayKind);
      RegisterNode(DataKind);
      RegisterNode(DateKind);
    }

    /** The registrations under explicit names: the string aliases and the two boolean names. */
    method RegisterNames()
      requires xmlTags == map["dict" := DictKind, "integer" := IntegerKind, "real" := RealKind,
        "string" := StringKind(false), "array" := ArrayKind, "data" := DataKind, "date" := DateKind]
      requires binaryTags == map[0x0D := DictKind, 1 := IntegerKind, 2 := RealKind,
        5 := StringKind(false), 0x0A := ArrayKind, 4 := DataKind, 3 := DateKind]
      modifies this
      ensures xmlTags == XmlTags && binaryTags == BinaryTags
    {
      Register("string", 5, StringKind(false));
      Register("ustring", 6, StringKind(false));
      Register("true", 0, BooleanKind);
      Register("false", 0, BooleanKind);
    }

    /** `Register(node)`: under the tags a default instance reports. */
    method RegisterNode(k: Kind)
      modifies this
      ensures xmlTags == Added(old(xmlTags), KindXmlTag(k), k)
      ensures binaryTags == Added(old(binaryTags), KindBinaryTag(k), k)
    {
      Register(KindXmlTag(k), KindBinaryTag(k), k);
    }

    /** `Register(xmlTag, binaryTag, node)`: each tag is added unless already present. */
    method Register(xmlTag: string, binaryTag: int, k: Kind)
      modifies this
      ensures xmlTags == Added(old(xmlTags), xmlTag, k)
      ensures binaryTags == Added(old(binaryTags), binaryTag, k)
    {
      if xmlTag !in xmlTags {
        xmlTags := xmlTags[xmlTag := k];
      }
      if binaryTag !in binaryTags {
        binaryTags := binaryTags[binaryTag := k];
      }
    }
  }

  /** A registration that leaves an existing entry alone. */
  function Added<K, V>(m: map<K, V>, key: K, v: V): map<K, V> {
    if key in m then m else m[key := v]
  }

  /** The XML registry once the static constructor has run. */
  const XmlTags: map<string, Kind> := map[
    "dict" := DictKind, "integer" := IntegerKind, "real" := RealKind,
    "string" := StringKind(false), "array" := ArrayKind, "data" := DataKind,
    "date" := DateKind, "ustring" := StringKind(false),
    "true" := BooleanKind, "false" := BooleanKind]

  /** The binary registry once the static constructor has run. */
  const BinaryTags: map<int, Kind> := map[
    0x0D := DictKind, 1 := IntegerKind, 2 := RealKind, 5 := StringKind(false),
    0x0A := ArrayKind, 4 := DataKind, 3 := DateKind, 6 := StringKind(false),
    0 := BooleanKind]

  /**
   * `Create(binaryTag, length)`: null and fill are recognised by tag and
   * length before the registry is consulted, and tag 6 always makes a UTF-16
   * string.
   */
  function Create(binaryTag: int, length: int): (r: Result<Kind>)
    ensures r.Ok? <==> binaryTag in BinaryTags
    ensures r.Ok? ==> KindBinaryTag(r.value) == binaryTag
    ensures binaryTag == 0 && length == 0 ==> r == Ok(NullKind)
    ensures binaryTag == 0 && length == 0x0F ==> r == Ok(FillKind)
    ensures binaryTag == 0 && length != 0 && length != 0x0F ==> r == Ok(BooleanKind)
    ensures binaryTag == 6 ==> r == Ok(StringKind(true))
  {
    if binaryTag == 0 && length == 0x00 then Ok(NullKind)
    else if binaryTag == 0 && length == 0x0F then Ok(FillKind)
    else if binaryTag == 6 then Ok(StringKind(true))
    else if binaryTag in BinaryTags then Ok(BinaryTags[binaryTag])
    else Err(UnknownBinaryTag(binaryTag))
  }

  /** `Create(tag)`: the class registered under an XML element name. */
  function CreateFromXml(tag: string): (r: Result<Kind>)
    ensures r.Ok? <==> tag in XmlTags
    ensures r.Ok? ==> r.value == XmlTags[tag]
  {
    if tag in XmlTags then Ok(XmlTags[tag])
    else Err(UnknownXmlTag(tag))
  }

  /** `CreateLengthElement`: the integer node that carries an extended length. */
  function CreateLengthElement(length: int): (n: Node)
    requires IntMin <= length <= IntMax
    ensures BinaryTag(n) == IntegerNode.BinaryTag && ValueOf(n) == Some(LongValue(length))
  {
    Integer(length)
  }

  /** `CreateKeyElement`: the string node a dictionary key is written as. */
  function CreateKeyElement(key: Text): (n: Node)
    ensures BinaryTag(n) == StringNode.AsciiTag && ValueOf(n) == Some(StringValue(key))
    ensures BinaryLength(n) == |key|
  {
    String(key, false)
  }

  /**
   * Every node the library defines, except a UID node, is recreated with
   * its own class from the tag and length it is written with.
   */
  lemma CreateRecognisesWrittenNodes(n: Node)
    requires !n.Uid?
    ensures Create(BinaryTag(n), BinaryLength(n)) == Ok(KindOf(n))
  {
  }

  /** No class is registered for tag 8, so a UID node cannot be read back. */
  lemma UidIsUnregistered(v: Long)
    ensures Create(BinaryTag(Uid(v)), BinaryLength(Uid(v))).Err?
  {
  }

  /** Only the tags of the registered classes are known, 8 and 7 among the unknown. */
  lemma RegisteredBinaryTags(tag: int)
    ensures tag in BinaryTags <==> tag in {0, 1, 2, 3, 4, 5, 6, 0x0A, 0x0D}
  {
  }

  /**
   * XML names: `true`/`false` make booleans and `string`/`ustring` ASCII
   * strings; the node tags `boolean`, `null`, `fill` and `uid` are unknown.
   */
  lemma XmlNames()
    ensures CreateFromXml("true") == Ok(BooleanKind) && CreateFromXml("false") == Ok(BooleanKind)
    ensures CreateFromXml("string") == Ok(StringKind(false)) && CreateFromXml("ustring") == Ok(StringKind(false))
    ensures CreateFromXml("boolean").Err? && CreateFromXml("null").Err?
    ensures CreateFromXml("fill").Err? && CreateFromXml("uid").Err?
  {
  }
}
