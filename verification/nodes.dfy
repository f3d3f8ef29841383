/**
 * The node tree and what every node reports to the codecs: XML name, binary
 * tag, binary length, whether the writer may share one copy of equal nodes,
 * and the value equality of typed nodes that drives that sharing.
 */
module Nodes {
  import opened Wrappers
  import opened Bytes
  import IntegerNode
  import UidNode
  import BooleanNode
  import NullNode
  import FillNode
  import DataNode
  import RealNode
  import DateNode
  import StringNode

  type Text = StringNode.Text

  /**
   * One node of a property list. Reals and dates keep the bytes of their
   * big-endian IEEE double; a string records whether it is a UTF-16 node.
   */
  datatype Node =
    | Null
    | Fill
    | Boolean(boolValue: bool)
    | Integer(intValue: Long)
    | Uid(uidValue: Long)
    | Real(realBytes: seq<Byte>)
    | Date(dateBytes: seq<Byte>)
    | Data(bytes: seq<Byte>)
    | String(text: Text, utf16: bool)
    | Array(items: seq<Node>)
    | Dict(entries: seq<Entry>)

  /** A dictionary entry; a dictionary keeps its entries in insertion order. */
  datatype Entry = Entry(key: Text, value: Node)

  const ArrayXmlTag: string := "array"
  const ArrayBinaryTag: int := 0x0A
  const DictXmlTag: string := "dict"
  const DictBinaryTag: int := 0x0D

  function XmlTag(n: Node): string {
    match n
    case Null => NullNode.XmlTag
    case Fill => FillNode.XmlTag
    case Boolean(_) => BooleanNode.XmlTag
    case Integer(_) => IntegerNode.XmlTag
    case Uid(_) => UidNode.XmlTag
    case Real(_) => RealNode.XmlTag
    case Date(_) => DateNode.XmlTag
    case Data(_) => DataNode.XmlTag
    case String(_, _) => StringNode.XmlTag
    case Array(_) => ArrayXmlTag
    case Dict(_) => DictXmlTag
  }

  /** The high nibble of the marker byte. */
  function BinaryTag(n: Node): (tag: int)
    ensures 0 <= tag < 16
  {
    match n
    case Null => NullNode.BinaryTag
    case Fill => FillNode.BinaryTag
    case Boolean(_) => BooleanNode.BinaryTag
    case Integer(_) => IntegerNode.BinaryTag
    case Uid(_) => UidNode.BinaryTag
    case Real(_) => RealNode.BinaryTag
    case Date(_) => DateNode.BinaryTag
    case Data(_) => DataNode.BinaryTag
    case String(_, utf16) => StringNode.BinaryTag(utf16)
    case Array(_) => ArrayBinaryTag
    case Dict(_) => DictBinaryTag
  }

  /** The length the writer frames a node with; its meaning depends on the variant. */
  function BinaryLength(n: Node): (len: int)
    ensures len >= 0
  {
    match n
    case Null => NullNode.BinaryLength
    case Fill => FillNode.BinaryLength
    case Boolean(b) => BooleanNode.BinaryLength(b)
    case Integer(v) => IntegerNode.BinaryLength(v)
    case Uid(v) => IntegerNode.BinaryLength(v)
    case Real(_) => RealNode.BinaryLength
    case Date(_) => DateNode.BinaryLength
    case Data(d) => DataNode.BinaryLength(d)
    case String(t, _) => StringNode.BinaryLength(t)
    case Array(items) => |items|
    case Dict(entries) => |entries|
  }

  /** Typed atoms may be shared by the writer; null, fill and containers never are. */
  function IsBinaryUnique(n: Node): bool {
    !(n.Null? || n.Fill? || n.Array? || n.Dict?)
  }

  /**
   * `WriteBinary`: the payload an atom writes after its framing. Containers
   * throw, since only the writer lays them out.
   */
  function WriteBinary(n: Node): (r: Result<seq<Byte>>)
    ensures r.Ok? <==> !(n.Array? || n.Dict?)
  {
    match n
    case Null => Ok([])
    case Fill => Ok([])
    case Boolean(b) => Ok(BooleanNode.WriteBinary(b))
    case Integer(v) => Ok(IntegerNode.WriteBinary(v))
    case Uid(v) => Ok(IntegerNode.WriteBinary(v))
    case Real(r) => Ok(RealNode.WriteBinary(r))
    case Date(d) => Ok(DateNode.WriteBinary(d))
    case Data(d) => Ok(DataNode.WriteBinary(d))
    case String(t, utf16) => Ok(StringNode.WriteBinary(t, utf16))
    case Array(_) => Result<seq<Byte>>.Err(ContainerWritesItself)
    case Dict(_) => Result<seq<Byte>>.Err(ContainerWritesItself)
  }

  // Equality. `PNode<T>.Equals` holds when the other node is a `PNode<T>` for
  // the same `T` and the values are equal; every other node compares by
  // reference. The model's nodes carry no identity, so reference comparison
  // between two nodes is taken to be false.

  /** The `Value` of a typed node, tagged with its type `T`. */
  datatype Value =
    | BoolValue(b: bool)
    | LongValue(v: int)
    | DoubleValue(doubleBytes: seq<Byte>)
    | DateTimeValue(dateBytes: seq<Byte>)
    | StringValue(text: Text)

  /**
   * The value a node's equality compares, if it compares by value. Data
   * nodes hold a `byte[]`, whose `Equals` is reference equality.
   */
  function ValueOf(n: Node): Option<Value> {
    match n
    case Boolean(b) => Some(BoolValue(b))
    case Integer(v) => Some(LongValue(v))
    case Uid(v) => Some(LongValue(v))
    case Real(r) => Some(DoubleValue(r))
    case Date(d) => Some(DateTimeValue(d))
    case String(t, _) => Some(StringValue(t))
    case _ => None
  }

  /** `a.Equals(b)` for two distinct node objects. */
  predicate Equals(a: Node, b: Node) {
    ValueOf(a).Some? && ValueOf(b).Some? && ValueOf(a) == ValueOf(b)
  }

  /** `GetHashCode`: the hash of the value, here the value itself. */
  function HashCode(n: Node): Option<Value> {
    ValueOf(n)
  }

  /** Equality is symmetric, and equal nodes have equal hash codes. */
  lemma EqualsConsistent(a: Node, b: Node)
    ensures Equals(a, b) <==> Equals(b, a)
    ensures Equals(a, b) ==> HashCode(a) == HashCode(b)
  {
  }

  /** The node class is ignored: an integer node equals a UID node with the same value, yet their tags differ. */
  lemma IntegerEqualsUid(v: Long)
    ensures Equals(Integer(v), Uid(v))
    ensures BinaryTag(Integer(v)) != BinaryTag(Uid(v))
  {
  }

  /** Two data nodes are never equal, whatever their contents; nodes that are not typed equal nothing. */
  lemma NoValueNoEquality(a: Node, b: Node)
    requires a.Data? || a.Null? || a.Fill? || a.Array? || a.Dict?
    ensures !Equals(a, b) && !Equals(b, a)
  {
  }

  /** The key under which the writer remembers a shareable node: its tag and its value. */
  function UniqueKey(n: Node): (int, Value)
    requires ValueOf(n).Some?
  {
    (BinaryTag(n), ValueOf(n).value)
  }

  /**
   * Within one tag, equal values mean equal nodes: sharing never replaces a
   * node by a different one.
   */
  lemma UniqueKeyDeterminesNode(a: Node, b: Node)
    requires ValueOf(a).Some? && ValueOf(b).Some?
    requires UniqueKey(a) == UniqueKey(b)
    ensures a == b
  {
  }

  // Well-formedness: the .NET types bound every count by `int.MaxValue`,
  // and a dictionary never holds a key twice.

  /** Whether `entries` holds `key`. */
  predicate HasKey(entries: seq<Entry>, key: Text) {
    exists i :: 0 <= i < |entries| && entries[i].key == key
  }

  predicate DistinctKeys(entries: seq<Entry>) {
    forall i, j :: 0 <= i < j < |entries| ==> entries[i].key != entries[j].key
  }

  predicate WellFormed(n: Node) {
    BinaryLength(n) <= IntMax &&
    match n
    case Array(items) => forall i :: 0 <= i < |items| ==> WellFormed(items[i])
    case Dict(entries) =>
      DistinctKeys(entries) &&
      (forall i :: 0 <= i < |entries| ==> |entries[i].key| <= IntMax && WellFormed(entries[i].value))
    case _ => true
  }
}
