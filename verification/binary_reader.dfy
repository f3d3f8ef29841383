/**
 * The binary reader. A file is a header, the objects, a table of object
 * offsets and a 32-byte trailer; an object is a marker byte (tag nibble and
 * length nibble), an optional extended length, and either a payload or, for
 * arrays and dictionaries, blocks of object references.
 *
 * The decoding is specified by functions over the whole byte string; the
 * methods follow the library's loops and are proved to compute those
 * functions. Recursion through references is bounded by `fuel`: a chain of
 * references longer than the offset table repeats an object, and there the
 * library recurses without end.
 */
module BinaryReader {
  import opened Wrappers
  import opened Bytes
  import opened Nodes
  import DictionaryNodes
  import NodeFactory
  import IntegerNode
  import BooleanNode
  import NullNode
  import FillNode
  import DataNode
  import RealNode
  import DateNode
  import StringNode

  /** The text `bplist` the first six bytes must hold. */
  const Magic: seq<Byte> := [0x62, 0x70, 0x6C, 0x69, 0x73, 0x74]

  /** Eight header bytes must be readable, and the first six must spell `bplist`; the version is not checked. */
  function ValidatePListFileHeader(data: seq<Byte>): (r: Result<()>)
    ensures r.Ok? <==> |data| >= 8 && data[..6] == Magic
  {
    if |data| < 8 then Err(ShortHeader)
    else if data[..6] != Magic then Err(MissingMagic)
    else Ok(())
  }

  /** The trailer fields; the 64-bit ones are unsigned. */
  datatype Trailer = Trailer(
    sortVersion: Byte,
    offsetIntSize: Byte,
    objectRefSize: Byte,
    numObjects: nat,
    topObject: nat,
    offsetTableOffset: nat)

  /** The trailer is the last 32 bytes: two size bytes at 6 and 7, then three big-endian 64-bit fields. */
  function ReadTrailer(data: seq<Byte>): (r: Result<Trailer>)
    ensures r.Ok? <==> |data| >= 32
    ensures r.Ok? ==> r.value.numObjects < Pow256(8) && r.value.topObject < Pow256(8)
    ensures r.Ok? ==> r.value.offsetTableOffset < Pow256(8)
    ensures r.Ok? ==> var end := |data|;
      r.value.sortVersion == data[end - 27] && r.value.offsetIntSize == data[end - 26] &&
      r.value.objectRefSize == data[end - 25] && r.value.numObjects == BeValue(data[end - 24..end - 16]) &&
      r.value.topObject == BeValue(data[end - 16..end - 8]) && r.value.offsetTableOffset == BeValue(data[end - 8..])
  {
    if |data| < 32 then Err(UnreadableTrailer)
    else
      var buf := data[|data| - 32..];
      assert buf[8..16] == data[|data| - 24..|data| - 16] && buf[16..24] == data[|data| - 16..|data| - 8];
      assert buf[24..32] == data[|data| - 8..];
      Ok(Trailer(buf[5], buf[6], buf[7], BeValue(buf[8..16]), BeValue(buf[16..24]), BeValue(buf[24..32])))
  }

  /**
   * `ReadNumber`: one or two bytes unsigned, four or eight bytes cast to a
   * C# `int` (the low 32 bits, signed); any other width is an error.
   */
  function ReadNumber(buf: seq<Byte>): (r: Result<int>)
    ensures r.Ok? <==> |buf| in {1, 2, 4, 8}
    ensures r.Ok? ==> IntMin <= r.value <= IntMax
    ensures r.Ok? && BeValue(buf) <= IntMax ==> r.value == BeValue(buf)
    ensures r.Ok? && |buf| <= 2 ==> r.value == BeValue(buf)
    ensures r.Ok? && |buf| >= 4 ==> r.value == Wrap32(BeValue(buf))
  {
    match |buf|
    case 1 => Ok(buf[0])
    case 2 => Ok(BeValue(buf))
    case 4 => Ok(Wrap32(BeValue(buf)))
    case 8 => Ok(Wrap32(BeValue(buf)))
    case _ => Err(UnexpectedOffsetIntSize(|buf|))
  }

  /** The first `count` entries of the offset table, `size` bytes each from `start`. */
  function OffsetTable(data: seq<Byte>, start: nat, size: nat, count: nat): (r: Result<seq<int>>)
    ensures r.Ok? <==> forall i :: 0 <= i < count ==> OffsetEntry(data, start, size, i).Ok?
    ensures r.Ok? ==> |r.value| == count && forall i :: 0 <= i < count ==> OffsetEntry(data, start, size, i) == Ok(r.value[i])
  {
    if count == 0 then Ok([])
    else
      var prefix :- OffsetTable(data, start, size, count - 1);
      var offset :- OffsetEntry(data, start, size, count - 1);
      Ok(prefix + [offset])
  }

  /** Entry `i` of the offset table: a short read is an error, then `ReadNumber`. */
  function OffsetEntry(data: seq<Byte>, start: nat, size: nat, i: nat): (r: Result<int>)
    ensures r.Ok? <==> size in {1, 2, 4, 8} && start + i * size + size <= |data|
    ensures r.Ok? ==> r == ReadNumber(data[start + i * size..start + i * size + size])
  {
    match Take(data, start + i * size, size)
    case None => Err(UnreadableOffset(i))
    case Some(buf) => ReadNumber(buf)
  }

  const LongMax: int := 0x7FFF_FFFF_FFFF_FFFF

  /** The offset table the trailer describes. */
  function NodeOffsets(data: seq<Byte>, t: Trailer): (r: Result<seq<int>>)
    ensures r.Ok? <==> (t.numObjects <= IntMax && t.offsetTableOffset <= LongMax &&
      forall i :: 0 <= i < t.numObjects ==> OffsetEntry(data, t.offsetTableOffset, t.offsetIntSize, i).Ok?)
    ensures t.numObjects > IntMax ==> r == Err(TooManyOffsets(t.numObjects))
    ensures r.Ok? ==> (|r.value| == t.numObjects <= IntMax &&
      forall i :: 0 <= i < t.numObjects ==> OffsetEntry(data, t.offsetTableOffset, t.offsetIntSize, i) == Ok(r.value[i]))
  {
    if t.numObjects > IntMax then Err(TooManyOffsets(t.numObjects))
    else if t.offsetTableOffset > LongMax then Err(SeekBeforeStart)
    else OffsetTable(data, t.offsetTableOffset, t.offsetIntSize, t.numObjects)
  }

  /** Once a prefix of the table fails, every longer prefix fails the same way. */
  lemma {:induction false} OffsetTableErrPersists(data: seq<Byte>, start: nat, size: nat, k: nat, n: nat)
    requires k <= n && OffsetTable(data, start, size, k).Err?
    ensures OffsetTable(data, start, size, n) == OffsetTable(data, start, size, k)
    decreases n
  {
    if k < n {
      OffsetTableErrPersists(data, start, size, k, n - 1);
    }
  }

  /** `ReadNodeOffsets`: the two checks on the trailer, then the table. */
  method ReadNodeOffsets(data: seq<Byte>, t: Trailer) returns (r: Result<seq<int>>)
    ensures r == NodeOffsets(data, t)
  {
    if t.numObjects > IntMax {
      return Err(TooManyOffsets(t.numObjects));
    }
    if t.offsetTableOffset > LongMax {
      return Err(SeekBeforeStart);
    }
    r := ReadOffsetTable(data, t.offsetTableOffset, t.offsetIntSize, t.numObjects);
  }

  /** The loop of `ReadNodeOffsets`: fills an `int` array entry by entry. */
  method ReadOffsetTable(data: seq<Byte>, start: nat, size: nat, count: nat) returns (r: Result<seq<int>>)
    ensures r == OffsetTable(data, start, size, count)
  {
    var nodeOffsets := new int[count];
    ghost var table: seq<int> := [];
    var i := 0;
    while i < count
      invariant 0 <= i <= count && |table| == i
      invariant OffsetTable(data, start, size, i) == Ok(table)
      invariant nodeOffsets[..i] == table
    {
      var offset := ReadOffset(data, start, size, i);
      if offset.Err? {
        r := Err(offset.error);
        OffsetTableErrPersists(data, start, size, i + 1, count);
        return;
      }
      nodeOffsets[i] := offset.value;
      table := table + [offset.value];
      i := i + 1;
    }
    assert nodeOffsets[..] == table;
    return Ok(nodeOffsets[..]);
  }

  /** One round of the offset-table loop: a short read is an error, then `ReadNumber`. */
  method ReadOffset(data: seq<Byte>, start: nat, size: nat, i: nat) returns (r: Result<int>)
    ensures r == OffsetEntry(data, start, size, i)
  {
    var buf := Take(data, start + i * size, size);
    if buf.None? {
      return Err(UnreadableOffset(i));
    }
    r := ReadNumber(buf.value);
  }

  /** The stream, the offset table and the two widths from the trailer. */
  datatype ReaderState = ReaderState(data: seq<Byte>, nodeOffsets: seq<int>, offsetIntSize: int, objectRefSize: int)

  /** A decoded marker: the tag, the length, and the position just past the marker and any extended length. */
  datatype TagAndLength = TagAndLength(tag: int, length: int, next: nat)

  /**
   * `GetObjectLengthAndTag`: a low nibble below 0xF is the length; 0xF, for
   * every tag, announces a byte `0x1p` followed by 2^p big-endian bytes of
   * length.
   */
  function GetObjectLengthAndTag(data: seq<Byte>, pos: nat): (r: Result<TagAndLength>)
    ensures r.Ok? ==> 0 <= r.value.tag < 16 && pos < r.value.next <= |data|
    ensures r.Ok? ==> r.value.tag == data[pos] / 16
    ensures pos < |data| && data[pos] % 16 != 0x0F ==> r == Ok(TagAndLength(data[pos] / 16, data[pos] % 16, pos + 1))
  {
    if pos >= |data| then Err(MissingTagByte)
    else
      var tag, length := data[pos] / 16, data[pos] % 16;
      if length != 0x0F then Ok(TagAndLength(tag, length, pos + 1))
      else if pos + 1 >= |data| then Err(MissingLengthByte)
      else if data[pos + 1] / 16 != 1 then Err(BadLengthHeader)
      else
        var byteCount := Pow2(data[pos + 1] % 16);
        match Take(data, pos + 2, byteCount)
        case None => Err(MissingLengthBytes)
        case Some(lengthBuffer) =>
          var extended :- ReadNumber(lengthBuffer);
          Ok(TagAndLength(tag, extended, pos + 2 + byteCount))
  }

  /** `node.ReadBinary(stream, length)` for a freshly created atom. */
  function ReadAtom(kind: NodeFactory.Kind, data: seq<Byte>, pos: nat, length: int): (r: Result<Node>)
    ensures r.Ok? ==> !r.value.Array? && !r.value.Dict? && !r.value.Uid?
    ensures r.Ok? ==> NodeFactory.KindOf(r.value) == kind
  {
    match kind
    case NullKind =>
      var _ :- NullNode.ReadBinary(length);
      Ok(Null)
    case FillKind =>
      var _ :- FillNode.ReadBinary(length);
      Ok(Fill)
    case BooleanKind =>
      var b :- BooleanNode.ReadBinary(length);
      Ok(Boolean(b))
    case IntegerKind =>
      var v :- IntegerNode.ReadBinary(data, pos, length);
      Ok(Integer(v))
    case RealKind =>
      var raw :- RealNode.ReadBinary(data, pos, length);
      Ok(Real(raw))
    case DateKind =>
      var raw :- DateNode.ReadBinary(data, pos, length);
      Ok(Date(raw))
    case DataKind =>
      var bytes :- DataNode.ReadBinary(data, pos, length);
      Ok(Data(bytes))
    case StringKind(utf16) =>
      var text :- StringNode.ReadBinary(data, pos, length, utf16);
      Ok(String(text, utf16))
    case ArrayKind => Err(ContainerReadsItself)
    case DictKind => Err(ContainerReadsItself)
  }

  /**
    * The node with index `idx` of the offset table. The index is an unsigned
    * 64-bit number, so a negative reference stands for one of at least 2^63,
    * which the array index check rejects with an overflow.
    */
  function NodeAt(st: ReaderState, idx: int, fuel: nat): (r: Result<Node>)
    ensures idx < 0 || idx > LongMax ==> r == Err(Overflow)
    ensures 0 <= idx <= LongMax && idx >= |st.nodeOffsets| ==> r == Err(IndexOutOfRange)
    ensures r.Ok? ==> 0 <= idx < |st.nodeOffsets| && 0 <= st.nodeOffsets[idx] && 0 < fuel
    decreases fuel, 0
  {
    if idx < 0 || idx > LongMax then Err(Overflow)
    else if idx >= |st.nodeOffsets| then Err(IndexOutOfRange)
    else if st.nodeOffsets[idx] < 0 then Err(SeekBeforeStart)
    else if fuel == 0 then Err(ReferenceCycle)
    else ObjectAt(st, st.nodeOffsets[idx], fuel - 1)
  }

  /** The node whose marker is at `pos`. */
  function ObjectAt(st: ReaderState, pos: nat, fuel: nat): (r: Result<Node>)
    ensures r.Ok? ==> var tl := GetObjectLengthAndTag(st.data, pos);
      tl.Ok? && !r.value.Uid? && NodeFactory.Create(tl.value.tag, tl.value.length) == Ok(NodeFactory.KindOf(r.value))
    decreases fuel, 3
  {
    var tl :- GetObjectLengthAndTag(st.data, pos);
    var kind :- NodeFactory.Create(tl.tag, tl.length);
    match kind
    case ArrayKind =>
      var items :- ArrayAt(st, tl.length, tl.next, fuel);
      Ok(Array(items))
    case DictKind =>
      var entries :- DictAt(st, tl.length, tl.next, fuel);
      Ok(Dict(entries))
    case _ => ReadAtom(kind, st.data, tl.next, tl.length)
  }

  /** An object read by index is the object at that index's offset, read with one level less. */
  lemma NodeAtSeeks(st: ReaderState, idx: int, fuel: nat)
    requires NodeAt(st, idx, fuel).Ok?
    ensures NodeAt(st, idx, fuel) == ObjectAt(st, st.nodeOffsets[idx], fuel - 1)
  {
  }

  /** An array read at `pos` has the array tag, and its items are those of its reference block. */
  lemma ObjectAtArray(st: ReaderState, pos: nat, fuel: nat)
    requires ObjectAt(st, pos, fuel).Ok? && ObjectAt(st, pos, fuel).value.Array?
    ensures var tl := GetObjectLengthAndTag(st.data, pos).value;
      tl.tag == ArrayBinaryTag && ArrayAt(st, tl.length, tl.next, fuel) == Ok(ObjectAt(st, pos, fuel).value.items)
  {
  }

  /** A dictionary read at `pos` has the dictionary tag, and its entries are those of its two blocks. */
  lemma ObjectAtDict(st: ReaderState, pos: nat, fuel: nat)
    requires ObjectAt(st, pos, fuel).Ok? && ObjectAt(st, pos, fuel).value.Dict?
    ensures var tl := GetObjectLengthAndTag(st.data, pos).value;
      tl.tag == DictBinaryTag && DictAt(st, tl.length, tl.next, fuel) == Ok(ObjectAt(st, pos, fuel).value.entries)
  {
  }

  /** The byte count of one reference block: `length * OffsetIntSize` as a C# `int`. */
  function BlockSize(st: ReaderState, length: int): int {
    Wrap32(length * st.offsetIntSize)
  }

  /** The items of an array of `length` references whose block starts at `pos`. */
  function ArrayAt(st: ReaderState, length: int, pos: nat, fuel: nat): (r: Result<seq<Node>>)
    ensures r.Ok? ==> |r.value| == (if length <= 0 then 0 else length)
    ensures r.Ok? && length > 0 ==> var size := BlockSize(st, length);
      0 < size && pos + size <= |st.data| &&
      r == ArrayItems(st, Take(st.data, pos, size).value, length, fuel)
    decreases fuel, 2
  {
    var size := BlockSize(st, length);
    if size < 0 then Err(Overflow)
    else
      match Take(st.data, pos, size)
      case None => Err(ShortReferenceBlock)
      case Some(buf) => if length <= 0 then Ok([]) else ArrayItems(st, buf, length, fuel)
  }

  /** An array whose block lies in the data is what its items read from that block. */
  lemma ArrayAtReadsBlock(st: ReaderState, length: int, pos: nat, fuel: nat)
    requires length > 0 && 0 <= BlockSize(st, length) && pos + BlockSize(st, length) <= |st.data|
    ensures ArrayAt(st, length, pos, fuel) == ArrayItems(st, st.data[pos..pos + BlockSize(st, length)], length, fuel)
  {
  }

  /**
   * The reference at position `i` of an array block: a byte when
   * `OffsetIntSize` is 1, and a signed big-endian 16-bit value otherwise.
   */
  function ArrayRef(st: ReaderState, buf: seq<Byte>, i: nat): (r: Result<int>)
    ensures r.Ok? <==> if st.offsetIntSize == 1 then i < |buf| else 0 <= Wrap32(2 * i) && Wrap32(2 * i) + 2 <= |buf|
    ensures r.Ok? && st.offsetIntSize == 1 ==> r.value == buf[i]
    ensures r.Ok? && st.offsetIntSize != 1 ==> r.value == BeSigned(buf[Wrap32(2 * i)..Wrap32(2 * i) + 2])
    ensures r.Ok? && st.offsetIntSize != 1 && 2 * i <= IntMax ==>
      ShortMin <= r.value <= ShortMax && r.value == BeSigned(buf[2 * i..2 * i + 2])
  {
    if st.offsetIntSize == 1 then
      if i < |buf| then Ok(buf[i]) else Err(IndexOutOfRange)
    else
      var at := Wrap32(2 * i);
      if at < 0 || at + 2 > |buf| then Err(IndexOutOfRange)
      else
        assert Pow256(2) == 0x1_0000;
        Ok(BeSigned(buf[at..at + 2]))
  }

  /** The first `k` items of an array block. */
  function ArrayItems(st: ReaderState, buf: seq<Byte>, k: nat, fuel: nat): (r: Result<seq<Node>>)
    ensures r.Ok? ==> (|r.value| == k &&
      forall i :: 0 <= i < k ==> ArrayRef(st, buf, i).Ok? && NodeAt(st, ArrayRef(st, buf, i).value, fuel) == Ok(r.value[i]))
    decreases fuel, 1, k
  {
    if k == 0 then Ok([])
    else
      var prefix :- ArrayItems(st, buf, k - 1, fuel);
      var ref :- ArrayRef(st, buf, k - 1);
      var item :- NodeAt(st, ref, fuel);
      var items := prefix + [item];
      assert forall i :: 0 <= i < k - 1 ==> items[i] == prefix[i];
      Ok(items)
  }

  /** The items read as soon as every reference and every node they name read. */
  lemma {:induction false} ArrayItemsReadAll(st: ReaderState, buf: seq<Byte>, k: nat, fuel: nat)
    requires forall i :: 0 <= i < k ==> ArrayRef(st, buf, i).Ok? && NodeAt(st, ArrayRef(st, buf, i).value, fuel).Ok?
    ensures ArrayItems(st, buf, k, fuel).Ok?
    decreases k
  {
    if k > 0 {
      var j := k - 1;
      ArrayItemsReadAll(st, buf, j, fuel);
      var prefix, ref := ArrayItems(st, buf, j, fuel), ArrayRef(st, buf, j);
      assert ref.Ok? && NodeAt(st, ref.value, fuel).Ok?;
      assert ArrayItems(st, buf, k, fuel) == Ok(prefix.value + [NodeAt(st, ref.value, fuel).value]);
    }
  }

  /**
   * When every reference names the node at its position, the first `k`
   * items read are exactly the first `k` of those nodes.
   */
  lemma {:induction false} ArrayItemsReadBack(st: ReaderState, buf: seq<Byte>, items: seq<Node>, refs: seq<int>, k: nat, fuel: nat)
    requires k <= |items| == |refs|
    requires forall i :: 0 <= i < |items| ==> ArrayRef(st, buf, i) == Ok(refs[i]) && NodeAt(st, refs[i], fuel) == Ok(items[i])
    ensures ArrayItems(st, buf, k, fuel) == Ok(items[..k])
    decreases k
  {
    if k > 0 {
      var j := k - 1;
      ArrayItemsReadBack(st, buf, items, refs, j, fuel);
      assert ArrayRef(st, buf, j) == Ok(refs[j]) && NodeAt(st, refs[j], fuel) == Ok(items[j]);
      PrefixSnoc(items, j);
    }
  }

  /** The first `j + 1` elements are the first `j` followed by element `j`. */
  lemma PrefixSnoc<T>(s: seq<T>, j: nat)
    requires j < |s|
    ensures s[..j + 1] == s[..j] + [s[j]]
  {
  }

  /** Once a prefix of the items fails, every longer prefix fails the same way. */
  lemma {:induction false} ArrayItemsErrPersists(st: ReaderState, buf: seq<Byte>, k: nat, n: nat, fuel: nat)
    requires k <= n && ArrayItems(st, buf, k, fuel).Err?
    ensures ArrayItems(st, buf, n, fuel) == ArrayItems(st, buf, k, fuel)
    decreases n
  {
    if k < n {
      ArrayItemsErrPersists(st, buf, k, n - 1, fuel);
    }
  }

  /**
   * `GetNodeOffset`: the reference at position `index` of a dictionary block.
   * Its width is `ObjectRefSize`, but its byte position is `OffsetIntSize * index`.
   */
  function GetNodeOffset(st: ReaderState, buf: seq<Byte>, index: nat): (r: Result<nat>)
    ensures r.Ok? ==> st.objectRefSize in {1, 2, 4, 8}
    ensures st.objectRefSize == 1 ==> (r.Ok? <==> index < |buf|) && (r.Ok? ==> r.value == buf[index])
    ensures st.objectRefSize in {2, 4, 8} ==> var at := Wrap32(st.offsetIntSize * index);
      (r.Ok? <==> 0 <= at && at + st.objectRefSize <= |buf|) &&
      (r.Ok? ==> r.value == BeValue(buf[at..at + st.objectRefSize]))
  {
    match st.objectRefSize
    case 1 => if index < |buf| then Ok(buf[index]) else Result<nat>.Err(IndexOutOfRange)
    case 2 => Field(buf, Wrap32(st.offsetIntSize * index), 2)
    case 4 => Field(buf, Wrap32(st.offsetIntSize * index), 4)
    case 8 => Field(buf, Wrap32(st.offsetIntSize * index), 8)
    case _ => Result<nat>.Err(UnexpectedIndexSize)
  }

  /** The unsigned big-endian value of `width` bytes at `at`. */
  function Field(buf: seq<Byte>, at: int, width: nat): (r: Result<nat>)
    ensures r.Ok? <==> 0 <= at && at + width <= |buf|
    ensures r.Ok? ==> r.value == BeValue(buf[at..at + width])
  {
    if at < 0 || at + width > |buf| then Err(IndexOutOfRange)
    else Ok(BeValue(buf[at..at + width]))
  }

  /** The entries of a dictionary of `length` entries whose key block starts at `pos`. */
  function DictAt(st: ReaderState, length: int, pos: nat, fuel: nat): (r: Result<seq<Entry>>)
    ensures r.Ok? ==> |r.value| == (if length <= 0 then 0 else length) && DistinctKeys(r.value)
    decreases fuel, 2
  {
    var size := BlockSize(st, length);
    if size < 0 then Err(Overflow)
    else
      match Take(st.data, pos, size)
      case None => Err(ShortKeyBlock)
      case Some(keys) =>
        match Take(st.data, pos + size, size)
        case None => Err(ShortValueBlock)
        case Some(values) =>
          if length <= 0 then Ok([])
          else DictEntries(st, keys, values, length, fuel)
  }

  /** A dictionary whose two blocks lie in the data is what its entries read from those blocks. */
  lemma DictAtReadsBlocks(st: ReaderState, length: int, pos: nat, fuel: nat)
    requires length > 0 && 0 <= BlockSize(st, length) && pos + BlockSize(st, length) + BlockSize(st, length) <= |st.data|
    ensures var size := BlockSize(st, length);
      DictAt(st, length, pos, fuel) == DictEntries(st, st.data[pos..pos + size], st.data[pos + size..pos + size + size], length, fuel)
  {
  }

  /**
   * A dictionary that reads has its key block at `pos` and its value block
   * right after it, and its entries are the ones read from those blocks.
   */
  lemma DictAtBlocks(st: ReaderState, length: int, pos: nat, fuel: nat)
    requires DictAt(st, length, pos, fuel).Ok? && length > 0
    ensures var size := BlockSize(st, length);
      0 <= size && Take(st.data, pos, size).Some? && Take(st.data, pos + size, size).Some? &&
      DictAt(st, length, pos, fuel) == DictEntries(st, Take(st.data, pos, size).value, Take(st.data, pos + size, size).value, length, fuel)
  {
  }

  /**
   * The first `k` entries: for each, the key is resolved first and must be a
   * string, then the value; adding a key twice is an error.
   */
  function DictEntries(st: ReaderState, keys: seq<Byte>, values: seq<Byte>, k: nat, fuel: nat): (r: Result<seq<Entry>>)
    ensures r.Ok? ==> |r.value| == k && DistinctKeys(r.value)
    decreases fuel, 1, k, 1
  {
    if k == 0 then Ok([])
    else
      var prefix :- DictEntries(st, keys, values, k - 1, fuel);
      var r := NextEntry(st, keys, values, k - 1, prefix, fuel);
      if r.Err? then r
      else
        DictionaryNodes.DistinctSnoc(prefix, r.value[k - 1]);
        r
  }

  /**
   * Entry `i` appended to the entries before it: its key must resolve to a
   * string node and must not repeat an earlier key, and its value must resolve.
   */
  function NextEntry(st: ReaderState, keys: seq<Byte>, values: seq<Byte>, i: nat, prefix: seq<Entry>, fuel: nat)
    : (r: Result<seq<Entry>>)
    ensures r.Ok? ==> (GetNodeOffset(st, keys, i).Ok? && GetNodeOffset(st, values, i).Ok? &&
      var key, value := KeyText(NodeAt(st, GetNodeOffset(st, keys, i).value, fuel)), NodeAt(st, GetNodeOffset(st, values, i).value, fuel);
      key.Some? && value.Ok? && !HasKey(prefix, key.value) && r.value == prefix + [Entry(key.value, value.value)])
    decreases fuel, 1, i + 1, 0
  {
    var keyRef :- GetNodeOffset(st, keys, i);
    var key :- NodeAt(st, keyRef, fuel);
    if !key.String? then Err(KeyNotString)
    else
      var valueRef :- GetNodeOffset(st, values, i);
      var value :- NodeAt(st, valueRef, fuel);
      if HasKey(prefix, key.text) then Err(DuplicateKey)
      else Ok(prefix + [Entry(key.text, value)])
  }

  /** The text of a node read as a dictionary key, when it is a string node. */
  function KeyText(node: Result<Node>): Option<Text> {
    if node.Ok? && node.value.String? then Some(node.value.text) else None
  }

  /**
   * When the references of both blocks name, entry by entry, a string node
   * holding the key and the value, and the keys are distinct, the first `k`
   * entries read are exactly the first `k` of those entries.
   */
  lemma {:induction false} DictEntriesReadBack(st: ReaderState, keys: seq<Byte>, values: seq<Byte>, entries: seq<Entry>, k: nat, fuel: nat)
    requires k <= |entries| && DistinctKeys(entries)
    requires forall i :: 0 <= i < |entries| ==> EntryRead(st, keys, values, i, fuel, entries[i])
    ensures DictEntries(st, keys, values, k, fuel) == Ok(entries[..k])
    decreases k
  {
    if k > 0 {
      var j := k - 1;
      DictEntriesReadBack(st, keys, values, entries, j, fuel);
      DictEntriesStep(st, keys, values, j, fuel);
      var prefix, e := entries[..j], entries[j];
      assert EntryRead(st, keys, values, j, fuel, e);
      assert !HasKey(prefix, e.key) by {
        forall i | 0 <= i < |prefix|
          ensures prefix[i].key != e.key
        {
          assert prefix[i] == entries[i];
        }
      }
      assert entries[..k] == prefix + [Entry(e.key, e.value)];
    }
  }

  /** Once a prefix of the entries fails, every longer prefix fails the same way. */
  lemma {:induction false} DictEntriesErrPersists(st: ReaderState, keys: seq<Byte>, values: seq<Byte>, k: nat, n: nat, fuel: nat)
    requires k <= n && DictEntries(st, keys, values, k, fuel).Err?
    ensures DictEntries(st, keys, values, n, fuel) == DictEntries(st, keys, values, k, fuel)
    decreases n - k
  {
    if k < n {
      DictEntriesErrStep(st, keys, values, k + 1, fuel);
      DictEntriesErrPersists(st, keys, values, k + 1, n, fuel);
    }
  }

  /** Reading one more entry is `NextEntry` on the entries read so far. */
  lemma DictEntriesStep(st: ReaderState, keys: seq<Byte>, values: seq<Byte>, i: nat, fuel: nat)
    requires DictEntries(st, keys, values, i, fuel).Ok?
    ensures DictEntries(st, keys, values, i + 1, fuel) == NextEntry(st, keys, values, i, DictEntries(st, keys, values, i, fuel).value, fuel)
  {
  }

  /**
   * Entry `e` is what reference `i` of the key and value blocks reads to:
   * the text of a string node as key, and a node as value.
   */
  predicate EntryRead(st: ReaderState, keys: seq<Byte>, values: seq<Byte>, i: nat, fuel: nat, e: Entry)
  {
    GetNodeOffset(st, keys, i).Ok? && GetNodeOffset(st, values, i).Ok? &&
    KeyText(NodeAt(st, GetNodeOffset(st, keys, i).value, fuel)) == Some(e.key) &&
    NodeAt(st, GetNodeOffset(st, values, i).value, fuel) == Ok(e.value)
  }

  /** Entry `i` of a dictionary that reads is what key and value reference `i` read to. */
  lemma {:induction false} DictEntriesRead(st: ReaderState, keys: seq<Byte>, values: seq<Byte>, k: nat, fuel: nat)
    requires DictEntries(st, keys, values, k, fuel).Ok?
    ensures var entries := DictEntries(st, keys, values, k, fuel).value;
      forall i :: 0 <= i < k ==> EntryRead(st, keys, values, i, fuel, entries[i])
    decreases k
  {
    if k > 0 {
      var j := k - 1;
      DictEntriesSnoc(st, keys, values, j, fuel);
      DictEntriesRead(st, keys, values, j, fuel);
      var prefix, entries := DictEntries(st, keys, values, j, fuel).value, DictEntries(st, keys, values, j + 1, fuel).value;
      EntryReadPrefix(st, keys, values, fuel, prefix, entries);
      forall i | 0 <= i < k
        ensures EntryRead(st, keys, values, i, fuel, entries[i])
      {
        if i == j {
          assert EntryRead(st, keys, values, j, fuel, entries[j]);
        }
      }
    }
  }

  /** A dictionary of `k + 1` entries that reads is one of `k` entries plus the entry reference `k` reads to. */
  lemma DictEntriesSnoc(st: ReaderState, keys: seq<Byte>, values: seq<Byte>, k: nat, fuel: nat)
    requires DictEntries(st, keys, values, k + 1, fuel).Ok?
    ensures DictEntries(st, keys, values, k, fuel).Ok?
    ensures var prefix, entries := DictEntries(st, keys, values, k, fuel).value, DictEntries(st, keys, values, k + 1, fuel).value;
      |entries| == k + 1 && entries[..k] == prefix && EntryRead(st, keys, values, k, fuel, entries[k])
  {
    DictEntriesStep(st, keys, values, k, fuel);
    NextEntryRead(st, keys, values, k, DictEntries(st, keys, values, k, fuel).value, fuel);
  }

  /** Entries read into a prefix stay read in every extension of it. */
  lemma EntryReadPrefix(st: ReaderState, keys: seq<Byte>, values: seq<Byte>, fuel: nat, prefix: seq<Entry>, entries: seq<Entry>)
    requires |prefix| <= |entries| && entries[..|prefix|] == prefix
    requires forall i :: 0 <= i < |prefix| ==> EntryRead(st, keys, values, i, fuel, prefix[i])
    ensures forall i :: 0 <= i < |prefix| ==> EntryRead(st, keys, values, i, fuel, entries[i])
  {
    forall i | 0 <= i < |prefix|
      ensures EntryRead(st, keys, values, i, fuel, entries[i])
    {
      assert entries[i] == entries[..|prefix|][i];
    }
  }

  /** The entry `NextEntry` appends is what reference `i` reads to. */
  lemma NextEntryRead(st: ReaderState, keys: seq<Byte>, values: seq<Byte>, i: nat, prefix: seq<Entry>, fuel: nat)
    requires NextEntry(st, keys, values, i, prefix, fuel).Ok?
    ensures var r := NextEntry(st, keys, values, i, prefix, fuel).value;
      |r| == |prefix| + 1 && r[..|prefix|] == prefix && EntryRead(st, keys, values, i, fuel, r[|prefix|])
  {
  }

  /** When entry `i` cannot be added, the whole dictionary fails with its error. */
  lemma DictEntriesFailsAt(st: ReaderState, keys: seq<Byte>, values: seq<Byte>, i: nat, n: nat, fuel: nat)
    requires i < n && DictEntries(st, keys, values, i, fuel).Ok?
    requires NextEntry(st, keys, values, i, DictEntries(st, keys, values, i, fuel).value, fuel).Err?
    ensures DictEntries(st, keys, values, n, fuel) == NextEntry(st, keys, values, i, DictEntries(st, keys, values, i, fuel).value, fuel)
  {
    DictEntriesStep(st, keys, values, i, fuel);
    DictEntriesErrPersists(st, keys, values, i + 1, n, fuel);
  }

  /** A key reference that resolves to anything but a string node is an error. */
  lemma NextEntryKeyNotString(st: ReaderState, keys: seq<Byte>, values: seq<Byte>, i: nat, prefix: seq<Entry>, fuel: nat)
    requires GetNodeOffset(st, keys, i).Ok? && NodeAt(st, GetNodeOffset(st, keys, i).value, fuel).Ok?
    requires !NodeAt(st, GetNodeOffset(st, keys, i).value, fuel).value.String?
    ensures NextEntry(st, keys, values, i, prefix, fuel) == Err(KeyNotString)
  {
  }

  /** A key equal to an earlier one is an error once its value is read. */
  lemma NextEntryDuplicateKey(st: ReaderState, keys: seq<Byte>, values: seq<Byte>, i: nat, prefix: seq<Entry>, fuel: nat)
    requires GetNodeOffset(st, keys, i).Ok? && GetNodeOffset(st, values, i).Ok?
    requires NodeAt(st, GetNodeOffset(st, values, i).value, fuel).Ok?
    requires KeyText(NodeAt(st, GetNodeOffset(st, keys, i).value, fuel)).Some?
    requires HasKey(prefix, KeyText(NodeAt(st, GetNodeOffset(st, keys, i).value, fuel)).value)
    ensures NextEntry(st, keys, values, i, prefix, fuel) == Err(DuplicateKey)
  {
  }

  /** A key reference that resolves to anything but a string node fails the whole dictionary. */
  lemma DictEntriesKeyNotString(st: ReaderState, keys: seq<Byte>, values: seq<Byte>, i: nat, n: nat, fuel: nat)
    requires i < n && DictEntries(st, keys, values, i, fuel).Ok?
    requires GetNodeOffset(st, keys, i).Ok? && NodeAt(st, GetNodeOffset(st, keys, i).value, fuel).Ok?
    requires !NodeAt(st, GetNodeOffset(st, keys, i).value, fuel).value.String?
    ensures DictEntries(st, keys, values, n, fuel) == Err(KeyNotString)
  {
    NextEntryKeyNotString(st, keys, values, i, DictEntries(st, keys, values, i, fuel).value, fuel);
    DictEntriesFailsAt(st, keys, values, i, n, fuel);
  }

  /** A key equal to an earlier one fails the whole dictionary once its value is read. */
  lemma DictEntriesDuplicateKey(st: ReaderState, keys: seq<Byte>, values: seq<Byte>, i: nat, n: nat, fuel: nat)
    requires i < n && DictEntries(st, keys, values, i, fuel).Ok?
    requires GetNodeOffset(st, keys, i).Ok? && GetNodeOffset(st, values, i).Ok?
    requires NodeAt(st, GetNodeOffset(st, values, i).value, fuel).Ok?
    requires KeyText(NodeAt(st, GetNodeOffset(st, keys, i).value, fuel)).Some?
    requires HasKey(DictEntries(st, keys, values, i, fuel).value, KeyText(NodeAt(st, GetNodeOffset(st, keys, i).value, fuel)).value)
    ensures DictEntries(st, keys, values, n, fuel) == Err(DuplicateKey)
  {
    NextEntryDuplicateKey(st, keys, values, i, DictEntries(st, keys, values, i, fuel).value, fuel);
    DictEntriesFailsAt(st, keys, values, i, n, fuel);
  }

  /** A failed prefix fails the entries one longer. */
  lemma DictEntriesErrStep(st: ReaderState, keys: seq<Byte>, values: seq<Byte>, n: nat, fuel: nat)
    requires 0 < n && DictEntries(st, keys, values, n - 1, fuel).Err?
    ensures DictEntries(st, keys, values, n, fuel) == DictEntries(st, keys, values, n - 1, fuel)
  {
  }

  /** The whole file: header, trailer, offset table, then the top object. */
  function Decode(data: seq<Byte>): (r: Result<Node>)
    ensures r.Ok? ==> (|data| >= 32 && data[..6] == Magic && var t := ReadTrailer(data).value;
      NodeOffsets(data, t).Ok? && t.topObject < t.numObjects &&
      r == NodeAt(ReaderState(data, NodeOffsets(data, t).value, t.offsetIntSize, t.objectRefSize), t.topObject, t.numObjects))
    ensures |data| >= 32 && data[..6] == Magic ==> var t := ReadTrailer(data).value;
      (NodeOffsets(data, t).Err? ==> r == Err(NodeOffsets(data, t).error)) &&
      (NodeOffsets(data, t).Ok? ==>
        r == NodeAt(ReaderState(data, NodeOffsets(data, t).value, t.offsetIntSize, t.objectRefSize), t.topObject, t.numObjects))
  {
    var _ :- ValidatePListFileHeader(data);
    var t :- ReadTrailer(data);
    var offsets :- NodeOffsets(data, t);
    var st := ReaderState(data, offsets, t.offsetIntSize, t.objectRefSize);
    NodeAt(st, t.topObject, |offsets|)
  }

  // The reader's methods, each proved to compute the function above it.

  /** `Read`: validates the header, reads the trailer and the offsets, then the top object. */
  method Read(data: seq<Byte>) returns (r: Result<Node>)
    ensures r == Decode(data)
  {
    var header := ValidatePListFileHeader(data);
    if header.Err? {
      return Err(header.error);
    }
    var trailer := ReadTrailer(data);
    if trailer.Err? {
      return Err(trailer.error);
    }
    var t := trailer.value;
    var offsets := ReadNodeOffsets(data, t);
    if offsets.Err? {
      return Err(offsets.error);
    }
    var st := ReaderState(data, offsets.value, t.offsetIntSize, t.objectRefSize);
    r := ReadInternalAt(st, t.topObject, |offsets.value|);
  }

  /** `ReadInternal(readerState, elemIdx)`: seeks to the offset of the index, then reads there. */
  method ReadInternalAt(st: ReaderState, elemIdx: int, fuel: nat) returns (r: Result<Node>)
    ensures r == NodeAt(st, elemIdx, fuel)
    decreases fuel, 0
  {
    if elemIdx < 0 || elemIdx > LongMax {
      return Err(Overflow);
    }
    if elemIdx >= |st.nodeOffsets| {
      return Err(IndexOutOfRange);
    }
    if st.nodeOffsets[elemIdx] < 0 {
      return Err(SeekBeforeStart);
    }
    if fuel == 0 {
      return Err(ReferenceCycle);
    }
    r := ReadInternal(st, st.nodeOffsets[elemIdx], fuel - 1);
  }

  /** `ReadInternal(readerState)`: the marker, the factory, then the array, dictionary or atom reader. */
  method ReadInternal(st: ReaderState, pos: nat, fuel: nat) returns (r: Result<Node>)
    ensures r == ObjectAt(st, pos, fuel)
    decreases fuel, 3
  {
    var tagAndLength := GetObjectLengthAndTag(st.data, pos);
    if tagAndLength.Err? {
      return Err(tagAndLength.error);
    }
    var tl := tagAndLength.value;
    var node := NodeFactory.Create(tl.tag, tl.length);
    if node.Err? {
      return Err(node.error);
    }
    match node.value
    case ArrayKind =>
      var items := ReadInArray(st, tl.length, tl.next, fuel);
      if items.Err? {
        return Err(items.error);
      }
      return Ok(Array(items.value));
    case DictKind =>
      var entries := ReadInDictionary(st, tl.length, tl.next, fuel);
      if entries.Err? {
        return Err(entries.error);
      }
      return Ok(Dict(entries.value));
    case _ =>
      return ReadAtom(node.value, st.data, tl.next, tl.length);
  }

  /** `ReadInArray`: reads the reference block, then resolves and appends each child in order. */
  method ReadInArray(st: ReaderState, nodeLength: int, pos: nat, fuel: nat) returns (r: Result<seq<Node>>)
    ensures r == ArrayAt(st, nodeLength, pos, fuel)
    decreases fuel, 2
  {
    var size := BlockSize(st, nodeLength);
    if size < 0 {
      return Err(Overflow);
    }
    var block := Take(st.data, pos, size);
    if block.None? {
      return Err(ShortReferenceBlock);
    }
    if nodeLength <= 0 {
      return Ok([]);
    }
    r := ReadItems(st, block.value, nodeLength, fuel);
  }

  /** The loop of `ReadInArray` over the `nodeLength` references. */
  method ReadItems(st: ReaderState, buf: seq<Byte>, nodeLength: nat, fuel: nat) returns (r: Result<seq<Node>>)
    ensures r == ArrayItems(st, buf, nodeLength, fuel)
    decreases fuel, 1, nodeLength + 1
  {
    var items: seq<Node> := [];
    var i := 0;
    while i < nodeLength
      invariant 0 <= i <= nodeLength
      invariant ArrayItems(st, buf, i, fuel) == Ok(items)
    {
      var step := ReadItem(st, buf, i, items, fuel);
      if step.Err? {
        r := Err(step.error);
        ArrayItemsErrPersists(st, buf, i + 1, nodeLength, fuel);
        return;
      }
      items := step.value;
      i := i + 1;
    }
    return Ok(items);
  }

  /** One round of the array loop: the reference, the child it names, `Add`. */
  method ReadItem(st: ReaderState, buf: seq<Byte>, i: nat, items: seq<Node>, fuel: nat) returns (r: Result<seq<Node>>)
    requires ArrayItems(st, buf, i, fuel) == Ok(items)
    ensures r == ArrayItems(st, buf, i + 1, fuel)
    decreases fuel, 1, i + 1
  {
    var topNode := ArrayRef(st, buf, i);
    if topNode.Err? {
      return Err(topNode.error);
    }
    var item := ReadInternalAt(st, topNode.value, fuel);
    if item.Err? {
      return Err(item.error);
    }
    return Ok(items + [item.value]);
  }

  /** `ReadInDictionary`: reads both blocks, then per entry the key (which must be a string) and the value. */
  method ReadInDictionary(st: ReaderState, nodeLength: int, pos: nat, fuel: nat) returns (r: Result<seq<Entry>>)
    ensures r == DictAt(st, nodeLength, pos, fuel)
    decreases fuel, 2
  {
    var size := BlockSize(st, nodeLength);
    if size < 0 {
      return Err(Overflow);
    }
    var keyBlock := Take(st.data, pos, size);
    if keyBlock.None? {
      return Err(ShortKeyBlock);
    }
    var valueBlock := Take(st.data, pos + size, size);
    if valueBlock.None? {
      return Err(ShortValueBlock);
    }
    if nodeLength <= 0 {
      return Ok([]);
    }
    ghost var entries := DictEntries(st, keyBlock.value, valueBlock.value, nodeLength, fuel);
    assert DictAt(st, nodeLength, pos, fuel) == entries;
    r := ReadEntries(st, keyBlock.value, valueBlock.value, nodeLength, fuel);
  }

  /** The loop of `ReadInDictionary` over the `nodeLength` entries. */
  method ReadEntries(st: ReaderState, bufKeys: seq<Byte>, bufVals: seq<Byte>, nodeLength: nat, fuel: nat)
    returns (r: Result<seq<Entry>>)
    ensures r == DictEntries(st, bufKeys, bufVals, nodeLength, fuel)
    decreases fuel, 1, nodeLength + 1
  {
    var entries: seq<Entry> := [];
    var i := 0;
    while i < nodeLength
      invariant 0 <= i <= nodeLength
      invariant DictEntries(st, bufKeys, bufVals, i, fuel) == Ok(entries)
    {
      var step := ReadEntry(st, bufKeys, bufVals, i, entries, fuel);
      if step.Err? {
        r := Err(step.error);
        DictEntriesErrPersists(st, bufKeys, bufVals, i + 1, nodeLength, fuel);
        return;
      }
      entries := step.value;
      i := i + 1;
    }
    return Ok(entries);
  }

  /** One round of the dictionary loop: key, string check, value, `Add`. */
  method ReadEntry(st: ReaderState, bufKeys: seq<Byte>, bufVals: seq<Byte>, i: nat, entries: seq<Entry>, fuel: nat)
    returns (r: Result<seq<Entry>>)
    requires DictEntries(st, bufKeys, bufVals, i, fuel) == Ok(entries)
    ensures r == DictEntries(st, bufKeys, bufVals, i + 1, fuel)
    decreases fuel, 1, i + 1
  {
    var keyRef := GetNodeOffset(st, bufKeys, i);
    if keyRef.Err? {
      return Err(keyRef.error);
    }
    var plKey := ReadInternalAt(st, keyRef.value, fuel);
    if plKey.Err? {
      return Err(plKey.error);
    }
    if !plKey.value.String? {
      return Err(KeyNotString);
    }
    var valueRef := GetNodeOffset(st, bufVals, i);
    if valueRef.Err? {
      return Err(valueRef.error);
    }
    var plVal := ReadInternalAt(st, valueRef.value, fuel);
    if plVal.Err? {
      return Err(plVal.error);
    }
    if HasKey(entries, plKey.value.text) {
      return Err(DuplicateKey);
    }
    return Ok(entries + [Entry(plKey.value.text, plVal.value)]);
  }
}
