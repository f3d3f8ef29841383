/**
 * The binary writer. It writes the header, then every object depth first
 * (an array or dictionary reserves its reference blocks, writes its children
 * after them and fills the blocks in afterwards), then the offset table and
 * the trailer. Typed atoms equal to one already written are not written
 * again: their earlier index is referenced instead.
 *
 * The writing is specified by functions over a `WState` (the bytes written so
 * far, the offset list, the sharing map and, for the proofs, the node each
 * offset belongs to); the class follows the library's methods and is proved
 * to compute those functions.
 */
module BinaryWriter {
  import opened Wrappers
  import opened Bytes
  import opened Nodes
  import NodeFactory

  /** `bplist00`. */
  const Header: seq<Byte> := [0x62, 0x70, 0x6C, 0x69, 0x73, 0x74, 0x30, 0x30]

  /** The width of node indices and of offsets: one byte up to 255, two up to 32767, four beyond. */
  function WidthFor(n: int): (w: int)
    ensures w in {1, 2, 4}
    ensures w == 1 <==> n <= 255
    ensures w == 4 <==> n > ShortMax
  {
    if n <= 255 then 1 else if n <= ShortMax then 2 else 4
  }

  /**
   * `GetNodeCount`: one for every node of the tree and one for every
   * dictionary key, counting shared atoms once per occurrence.
   */
  function GetNodeCount(n: Node): (c: nat)
    ensures c >= 1
    decreases n, 1
  {
    match n
    case Array(items) => 1 + ItemsCount(items, |items|)
    case Dict(entries) => 1 + ValuesCount(entries, |entries|) + |entries|
    case _ => 1
  }

  /** The node counts of the first `k` items, added up. */
  function ItemsCount(items: seq<Node>, k: nat): nat
    requires k <= |items|
    decreases items, 0, k
  {
    if k == 0 then 0 else ItemsCount(items, k - 1) + GetNodeCount(items[k - 1])
  }

  /** The node counts of the first `k` values, added up. */
  function ValuesCount(entries: seq<Entry>, k: nat): nat
    requires k <= |entries|
    decreases entries, 0, k
  {
    if k == 0 then 0 else ValuesCount(entries, k - 1) + GetNodeCount(entries[k - 1].value)
  }

  /** Each item counts no more than all of them. */
  lemma {:induction false} ItemCountBound(items: seq<Node>, k: nat, i: nat)
    requires i < k <= |items|
    ensures GetNodeCount(items[i]) <= ItemsCount(items, k)
  {
    if i < k - 1 {
      ItemCountBound(items, k - 1, i);
    }
  }

  /** Each value counts no more than all of them. */
  lemma {:induction false} ValueCountBound(entries: seq<Entry>, k: nat, i: nat)
    requires i < k <= |entries|
    ensures GetNodeCount(entries[i].value) <= ValuesCount(entries, k)
  {
    if i < k - 1 {
      ValueCountBound(entries, k - 1, i);
    }
  }

  /**
   * `FormatIdx`: an index as a reference of `nodeIndexSize` bytes, by the
   * C# casts `(byte)`, `(short)` and `int` and network byte order.
   */
  function FormatIdx(index: int, nodeIndexSize: int): (r: Result<seq<Byte>>)
    ensures r.Ok? <==> nodeIndexSize in {1, 2, 4}
    ensures r.Ok? ==> |r.value| == nodeIndexSize && BeValue(r.value) == index % Pow256(nodeIndexSize)
  {
    match nodeIndexSize
    case 1 =>
      assert BeValue([index % 256]) == index % 256 by {
        assert [index % 256][..0] == [];
      }
      Ok([index % 256])
    case 2 => Ok(BeEncodeSigned(index, 2))
    case 4 => Ok(BeEncodeSigned(index, 4))
    case _ => Err(BadIndexSize)
  }

  /** A block of references (or the offset table): each value formatted, in order. */
  function FormatAll(values: seq<int>, width: int): (r: seq<Byte>)
    requires width in {1, 2, 4}
    ensures |r| == width * |values|
  {
    if values == [] then []
    else FormatAll(values[..|values| - 1], width) + FormatIdx(values[|values| - 1], width).value
  }

  /**
   * The marker of a node: tag and length nibbles, and for a length of 15 or
   * more the marker and payload of an integer node holding the length.
   */
  function Marker(n: Node): (m: seq<Byte>)
    requires BinaryLength(n) <= IntMax
    ensures |m| >= 1 && m[0] / 16 == BinaryTag(n)
    ensures BinaryLength(n) < 0x0F ==> m == [BinaryTag(n) * 16 + BinaryLength(n)]
    ensures BinaryLength(n) >= 0x0F ==> m[0] % 16 == 0x0F
  {
    var len := BinaryLength(n);
    if len < 0x0F then [BinaryTag(n) * 16 + len]
    else [BinaryTag(n) * 16 + 0x0F] + ExtendedLength(len)
  }

  /** The integer node that carries a length of 15 or more: its marker byte, then its payload. */
  function ExtendedLength(len: int): (m: seq<Byte>)
    requires 0x0F <= len <= IntMax
    ensures 2 <= |m| <= 5 && m[0] / 16 == IntegerNode.BinaryTag
  {
    var extLen := NodeFactory.CreateLengthElement(len);
    [BinaryTag(extLen) * 16 + BinaryLength(extLen)] + WriteBinary(extLen).value
  }

  /** `stream.Seek(at)` followed by `stream.Write(bytes)` inside what is already written. */
  function Patch(s: seq<Byte>, at: nat, bytes: seq<Byte>): (r: seq<Byte>)
    requires at + |bytes| <= |s|
    ensures |r| == |s|
    ensures r[at..at + |bytes|] == bytes
  {
    s[..at] + bytes + s[at + |bytes|..]
  }

  /**
   * The writer's state: the stream, the offset list, the sharing map (keyed
   * by tag and value) and, for the proofs, the node each offset was taken for.
   */
  datatype WState = WState(stream: seq<Byte>, offsets: seq<int>, unique: map<(int, Value), int>, objects: seq<Node>)

  /** The state after writing one node, and the index the node is referenced by. */
  datatype Written = Written(state: WState, idx: int)

  /** The state after writing several nodes, and their indices in order. */
  datatype WrittenAll = WrittenAll(state: WState, indices: seq<int>)

  /** `IsBinaryUnique && node is IEquatable<PNode>`, for nodes whose equality compares values. */
  predicate Shareable(n: Node) {
    IsBinaryUnique(n) && ValueOf(n).Some?
  }

  /** The writer returns the index of an equal node written before; booleans are written again. */
  predicate Reused(s: WState, n: Node) {
    Shareable(n) && UniqueKey(n) in s.unique && !n.Boolean?
  }

  /** The index `WriteInternal` returns for a node it writes. */
  function EnteredIdx(s: WState, n: Node): int {
    if Shareable(n) && UniqueKey(n) in s.unique then s.unique[UniqueKey(n)] else |s.offsets|
  }

  /** The sharing map entry, the offset and the marker: everything before the payload or the blocks. */
  function Enter(s: WState, n: Node): (e: WState)
    requires BinaryLength(n) <= IntMax
  {
    var unique := if Shareable(n) && UniqueKey(n) !in s.unique then s.unique[UniqueKey(n) := |s.offsets|] else s.unique;
    WState(s.stream + Marker(n), s.offsets + [|s.stream|], unique, s.objects + [n])
  }

  /** `s` grows into `t`: bytes before the end of `s` and existing entries stay as they are. */
  predicate Extends(s: WState, t: WState) {
    s.stream <= t.stream && s.offsets <= t.offsets && s.objects <= t.objects &&
    forall key :: key in s.unique ==> key in t.unique && t.unique[key] == s.unique[key]
  }

  /**
   * The sharing map refers to nodes written with that tag and value, and every
   * offset points into the stream.
   */
  predicate Valid(s: WState) {
    |s.offsets| == |s.objects| &&
    (forall j :: 0 <= j < |s.offsets| ==> 0 <= s.offsets[j] < |s.stream|) &&
    forall key :: key in s.unique ==>
      0 <= s.unique[key] < |s.objects| && ValueOf(s.objects[s.unique[key]]).Some? &&
      UniqueKey(s.objects[s.unique[key]]) == key
  }

  /** An atom: the early return when shared, otherwise the marker and `WriteBinary`. */
  function AtomWrite(s: WState, n: Node): (w: Written)
    requires !n.Array? && !n.Dict? && BinaryLength(n) <= IntMax
    ensures |w.state.stream| >= |s.stream|
  {
    if Reused(s, n) then Written(s, s.unique[UniqueKey(n)])
    else
      var e := Enter(s, n);
      Written(e.(stream := e.stream + WriteBinary(n).value), EnteredIdx(s, n))
  }

  /** `WriteInternal(stream, nodeIndexSize, offsets, node)`. */
  function NodeWrite(s: WState, size: int, n: Node): (w: Written)
    requires size in {1, 2, 4} && WellFormed(n)
    ensures |w.state.stream| >= |s.stream|
    decreases n, 0
  {
    match n
    case Array(items) =>
      var e := Enter(s, n);
      var a := ArrayWrite(e, size, items);
      Written(a, |s.offsets|)
    case Dict(entries) =>
      var e := Enter(s, n);
      var d := DictWrite(e, size, entries);
      Written(d, |s.offsets|)
    case _ => AtomWrite(s, n)
  }

  /** The array overload: the reserved block, the items, then the block filled in. */
  function ArrayWrite(s: WState, size: int, items: seq<Node>): (r: WState)
    requires size in {1, 2, 4} && ItemsWellFormed(items)
    ensures |r.stream| >= |s.stream|
    decreases items, 2
  {
    var placeholder := s.(stream := s.stream + Zeros(size * |items|));
    var children := ItemsWrite(placeholder, size, items, |items|);
    children.state.(stream := Patch(children.state.stream, |s.stream|, FormatAll(children.indices, size)))
  }

  /** The first `k` items written one after the other. */
  function ItemsWrite(s: WState, size: int, items: seq<Node>, k: nat): (r: WrittenAll)
    requires size in {1, 2, 4} && k <= |items| && ItemsWellFormed(items)
    ensures |r.state.stream| >= |s.stream| && |r.indices| == k
    decreases items, 1, k
  {
    if k == 0 then WrittenAll(s, [])
    else
      var prefix := ItemsWrite(s, size, items, k - 1);
      var item := NodeWrite(prefix.state, size, items[k - 1]);
      WrittenAll(item.state, prefix.indices + [item.idx])
  }

  /** The dictionary overload: two reserved blocks, all keys, all values, then both blocks filled in. */
  function DictWrite(s: WState, size: int, entries: seq<Entry>): (r: WState)
    requires size in {1, 2, 4} && KeysFit(entries) && ValuesWellFormed(entries)
    ensures |r.stream| >= |s.stream|
    decreases entries, 2
  {
    var n := |entries|;
    var placeholder := s.(stream := s.stream + Zeros(size * n) + Zeros(size * n));
    var keys := KeysWrite(placeholder, entries, n);
    var values := ValuesWrite(keys.state, size, entries, n);
    values.state.(stream := PatchBlocks(values.state.stream, |s.stream|, FormatAll(keys.indices, size), FormatAll(values.indices, size)))
  }

  /** The two filled-in blocks of a dictionary written back to back at `at`. */
  function PatchBlocks(s: seq<Byte>, at: nat, keyBlock: seq<Byte>, valueBlock: seq<Byte>): (r: seq<Byte>)
    requires at + |keyBlock| + |valueBlock| <= |s|
    ensures |r| == |s|
  {
    Patch(Patch(s, at, keyBlock), at + |keyBlock|, valueBlock)
  }

  /** Every item is well formed. */
  predicate ItemsWellFormed(items: seq<Node>) {
    forall i :: 0 <= i < |items| ==> WellFormed(items[i])
  }

  /** Every key fits a string node. */
  predicate KeysFit(entries: seq<Entry>) {
    forall i :: 0 <= i < |entries| ==> |entries[i].key| <= IntMax
  }

  /** Every value is well formed. */
  predicate ValuesWellFormed(entries: seq<Entry>) {
    forall i :: 0 <= i < |entries| ==> WellFormed(entries[i].value)
  }

  /** The first `k` keys, each written as `CreateKeyElement(key)`. */
  function KeysWrite(s: WState, entries: seq<Entry>, k: nat): (r: WrittenAll)
    requires k <= |entries| && KeysFit(entries)
    ensures |r.state.stream| >= |s.stream| && |r.indices| == k
  {
    if k == 0 then WrittenAll(s, [])
    else
      var prefix := KeysWrite(s, entries, k - 1);
      var key := AtomWrite(prefix.state, NodeFactory.CreateKeyElement(entries[k - 1].key));
      WrittenAll(key.state, prefix.indices + [key.idx])
  }

  /** The first `k` values written one after the other. */
  function ValuesWrite(s: WState, size: int, entries: seq<Entry>, k: nat): (r: WrittenAll)
    requires size in {1, 2, 4} && k <= |entries| && ValuesWellFormed(entries)
    ensures |r.state.stream| >= |s.stream| && |r.indices| == k
    decreases entries, 1, k
  {
    if k == 0 then WrittenAll(s, [])
    else
      var prefix := ValuesWrite(s, size, entries, k - 1);
      var value := NodeWrite(prefix.state, size, entries[k - 1].value);
      WrittenAll(value.state, prefix.indices + [value.idx])
  }

  /**
   * The 32-byte trailer: the two widths at bytes 6 and 7, and the object
   * count, the top index and the table offset as 32-bit big-endian values in
   * the low halves of the three 64-bit fields.
   */
  function TrailerBytes(offsetSize: int, nodeIndexSize: int, nodeCount: int, topIdx: int, tableOffset: int): (t: seq<Byte>)
    requires offsetSize in {1, 2, 4} && nodeIndexSize in {1, 2, 4}
    ensures |t| == 32
  {
    Zeros(6) + [offsetSize, nodeIndexSize] +
    Zeros(4) + BeEncodeSigned(nodeCount, 4) +
    Zeros(4) + BeEncodeSigned(topIdx, 4) +
    Zeros(4) + BeEncodeSigned(tableOffset, 4)
  }

  /** The trailer array of `Write` after its three copies holds `TrailerBytes`. */
  lemma TrailerLayout(offsetSize: int, nodeIndexSize: int, nodeCount: int, topIdx: int, tableOffset: int)
    requires offsetSize in {1, 2, 4} && nodeIndexSize in {1, 2, 4}
    ensures var h := Zeros(6) + [offsetSize, nodeIndexSize] + Zeros(24);
      Patch(Patch(Patch(h, 12, BeEncodeSigned(nodeCount, 4)), 20, BeEncodeSigned(topIdx, 4)), 28, BeEncodeSigned(tableOffset, 4)) ==
      TrailerBytes(offsetSize, nodeIndexSize, nodeCount, topIdx, tableOffset)
  {
    var h := Zeros(6) + [offsetSize, nodeIndexSize] + Zeros(24);
    var x1, x2, x3 := BeEncodeSigned(nodeCount, 4), BeEncodeSigned(topIdx, 4), BeEncodeSigned(tableOffset, 4);
    var p0 := Zeros(6) + [offsetSize, nodeIndexSize] + Zeros(4);
    assert h == p0 + Zeros(4) + Zeros(16);
    PatchOver(p0, Zeros(4), x1, Zeros(16));
    var p1 := p0 + x1 + Zeros(4);
    assert p0 + x1 + Zeros(16) == p1 + Zeros(4) + Zeros(8);
    PatchOver(p1, Zeros(4), x2, Zeros(8));
    var p2 := p1 + x2 + Zeros(4);
    assert p1 + x2 + Zeros(8) == p2 + Zeros(4) + [];
    PatchOver(p2, Zeros(4), x3, []);
    assert p2 + x3 + [] == TrailerBytes(offsetSize, nodeIndexSize, nodeCount, topIdx, tableOffset);
  }

  /** Patching over the middle part of `a + z + c` with bytes as long as `z` replaces it. */
  lemma PatchOver(a: seq<Byte>, z: seq<Byte>, b: seq<Byte>, c: seq<Byte>)
    requires |z| == |b|
    ensures Patch(a + z + c, |a|, b) == a + b + c
  {
    var s := a + z + c;
    assert s[..|a|] == a;
    assert s[|a| + |b|..] == c;
  }

  /** The state after writing the root, before the offset table. */
  function ObjectsWrite(stream0: seq<Byte>, unique0: map<(int, Value), int>, root: Node): (w: Written)
    requires WellFormed(root)
  {
    NodeWrite(WState(stream0 + Header, [], unique0, []), WidthFor(GetNodeCount(root)), root)
  }

  /** `Write(stream, node)` on a stream holding `stream0`, with the sharing map `unique0` left by earlier calls. */
  function FileWrite(stream0: seq<Byte>, unique0: map<(int, Value), int>, root: Node): (r: WState)
    requires WellFormed(root)
  {
    var top := ObjectsWrite(stream0, unique0, root);
    var tableOffset := |top.state.stream|;
    var offsetSize := WidthFor(tableOffset);
    var trailer := TrailerBytes(offsetSize, WidthFor(GetNodeCount(root)), |top.state.offsets|, top.idx, tableOffset);
    top.state.(stream := top.state.stream + FormatAll(top.state.offsets, offsetSize) + trailer)
  }

  /** `Array.CopyTo(dst, at)`. */
  method CopyTo(src: seq<Byte>, dst: array<Byte>, at: nat)
    requires at + |src| <= dst.Length
    modifies dst
    ensures dst[..] == Patch(old(dst[..]), at, src)
  {
    forall i | 0 <= i < |src| {
      dst[at + i] := src[i];
    }
    assert dst[..] == Patch(old(dst[..]), at, src);
  }

  class BinaryFormatWriter {
    var stream: seq<Byte>
    var offsets: seq<int>
    var uniqueElements: map<(int, Value), int>
    /** The node each offset was taken for; the library keeps none, the model keeps it to state what the sharing map refers to. */
    var objects: seq<Node>

    /** A writer on an empty stream, with an empty sharing map. */
    constructor ()
      ensures stream == [] && offsets == [] && uniqueElements == map[] && objects == []
    {
      stream := [];
      offsets := [];
      uniqueElements := map[];
      objects := [];
    }

    /** `Write(stream, node)`. */
    method Write(root: Node)
      requires WellFormed(root)
      modifies this
      ensures State() == FileWrite(old(stream), old(uniqueElements), root)
    {
      stream := stream + Header;
      offsets := [];
      objects := [];
      var nodeCount := GetNodeCount(root);
      var nodeIndexSize;
      if nodeCount <= 255 {
        nodeIndexSize := 1;
      } else if nodeCount <= ShortMax {
        nodeIndexSize := 2;
      } else {
        nodeIndexSize := 4;
      }
      assert State() == WState(old(stream) + Header, [], old(uniqueElements), []);
      ghost var top := ObjectsWrite(old(stream), old(uniqueElements), root);
      var topOffsetIdx := WriteInternal(nodeIndexSize, root);
      assert State() == top.state && topOffsetIdx == top.idx;
      nodeCount := |offsets|;
      var offsetTableOffset := |stream|;
      var offsetSize;
      if offsetTableOffset <= 255 {
        offsetSize := 1;
      } else if offsetTableOffset <= ShortMax {
        offsetSize := 2;
      } else {
        offsetSize := 4;
      }
      assert nodeIndexSize == WidthFor(GetNodeCount(root)) && offsetSize == WidthFor(offsetTableOffset);
      WriteOffsetTable(offsetSize);
      WriteTrailer(offsetSize, nodeIndexSize, nodeCount, topOffsetIdx, offsetTableOffset);
    }

    /** The loop of `Write` that writes the offset table. */
    method WriteOffsetTable(offsetSize: int)
      requires offsetSize in {1, 2, 4}
      modifies this
      ensures stream == old(stream) + FormatAll(offsets, offsetSize)
      ensures offsets == old(offsets) && uniqueElements == old(uniqueElements) && objects == old(objects)
    {
      var i := 0;
      while i < |offsets|
        invariant 0 <= i <= |offsets|
        invariant stream == old(stream) + FormatAll(offsets[..i], offsetSize)
        invariant offsets == old(offsets) && uniqueElements == old(uniqueElements) && objects == old(objects)
      {
        var buf;
        if offsetSize == 1 {
          buf := [offsets[i] % 256];
        } else if offsetSize == 2 {
          buf := BeEncodeSigned(offsets[i], 2);
        } else {
          buf := BeEncodeSigned(offsets[i], 4);
        }
        assert buf == FormatIdx(offsets[i], offsetSize).value;
        assert offsets[..i + 1][..i] == offsets[..i];
        stream := stream + buf;
        i := i + 1;
      }
      assert offsets[..i] == offsets;
    }

    /** The end of `Write`: the 32-byte trailer built in an array. */
    method WriteTrailer(offsetSize: int, nodeIndexSize: int, nodeCount: int, topOffsetIdx: int, offsetTableOffset: int)
      requires offsetSize in {1, 2, 4} && nodeIndexSize in {1, 2, 4}
      modifies this
      ensures stream == old(stream) + TrailerBytes(offsetSize, nodeIndexSize, nodeCount, topOffsetIdx, offsetTableOffset)
      ensures offsets == old(offsets) && uniqueElements == old(uniqueElements) && objects == old(objects)
    {
      var header := new Byte[32](_ => 0);
      header[6] := offsetSize;
      header[7] := nodeIndexSize;
      assert header[..] == Zeros(6) + [offsetSize, nodeIndexSize] + Zeros(24);
      CopyTo(BeEncodeSigned(nodeCount, 4), header, 12);
      CopyTo(BeEncodeSigned(topOffsetIdx, 4), header, 20);
      CopyTo(BeEncodeSigned(offsetTableOffset, 4), header, 28);
      TrailerLayout(offsetSize, nodeIndexSize, nodeCount, topOffsetIdx, offsetTableOffset);
      stream := stream + header[..];
    }

    /** The writer's fields as a state. */
    function State(): WState
      reads this
    {
      WState(stream, offsets, uniqueElements, objects)
    }

    /**
     * `WriteInternal(stream, nodeIndexSize, offsets, node)`: returns the index
     * to reference the node by. The array and dictionary overloads it hands
     * containers to are the functions `ArrayWrite` and `DictWrite`.
     */
    method WriteInternal(nodeIndexSize: int, node: Node) returns (elementIdx: int)
      requires nodeIndexSize in {1, 2, 4} && WellFormed(node)
      modifies this
      ensures State() == NodeWrite(old(State()), nodeIndexSize, node).state
      ensures elementIdx == NodeWrite(old(State()), nodeIndexSize, node).idx
    {
      ghost var s := State();
      elementIdx := |offsets|;
      if Shareable(node) {
        var key := UniqueKey(node);
        if key !in uniqueElements {
          uniqueElements := uniqueElements[key := elementIdx];
        } else if node.Boolean? {
          elementIdx := uniqueElements[key];
        } else {
          return uniqueElements[key];
        }
      }
      var offset := |stream|;
      offsets := offsets + [offset];
      objects := objects + [node];
      WriteMarker(node);
      assert State() == Enter(s, node);
      if node.Array? {
        var w := ArrayWrite(State(), nodeIndexSize, node.items);
        stream, offsets, uniqueElements, objects := w.stream, w.offsets, w.unique, w.objects;
      } else if node.Dict? {
        var w := DictWrite(State(), nodeIndexSize, node.entries);
        stream, offsets, uniqueElements, objects := w.stream, w.offsets, w.unique, w.objects;
      } else {
        stream := stream + WriteBinary(node).value;
      }
    }

    /** The marker byte and, for a length of 15 or more, the extended length. */
    method WriteMarker(node: Node)
      requires BinaryLength(node) <= IntMax
      modifies this
      ensures stream == old(stream) + Marker(node)
      ensures offsets == old(offsets) && uniqueElements == old(uniqueElements) && objects == old(objects)
    {
      var len := BinaryLength(node);
      var typeCode := BinaryTag(node) * 16 + (if len < 0x0F then len else 0x0F);
      ghost var before, marker := stream, Marker(node);
      assert len < 0x0F ==> marker == [typeCode];
      assert len >= 0x0F ==> marker == [typeCode] + ExtendedLength(len);
      stream := stream + [typeCode];
      if len >= 0x0F {
        WriteExtendedLength(len);
        assert stream == before + ([typeCode] + ExtendedLength(len));
      }
    }

    /** The extended length: the marker byte of an integer node, then its payload. */
    method WriteExtendedLength(len: int)
      requires 0x0F <= len <= IntMax
      modifies this
      ensures stream == old(stream) + ExtendedLength(len)
      ensures offsets == old(offsets) && uniqueElements == old(uniqueElements) && objects == old(objects)
    {
      var extLen := NodeFactory.CreateLengthElement(len);
      stream := stream + [BinaryTag(extLen) * 16 + BinaryLength(extLen)];
      stream := stream + WriteBinary(extLen).value;
    }
  }

  /** Reference `j` of a formatted block is value `j` formatted, at bytes `width * j` onwards. */
  lemma {:induction false} FormatAllAt(values: seq<int>, width: int, j: nat)
    requires width in {1, 2, 4} && j < |values|
    ensures FormatAll(values, width)[width * j..width * j + width] == FormatIdx(values[j], width).value
    decreases |values|
  {
    var init := values[..|values| - 1];
    var head, last := FormatAll(init, width), FormatIdx(values[|values| - 1], width).value;
    assert FormatAll(values, width) == head + last;
    var lo := width * j;
    if j < |init| {
      FormatAllAt(init, width, j);
      BlockWithin(width, j, |init|);
      SliceOfHead(head, last, lo, lo + width);
      assert init[j] == values[j];
    } else {
      assert lo == |head|;
      assert (head + last)[lo..] == last;
    }
  }

  /** A slice that ends inside `a` is the same slice of `a + b`. */
  lemma SliceOfHead(a: seq<Byte>, b: seq<Byte>, lo: nat, hi: nat)
    requires lo <= hi <= |a|
    ensures (a + b)[lo..hi] == a[lo..hi]
  {
    assert forall i :: lo <= i < hi ==> (a + b)[i] == a[i];
  }

  /** Reference `j` of a block of `n` ends inside the block. */
  lemma BlockWithin(width: int, j: nat, n: nat)
    requires width in {1, 2, 4} && j < n
    ensures 0 <= width * j == j * width && width * j + width <= width * n
  {
  }

  /** Appending an index appends its formatted reference. */
  lemma FormatAllAppend(values: seq<int>, v: int, width: int)
    requires width in {1, 2, 4}
    ensures FormatAll(values + [v], width) == FormatAll(values, width) + FormatIdx(v, width).value
  {
    assert (values + [v])[..|values|] == values;
  }
}
