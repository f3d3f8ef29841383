/**
 * What the reader makes of the parts of a file the writer lays down around
 * the objects: the trailer, the offset table and the reference blocks.
 *
 * The reader takes the width of the references in an array or dictionary
 * block from the offset-table width (trailer byte 6), while the writer
 * writes them with the reference width (trailer byte 7). The two agree when
 * both are one byte, which is the case the block lemmas cover; where they
 * differ the reader misreads the block, as `ArrayRefWidthMismatch` shows.
 */
module FileReadBack {
  import opened Wrappers
  import opened Bytes
  import Nodes
  import BinaryReader
  import BinaryWriter

  /** A trailer field: four zero bytes, then the value as a big-endian `int`. */
  lemma FieldReadsBack(v: int)
    requires 0 <= v <= IntMax
    ensures BeValue(Zeros(4) + BeEncodeSigned(v, 4)) == v
  {
    BeValueZeroPrefix(4, BeEncodeSigned(v, 4));
    assert Pow256(4) == 0x1_0000_0000;
    ModInRange(v, Pow256(4));
  }

  /**
   * The 32 bytes the writer ends a file with read back, whatever precedes
   * them, as the two widths, the object count, the top index and the table
   * offset, with a sort version of 0.
   */
  lemma TrailerReadsBack(prefix: seq<Byte>, offsetSize: int, nodeIndexSize: int, count: int, top: int, tableOffset: int)
    requires offsetSize in {1, 2, 4} && nodeIndexSize in {1, 2, 4}
    requires 0 <= count <= IntMax && 0 <= top <= IntMax && 0 <= tableOffset <= IntMax
    ensures BinaryReader.ReadTrailer(prefix + BinaryWriter.TrailerBytes(offsetSize, nodeIndexSize, count, top, tableOffset)) ==
      Ok(BinaryReader.Trailer(0, offsetSize, nodeIndexSize, count, top, tableOffset))
  {
    var t := BinaryWriter.TrailerBytes(offsetSize, nodeIndexSize, count, top, tableOffset);
    var data := prefix + t;
    var end := |data|;
    assert data[end - 32..] == t;
    assert data[end - 27] == t[5] == 0;
    assert data[end - 26] == t[6] == offsetSize && data[end - 25] == t[7] == nodeIndexSize;
    assert data[end - 24..end - 16] == t[8..16] == Zeros(4) + BeEncodeSigned(count, 4);
    assert data[end - 16..end - 8] == t[16..24] == Zeros(4) + BeEncodeSigned(top, 4);
    assert data[end - 8..] == t[24..] == Zeros(4) + BeEncodeSigned(tableOffset, 4);
    FieldReadsBack(count);
    FieldReadsBack(top);
    FieldReadsBack(tableOffset);
  }

  /** Every value fits `width` unsigned bytes and a C# `int`. */
  predicate FitsWidth(values: seq<int>, width: nat) {
    forall i :: 0 <= i < |values| ==> 0 <= values[i] < Pow256(width) && values[i] <= IntMax
  }

  /** `ReadNumber` undoes `FormatIdx` on the values that fit its width. */
  lemma FormatIdxReadsBack(v: int, width: int)
    requires width in {1, 2, 4} && 0 <= v < Pow256(width) && v <= IntMax
    ensures BinaryReader.ReadNumber(BinaryWriter.FormatIdx(v, width).value) == Ok(v)
  {
    ModInRange(v, Pow256(width));
  }

  /** Entry `j` of a formatted block, wherever the block sits in the stream. */
  lemma BlockEntry(prefix: seq<Byte>, values: seq<int>, width: int, suffix: seq<Byte>, j: nat)
    requires width in {1, 2, 4} && j < |values|
    ensures var data := prefix + BinaryWriter.FormatAll(values, width) + suffix;
      |prefix| + j * width + width <= |data| &&
      data[|prefix| + j * width..|prefix| + j * width + width] == BinaryWriter.FormatIdx(values[j], width).value
  {
    var block, x := BinaryWriter.FormatAll(values, width), BinaryWriter.FormatIdx(values[j], width).value;
    BinaryWriter.BlockWithin(width, j, |values|);
    BinaryWriter.FormatAllAt(values, width, j);
    SliceOfMiddle(prefix, block, suffix, j * width, x);
  }

  /** A run `x` inside the middle part `b` of `p + b + s` sits in the whole at `|p|` further on. */
  lemma SliceOfMiddle(p: seq<Byte>, b: seq<Byte>, s: seq<Byte>, lo: nat, x: seq<Byte>)
    requires lo + |x| <= |b| && b[lo..lo + |x|] == x
    ensures |p| + lo + |x| <= |p + b + s| && (p + b + s)[|p| + lo..|p| + lo + |x|] == x
  {
    var data := p + b + s;
    forall k | 0 <= k < |x|
      ensures data[|p| + lo + k] == x[k]
    {
      assert x[k] == b[lo + k];
    }
  }

  /**
   * The offset table the writer formats reads back, wherever it sits, as the
   * offsets it was formatted from.
   */
  lemma OffsetTableReadsBack(prefix: seq<Byte>, values: seq<int>, width: int, suffix: seq<Byte>)
    requires width in {1, 2, 4} && FitsWidth(values, width)
    ensures BinaryReader.OffsetTable(prefix + BinaryWriter.FormatAll(values, width) + suffix, |prefix|, width, |values|) == Ok(values)
  {
    var data := prefix + BinaryWriter.FormatAll(values, width) + suffix;
    forall i | 0 <= i < |values|
      ensures BinaryReader.OffsetEntry(data, |prefix|, width, i) == Ok(values[i])
    {
      OffsetEntryReadsBack(prefix, values, width, suffix, i);
    }
    var r := BinaryReader.OffsetTable(data, |prefix|, width, |values|);
    assert r.Ok? && |r.value| == |values|;
    assert r.value == values;
  }

  /** Entry `i` of a formatted offset table reads back as offset `i`. */
  lemma OffsetEntryReadsBack(prefix: seq<Byte>, values: seq<int>, width: int, suffix: seq<Byte>, i: nat)
    requires width in {1, 2, 4} && FitsWidth(values, width) && i < |values|
    ensures BinaryReader.OffsetEntry(prefix + BinaryWriter.FormatAll(values, width) + suffix, |prefix|, width, i) == Ok(values[i])
  {
    var data, x := prefix + BinaryWriter.FormatAll(values, width) + suffix, BinaryWriter.FormatIdx(values[i], width).value;
    BlockEntry(prefix, values, width, suffix, i);
    FormatIdxReadsBack(values[i], width);
    assert BinaryReader.OffsetEntry(data, |prefix|, width, i) == BinaryReader.ReadNumber(x);
  }

  /**
   * With one-byte offsets, reference `i` of an array block the writer
   * formatted with one-byte references reads back as the index written there.
   */
  lemma ArrayRefReadsBack(st: BinaryReader.ReaderState, values: seq<int>, i: nat)
    requires st.offsetIntSize == 1 && FitsWidth(values, 1) && i < |values|
    ensures BinaryReader.ArrayRef(st, BinaryWriter.FormatAll(values, 1), i) == Ok(values[i])
  {
    var block := BinaryWriter.FormatAll(values, 1);
    BinaryWriter.FormatAllAt(values, 1, i);
    assert block[i] == block[1 * i..1 * i + 1][0];
    assert Pow256(1) == 256;
    ModInRange(values[i], 256);
  }

  /**
   * When the offset width and the reference width agree, reference `i` of a
   * dictionary block the writer formatted reads back as the index written
   * there.
   */
  lemma NodeOffsetReadsBack(st: BinaryReader.ReaderState, values: seq<int>, width: int, i: nat)
    requires width in {1, 2, 4} && st.offsetIntSize == st.objectRefSize == width
    requires FitsWidth(values, width) && i < |values| && width * |values| <= IntMax
    ensures BinaryReader.GetNodeOffset(st, BinaryWriter.FormatAll(values, width), i) == Ok(values[i])
  {
    var block := BinaryWriter.FormatAll(values, width);
    BinaryWriter.FormatAllAt(values, width, i);
    BinaryWriter.BlockWithin(width, i, |values|);
    ModInRange(values[i], Pow256(width));
    if width == 1 {
      assert block[i] == block[1 * i..1 * i + 1][0];
    } else {
      assert Wrap32(width * i) == width * i;
    }
  }

  /**
   * With one-byte offsets, an array block the writer formatted with one-byte
   * references reads back as the array's items, given that each index written
   * there reads back as its item.
   */
  lemma ArrayBlockReadsBack(st: BinaryReader.ReaderState, pos: nat, indices: seq<int>, items: seq<Nodes.Node>, fuel: nat)
    requires st.offsetIntSize == 1 && FitsWidth(indices, 1) && |indices| == |items| <= IntMax
    requires pos + |items| <= |st.data| && st.data[pos..pos + |items|] == BinaryWriter.FormatAll(indices, 1)
    requires forall i :: 0 <= i < |items| ==> BinaryReader.NodeAt(st, indices[i], fuel) == Ok(items[i])
    ensures BinaryReader.ArrayAt(st, |items|, pos, fuel) == Ok(items)
  {
    var n := |items|;
    if n > 0 {
      var block := BinaryWriter.FormatAll(indices, 1);
      BlockSizeOf(st, n, 1);
      forall i | 0 <= i < n
        ensures BinaryReader.ArrayRef(st, block, i) == Ok(indices[i])
      {
        ArrayRefReadsBack(st, indices, i);
      }
      ArrayReadsItems(st, pos, block, indices, items, fuel);
    }
  }

  /** An array block whose references all read back reads back as the items they name. */
  lemma ArrayReadsItems(st: BinaryReader.ReaderState, pos: nat, block: seq<Byte>, indices: seq<int>, items: seq<Nodes.Node>, fuel: nat)
    requires 0 < |items| == |indices| && BinaryReader.BlockSize(st, |items|) == |block|
    requires pos + |block| <= |st.data| && st.data[pos..pos + |block|] == block
    requires forall i :: 0 <= i < |items| ==>
      BinaryReader.ArrayRef(st, block, i) == Ok(indices[i]) && BinaryReader.NodeAt(st, indices[i], fuel) == Ok(items[i])
    ensures BinaryReader.ArrayAt(st, |items|, pos, fuel) == Ok(items)
  {
    BinaryReader.ArrayAtReadsBlock(st, |items|, pos, fuel);
    BinaryReader.ArrayItemsReadBack(st, block, items, indices, |items|, fuel);
    PrefixAll(items);
  }

  /** With references of `width` bytes that fit an `int`, a block of `n` takes `width * n` bytes. */
  lemma BlockSizeOf(st: BinaryReader.ReaderState, n: nat, width: int)
    requires width in {1, 2, 4} && st.offsetIntSize == width && width * n <= IntMax
    ensures BinaryReader.BlockSize(st, n) == width * n
  {
  }

  /** A sequence is its own prefix of full length. */
  lemma PrefixAll<T>(s: seq<T>)
    ensures s[..|s|] == s
  {
  }

  /**
   * When the offset width and the reference width agree, the two blocks the
   * writer formatted for a dictionary with distinct keys read back as its
   * entries, given that each key index names a string node holding the key
   * and each value index reads back as the value.
   */
  lemma DictBlocksReadBack(st: BinaryReader.ReaderState, pos: nat, width: int, keyIdx: seq<int>, valueIdx: seq<int>,
    entries: seq<Nodes.Entry>, fuel: nat)
    requires width in {1, 2, 4} && st.offsetIntSize == st.objectRefSize == width
    requires FitsWidth(keyIdx, width) && FitsWidth(valueIdx, width)
    requires |keyIdx| == |valueIdx| == |entries| && width * |entries| <= IntMax && Nodes.DistinctKeys(entries)
    requires BlocksAt(st.data, pos, BinaryWriter.FormatAll(keyIdx, width), BinaryWriter.FormatAll(valueIdx, width))
    requires forall i :: 0 <= i < |entries| ==>
      BinaryReader.KeyText(BinaryReader.NodeAt(st, keyIdx[i], fuel)) == Some(entries[i].key) &&
      BinaryReader.NodeAt(st, valueIdx[i], fuel) == Ok(entries[i].value)
    ensures BinaryReader.DictAt(st, |entries|, pos, fuel) == Ok(entries)
  {
    if |entries| > 0 {
      BlockSizeOf(st, |entries|, width);
      EntriesReadAt(st, width, keyIdx, valueIdx, entries, fuel);
      DictReadsEntries(st, pos, BinaryWriter.FormatAll(keyIdx, width), BinaryWriter.FormatAll(valueIdx, width), entries, fuel);
    }
  }

  /** The key block `keys` starts at `pos` of `data`, and the value block `values` follows it. */
  predicate BlocksAt(data: seq<Byte>, pos: nat, keys: seq<Byte>, values: seq<Byte>) {
    pos + |keys| + |values| <= |data| && data[pos..pos + |keys|] == keys &&
    data[pos + |keys|..pos + |keys| + |values|] == values
  }

  /** Two dictionary blocks whose references all read back read back as the entries they name. */
  lemma DictReadsEntries(st: BinaryReader.ReaderState, pos: nat, keys: seq<Byte>, values: seq<Byte>,
    entries: seq<Nodes.Entry>, fuel: nat)
    requires 0 < |entries| && BinaryReader.BlockSize(st, |entries|) == |keys| == |values|
    requires BlocksAt(st.data, pos, keys, values)
    requires Nodes.DistinctKeys(entries)
    requires EntriesRead(st, keys, values, entries, fuel)
    ensures BinaryReader.DictAt(st, |entries|, pos, fuel) == Ok(entries)
  {
    var n := |entries|;
    assert BinaryReader.DictAt(st, n, pos, fuel) == BinaryReader.DictEntries(st, keys, values, n, fuel) by {
      BinaryReader.DictAtReadsBlocks(st, n, pos, fuel);
    }
    assert BinaryReader.DictEntries(st, keys, values, n, fuel) == Ok(entries) by {
      BinaryReader.DictEntriesReadBack(st, keys, values, entries, n, fuel);
      PrefixAll(entries);
    }
  }

  /** Every entry reads through its references in the two blocks. */
  predicate EntriesRead(st: BinaryReader.ReaderState, keys: seq<Byte>, values: seq<Byte>, entries: seq<Nodes.Entry>, fuel: nat) {
    forall i :: 0 <= i < |entries| ==> BinaryReader.EntryRead(st, keys, values, i, fuel, entries[i])
  }

  /** Entry `i` reads through reference `i` of both formatted blocks. */
  lemma EntriesReadAt(st: BinaryReader.ReaderState, width: int, keyIdx: seq<int>, valueIdx: seq<int>, entries: seq<Nodes.Entry>, fuel: nat)
    requires width in {1, 2, 4} && st.offsetIntSize == st.objectRefSize == width
    requires FitsWidth(keyIdx, width) && FitsWidth(valueIdx, width)
    requires |keyIdx| == |valueIdx| == |entries| && width * |entries| <= IntMax
    requires forall i :: 0 <= i < |entries| ==>
      BinaryReader.KeyText(BinaryReader.NodeAt(st, keyIdx[i], fuel)) == Some(entries[i].key) &&
      BinaryReader.NodeAt(st, valueIdx[i], fuel) == Ok(entries[i].value)
    ensures EntriesRead(st, BinaryWriter.FormatAll(keyIdx, width), BinaryWriter.FormatAll(valueIdx, width), entries, fuel)
  {
    var keys, values := BinaryWriter.FormatAll(keyIdx, width), BinaryWriter.FormatAll(valueIdx, width);
    forall i | 0 <= i < |entries|
      ensures BinaryReader.EntryRead(st, keys, values, i, fuel, entries[i])
    {
      NodeOffsetReadsBack(st, keyIdx, width, i);
      NodeOffsetReadsBack(st, valueIdx, width, i);
    }
  }

  /**
   * The widths disagreeing: a two-item array written with one-byte
   * references, [1, 2], in a file whose offset table needs two-byte entries.
   * The reader takes a block of four bytes, the two references and the two
   * bytes `x`, `y` that follow them in the file, and reads it as the 16-bit
   * references 0x0102 = 258 and `x`, `y` taken as a signed 16-bit number.
   */
  lemma ArrayRefWidthMismatch(st: BinaryReader.ReaderState, x: Byte, y: Byte)
    requires st.offsetIntSize == 2
    ensures BinaryReader.BlockSize(st, 2) == 4
    ensures BinaryReader.ArrayRef(st, BinaryWriter.FormatAll([1, 2], 1) + [x, y], 0) == Ok(258)
    ensures BinaryReader.ArrayRef(st, BinaryWriter.FormatAll([1, 2], 1) + [x, y], 1) == Ok(BeSigned([x, y]))
  {
    var block := BinaryWriter.FormatAll([1, 2], 1) + [x, y];
    assert [1, 2][..1] == [1];
    assert BinaryWriter.FormatAll([1], 1) == [1] by {
      assert [1][..0] == [];
    }
    assert block == [1, 2, x, y];
    assert block[0..2] == [1, 2];
    assert block[2..4] == [x, y];
    assert BeValue([1, 2]) == 258 by {
      assert [1, 2][..1] == [1];
      assert [1][..0] == [];
    }
    assert Pow256(2) == 0x1_0000;
  }
}
