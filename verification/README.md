# PList-Net binary property lists, modelled in Dafny

This project models the core of PList-Net, a .NET library that reads and
writes Apple property lists. The centre of the model is the binary
`bplist00` codec:

- **Reader (`BinaryFormatReader`):**
  - checks the header;
  - decodes the 32-byte trailer;
  - reads the offset table;
  - decodes objects recursively by index. Each object is a marker byte (type tag and length nibbles) plus an optional extended length, then a payload or blocks of object references.
- **Writer (`BinaryFormatWriter`):**
  - counts the nodes;
  - picks the reference width;
  - writes each node depth-first, sharing equal atoms through the `_uniqueElements` map;
  - reserves reference blocks for arrays and dictionaries and patches them afterwards;
  - ends with the offset table and the trailer.

Around the codec are:

- the node variants and their per-variant binary codecs;
- `PNode<T>` value equality, which drives sharing;
- the `NodeFactory` registry;
- the `ArrayNode` and `DictionaryNode` collections;
- `EndianConverter`;
- the `PList` facade: format detection, `Load`/`Save` dispatch and the XML boolean line fix-up.

Modules and files:

- `wrappers.dfy` (`Wrappers`): `Option`, `Result` and the library's error conditions.
- `bytes.dfy` (`Bytes`): bytes, big-endian values, two's complement, the C# `(int)` cast and `1 << n`, stream reads.
- `endian_converter.dfy` (`Endian`): the byte swaps and host/network conversions, on bit-vectors.
- `integer_node.dfy`, `uid_node.dfy`, `boolean_node.dfy`, `null_node.dfy`, `fill_node.dfy`, `data_node.dfy`, `real_node.dfy`, `date_node.dfy`, `string_node.dfy`: each variant's tags, length and binary codec.
- `ieee754.dfy` (`Ieee754`): single and double bit patterns, their values, and the exact widening of a single to a double.
- `nodes.dfy` (`Nodes`): the node tree as a datatype, the `PNode` dispatch, value equality and hashing.
- `node_factory.dfy` (`NodeFactory`): the registry as a class filled by the static constructor's calls, and the frozen lookups `Create`, `CreateFromXml`, `CreateLengthElement`, `CreateKeyElement`.
- `binary_reader.dfy` (`BinaryReader`):
  - the reader as specification functions over the byte sequence;
  - the reader's methods (including the offset-table loop and the array and dictionary loops), each proved equal to its function.
- `binary_writer.dfy` (`BinaryWriter`):
  - the writer state and the writing functions;
  - the `BinaryFormatWriter` class, whose `Write`, `WriteInternal`, offset-table loop and trailer are proved to produce them.
- `writer_properties.dfy` (`WriterProperties`), `writer_count.dfy` (`WriterCount`): what the writer guarantees about its state, its indices and its counts.
- `read_back.dfy` (`ReadBack`): what the reader makes of what the writer writes.
- `file_read_back.dfy` (`FileReadBack`): what the reader makes of the trailer, the offset table and the reference blocks the writer lays down around the objects.
- `array_node.dfy` (`ArrayNodes`), `dictionary_node.dfy` (`DictionaryNodes`): the two collection classes.
- `plist.dfy` (`PList`): the facade.

Streams are byte sequences: a read position is an index, and a short read is an error result.

Behaviour modelled as the code has it, not as one might expect:

- **The reader mixes up the two trailer widths.**
  - Array references are one byte, or a signed 16-bit value at byte `2i`, chosen by the offset width.
  - Dictionary references switch on the reference width but are located with the offset width.
  - Both blocks are `length * offsetIntSize` bytes, wrapped to 32 bits.
- **`ReadNumber` casts with `(int)`.** A 4- or 8-byte unsigned value is cast to `int` and can turn negative.
- **Any tag can carry an extended length.** A low nibble of 0xF starts an extended length for every tag.
- **A repeated boolean leaves an orphan copy.** It reuses the first index but still adds an offset and a marker byte.
- **A negative reference overflows.** A negative 16-bit array reference becomes an unsigned index of at least 2^63, which the array index rejects with an overflow, not an out-of-range error.
- **Four-byte reals and dates become doubles.** The single read is widened to a double of the same value, and the writer always writes eight bytes.
- **Tag 8 (UID) is never registered**, so the reader rejects a UID the writer wrote.
- **The trailer fields differ in width.** The writer stores 32-bit values in the low halves of the 64-bit fields, which the reader reads whole.

Where the library's own description and its code differ, the model follows the code:

- A UID cannot be read back.
  - One test expects `1` from a stored UID (`PListNet/Tests/BinaryReaderTests.cs:73-76`).
  - The factory in `PList/Internal/NodeFactory.cs` has no entry for tag 8, so the reader stops with an unknown-tag error (`ReadBack.UidNotReadBack`).
- A UID node uses the signed integer codec it inherits, not an unsigned one.
- A UID node's XML methods fail; there is no `CF$UID` dictionary form.
- Data nodes are never shared, because `byte[]` equality compares references.

## Model

| member | source | states |
|---|---|---|
| Bytes.Wrap32IsSigned | PListNet/Internal/BinaryFormatReader.cs:125-129 | the `(int)` cast of an unsigned value is the two's-complement reading of its low 32 bits |
| Bytes.BeSignedRoundTrip | PListNet/Nodes/IntegerNode.cs:102-110 | signed big-endian decoding inverts signed big-endian encoding at every width, for every value in that width's range |
| Bytes.OneShiftedLeft | PListNet/Nodes/IntegerNode.cs:91 | `1 << n` on an `int`: 2^n for n in 0..30, and negative exactly when n mod 32 is 31 |
| Bytes.Take | PListNet/Nodes/DataNode.cs:69-73 | a read of n bytes succeeds exactly when n bytes are left (or n is 0), and returns those bytes in order |
| Endian.SwapShort | PListNet/Internal/EndianConverter.cs:37-40 | the two bytes of the result are those of the argument, exchanged |
| Endian.SwapInt | PListNet/Internal/EndianConverter.cs:42-48 | byte k of the result is byte 3-k of the argument |
| Endian.SwapLong | PListNet/Internal/EndianConverter.cs:50-60 | byte k of the result is byte 7-k of the argument |
| Endian.SwapInvolution | PListNet/Internal/EndianConverter.cs:37-60 | each swap undoes itself |
| Endian.BigEndianHostIsIdentity | PListNet/Internal/EndianConverter.cs:7-35 | on a big-endian host all six conversions return their argument |
| Endian.NetworkRoundTrip | PListNet/Internal/EndianConverter.cs:7-35 | on either host, host-to-network and network-to-host order are mutual inverses at every width |
| Endian.GetBytesOfNetworkOrder | PListNet/Internal/EndianConverter.cs:22-30 | on either host, the memory bytes of a value converted to network order are its big-endian bytes |
| IntegerNode.BinaryLength | PListNet/Nodes/IntegerNode.cs:30-40 | the width code is 0..3 (never -1 for a long) and the value fits the width it names (unsigned byte, then signed 16, 32, 64 bits) |
| IntegerNode.BinaryLengthIsLeast | PListNet/Nodes/IntegerNode.cs:30-40 | no smaller width code fits the value, so the chosen width is the least |
| IntegerNode.WidthExamples | PListNet/Nodes/IntegerNode.cs:34-37 | 255 gets code 0; 256, -1 and 32767 get code 1; 32768 and -2^31 get code 2; 2^31 gets code 3 |
| IntegerNode.WriteBinary | PListNet/Nodes/IntegerNode.cs:119-141 | exactly 2^code bytes are written |
| IntegerNode.ReadBinary | PListNet/Nodes/IntegerNode.cs:89-113 | succeeds exactly when the code is 0..3 and 2^code bytes are left; the value is then the unsigned byte for code 0 and the signed big-endian value of the 2, 4 or 8 bytes for codes 1-3, and it fits that width |
| IntegerNode.WideRoundTrip | PListNet/Nodes/IntegerNode.cs:98-110 | a value written in two's complement over the bytes of any code 1-3 it fits, not only the least one (-1 in eight bytes, say), reads back as itself |
| IntegerNode.RoundTrip | PListNet/Nodes/IntegerNode.cs:89-141 | reading the bytes written for any long, with its width code, gives the long back, whatever surrounds them |
| UidNode.Parse | PListNet/Nodes/UidNode.cs:14-17 | parsing a UID from XML always fails |
| UidNode.ToXmlString | PListNet/Nodes/UidNode.cs:19-22 | formatting a UID for XML always fails |
| BooleanNode.ReadBinary | PListNet/Nodes/BooleanNode.cs:93-101 | accepts exactly the lengths 8 and 9 |
| BooleanNode.WriteBinary | PListNet/Nodes/BooleanNode.cs:106-108 | writes no payload |
| BooleanNode.BinaryRoundTrip | PListNet/Nodes/BooleanNode.cs:24 | the length nibble alone carries the value: reading a boolean's length gives it back, and true and false have different lengths |
| BooleanNode.Parse | PListNet/Nodes/BooleanNode.cs:74-77 | the value is true exactly for the text `true` |
| BooleanNode.ToXmlString | PListNet/Nodes/BooleanNode.cs:85-88 | the text is `true` or `false` |
| BooleanNode.XmlRoundTrip | PListNet/Nodes/BooleanNode.cs:54-88 | parsing the text of a value gives the value back; the element name is that text, not the tag `boolean` |
| NullNode.ReadBinary | PListNet/Nodes/NullNode.cs:36-42 | accepts exactly the length 0 |
| FillNode.ReadBinary | PList/Nodes/FillNode.cs:39-42 | accepts exactly the length 0xF |
| DataNode.BinaryLength | PListNet/Nodes/DataNode.cs:26 | the length is the payload's byte count |
| DataNode.ReadBinary | PListNet/Nodes/DataNode.cs:67-74 | succeeds exactly when the length is not negative and that many bytes are left, and returns that many bytes |
| DataNode.RoundTrip | PListNet/Nodes/DataNode.cs:67-82 | reading the payload written for any bytes, with their count, gives them back |
| RealNode.ReadBinary | PListNet/Nodes/RealNode.cs:65-88 | succeeds exactly for codes 2 and 3 with 4 or 8 bytes left; the result is always the 8 bytes of a double: the bytes read for code 3, and for code 2 a double of the same value as the single read |
| RealNode.RoundTrip | PListNet/Nodes/RealNode.cs:65-97 | the 8 bytes written for a double read back unchanged with the fixed code 3 |
| DateNode.ReadBinary | PListNet/Nodes/DateNode.cs:67-93 | succeeds exactly for codes 2 and 3 with 4 or 8 bytes left; the seconds count is always the 8 bytes of a double: the bytes read for code 3, and for code 2 a double of the same value as the single read |
| Ieee754.Widen | PListNet/Nodes/RealNode.cs:79-81 | a single's 4 bytes become the 8 bytes of a double |
| Ieee754.WidenKeepsValue | PListNet/Nodes/RealNode.cs:79-81 | the 8 bytes `Widen` gives for the 4 bytes of a single stand for the same value, with the same sign |
| Ieee754.DoubleBytesValue | PListNet/Nodes/RealNode.cs:79-81 | the 8 bytes of a double are its bit pattern in big-endian order, and they read back as it |
| RealNode.ReadsSingleAsDouble | PListNet/Nodes/RealNode.cs:79-81 | a real read from 4 bytes is a double of the same value as the single those bytes hold |
| DateNode.ReadsSingleAsDouble | PListNet/Nodes/DateNode.cs:82-84 | a date's seconds count read from 4 bytes is a double of the same value as the single those bytes hold |
| Ieee754.WidenIsExact | PListNet/Nodes/RealNode.cs:79-81 | widening a single to a double keeps its sign and its value: a NaN stays a NaN, an infinity the same infinity, a number the same number |
| Ieee754.NormalWidens | PListNet/Nodes/RealNode.cs:79-81 | a normal single is the double with the exponent rebiased by 896 and the fraction moved up 29 bits |
| Ieee754.SubnormalWidens | PListNet/Nodes/DateNode.cs:82-84 | a subnormal single, whose value a double's normal range covers, becomes the normal double of the same value |
| Ieee754.NormShift | PListNet/Nodes/DateNode.cs:82-84 | the shift that normalises a subnormal fraction is 1..23 and puts its leading one at bit 23 |
| Ieee754.WidenExamples | PListNet/Nodes/RealNode.cs:79-81 | 1.0, -2.5, 2^-127 and negative infinity widen to their double bit patterns |
| StringNode.ReadBinary | PListNet/Internal/BinaryFormatReader.cs:177 | under the assumed string codec: succeeds exactly when the length is not negative and its characters are there; code unit i is the big-endian byte pair i of a UTF-16 node, or byte i of an ASCII node with non-ASCII bytes read as `?` |
| DateNode.RoundTrip | PListNet/Nodes/DateNode.cs:67-107 | the 8 bytes written for a date read back unchanged with the fixed code 3 |
| Nodes.BinaryTag | PListNet/PNode.cs:22 | every node's tag fits the marker's high nibble |
| Nodes.WriteBinary | PListNet/Nodes/ArrayNode.cs:41-49 | every atom writes its payload; arrays and dictionaries refuse, since only the writer lays them out |
| Nodes.EqualsConsistent | PListNet/PNode.cs:95-119 | equality is symmetric, and equal nodes have equal hash codes |
| Nodes.IntegerEqualsUid | PListNet/PNode.cs:95-98 | an integer node equals a UID node with the same value although their tags differ |
| Nodes.NoValueNoEquality | PListNet/PNode.cs:95-110 | nodes without a compared value (data, null, fill, array, dictionary) are equal to nothing |
| Nodes.UniqueKeyDeterminesNode | PListNet/Internal/BinaryFormatWriter.cs:98-101 | within one tag, equal values mean equal nodes, so the sharing map never replaces a node by a different one |
| NodeFactory.KindOf | PList/Internal/NodeFactory.cs:68-81 | the class the factory creates for a node has the node's binary tag and XML tag |
| NodeFactory.Registry.constructor | PList/Internal/NodeFactory.cs:19-34 | after the static constructor the two registries are exactly the XML-name and binary-tag tables |
| NodeFactory.Registry.RegisterNodes | PList/Internal/NodeFactory.cs:21-27 | the seven node registrations fill both tables under each class's own XML and binary tags |
| NodeFactory.Registry.RegisterMoreNodes | PList/Internal/NodeFactory.cs:25-27 | the array, data and date registrations add their entries to the first four |
| NodeFactory.Registry.RegisterNames | PList/Internal/NodeFactory.cs:29-33 | the named registrations add `ustring`, tag 6, `true`, `false` and tag 0, and leave `string` and tag 5 as they were |
| NodeFactory.Registry.RegisterNode | PList/Internal/NodeFactory.cs:41-45 | a registration adds the class under its tags only where no entry exists: the first registration wins |
| NodeFactory.Registry.Register | PList/Internal/NodeFactory.cs:54-58 | the same first-wins rule for explicitly named tags |
| NodeFactory.Create | PList/Internal/NodeFactory.cs:68-81 | tag 0 with length 0 is null and with 0xF is fill, before the registry; tag 6 is a UTF-16 string; otherwise it succeeds exactly for a registered tag, with a class of that tag |
| NodeFactory.CreateFromXml | PList/Internal/NodeFactory.cs:88-96 | succeeds exactly for a registered name, with the class registered under it |
| NodeFactory.CreateLengthElement | PList/Internal/NodeFactory.cs:103-106 | an integer node holding the length |
| NodeFactory.CreateKeyElement | PList/Internal/NodeFactory.cs:113-116 | an ASCII string node holding the key, whose length is the key's length |
| NodeFactory.CreateRecognisesWrittenNodes | PList/Internal/NodeFactory.cs:68-81 | every node but a UID is recreated from its own tag and length as its own class |
| NodeFactory.UidIsUnregistered | PList/Internal/NodeFactory.cs:21-33 | the tag and length of a UID node are rejected |
| NodeFactory.RegisteredBinaryTags | PList/Internal/NodeFactory.cs:21-33 | the registered binary tags are exactly 0, 1, 2, 3, 4, 5, 6, 0xA and 0xD |
| NodeFactory.XmlNames | PList/Internal/NodeFactory.cs:29-33 | `true` and `false` give booleans and `string` and `ustring` give strings; `boolean`, `null`, `fill` and `uid` are unknown |
| BinaryReader.ValidatePListFileHeader | PListNet/Internal/BinaryFormatReader.cs:39-51 | succeeds exactly when 8 bytes are present and the first six are `bplist`; bytes 7 and 8 are not checked |
| BinaryReader.ReadTrailer | PListNet/Internal/BinaryFormatReader.cs:53-77 | succeeds exactly when the data holds 32 bytes; the sort version and the two widths are bytes 5, 6 and 7 of the last 32, and the object count, top object and table offset are the three 64-bit big-endian values after them |
| BinaryReader.ReadNumber | PListNet/Internal/BinaryFormatReader.cs:115-134 | accepts exactly the widths 1, 2, 4 and 8; 1 and 2 bytes read as their unsigned value, 4 and 8 bytes as the `(int)` cast of it, which is the value itself when it fits an `int` |
| BinaryReader.OffsetTable | PListNet/Internal/BinaryFormatReader.cs:100-110 | succeeds exactly when each of the `count` entries can be read, and then holds `count` entries, entry i being the one `OffsetEntry` reads |
| BinaryReader.OffsetEntry | PListNet/Internal/BinaryFormatReader.cs:104-109 | entry i can be read exactly when the width is 1, 2, 4 or 8 and its bytes lie in the data, and it is `ReadNumber` of the `size` bytes at `start + i * size` |
| BinaryReader.NodeOffsets | PListNet/Internal/BinaryFormatReader.cs:85-113 | more than `int.MaxValue` objects is the too-many-entries error; otherwise it succeeds exactly when every entry of the table at the trailer's offset can be read, with one entry per object, entry i read from the table with the offset width |
| BinaryReader.OffsetTableErrPersists | PListNet/Internal/BinaryFormatReader.cs:102-110 | the first entry that cannot be read decides the error, whatever follows it |
| BinaryReader.ReadNodeOffsets | PListNet/Internal/BinaryFormatReader.cs:85-113 | the method computes the offset table `NodeOffsets` describes, entry by entry |
| BinaryReader.ReadOffsetTable | PListNet/Internal/BinaryFormatReader.cs:98-110 | the loop fills entry i with the number `OffsetEntry` reads at i, failing at the first entry that cannot be read |
| BinaryReader.ReadOffset | PListNet/Internal/BinaryFormatReader.cs:104-109 | one loop step reads entry i as `OffsetEntry` describes: the `size` bytes at `start + i * size`, read by `ReadNumber` |
| BinaryReader.GetObjectLengthAndTag | PListNet/Internal/BinaryFormatReader.cs:183-226 | the tag is the marker's high nibble; a low nibble other than 0xF is the length and the object continues at the next byte; the object always continues within the data |
| BinaryReader.ReadAtom | PListNet/Internal/BinaryFormatReader.cs:160-180 | a node read by its class's own reader is an atom of that class |
| BinaryReader.NodeAt | PListNet/Internal/BinaryFormatReader.cs:142-146 | an index that is negative or at least 2^63, which the unsigned index cannot stand for as an array index, is the overflow error; any other index outside the offset table is the out-of-range error; an object read by index has a non-negative offset and fuel left |
| BinaryReader.NodeAtSeeks | PListNet/Internal/BinaryFormatReader.cs:142-146 | an object read by index is the object at that index's offset |
| BinaryReader.ObjectAt | PListNet/Internal/BinaryFormatReader.cs:153-181 | an object read at a position has a marker there whose tag and length the factory maps to the node's own class; a UID is never read |
| BinaryReader.ObjectAtArray | PListNet/Internal/BinaryFormatReader.cs:162-169 | an array read at a position has the array tag, and its items are the ones `ArrayAt` reads from the block after the marker |
| BinaryReader.ObjectAtDict | PListNet/Internal/BinaryFormatReader.cs:171-176 | a dictionary read at a position has the dictionary tag, and its entries are the ones `DictAt` reads from the blocks after the marker |
| BinaryReader.ArrayAt | PListNet/Internal/BinaryFormatReader.cs:228-243 | a successful array has exactly `length` items (none for a length that is not positive); for a positive length its block is the `length * OffsetIntSize` bytes at `pos`, which lie in the data, and the items are those its references name |
| BinaryReader.ArrayRef | PListNet/Internal/BinaryFormatReader.cs:238-240 | with an offset width of 1, reference i is byte i, read exactly when i is inside the block; otherwise it is the signed big-endian 16-bit value at byte `2i` (a 32-bit product), read exactly when both bytes are inside the block |
| BinaryReader.ArrayItems | PListNet/Internal/BinaryFormatReader.cs:236-242 | after k steps a successful read has k items, and item i is the node at the index that reference i holds |
| BinaryReader.ArrayItemsReadAll | PListNet/Internal/BinaryFormatReader.cs:236-242 | if each of the first k references can be read and names a node that reads, the k steps succeed |
| BinaryReader.ArrayAtReadsBlock | PListNet/Internal/BinaryFormatReader.cs:228-243 | an array whose block lies in the data reads its items from the `length * OffsetIntSize` bytes at `pos` |
| BinaryReader.ArrayItemsReadBack | PListNet/Internal/BinaryFormatReader.cs:236-242 | when reference i reads as index i and each index names a node that reads back as item i, the first k steps give exactly the first k items |
| BinaryReader.ArrayItemsErrPersists | PListNet/Internal/BinaryFormatReader.cs:236-242 | the first item that fails decides the error of the whole array |
| BinaryReader.GetNodeOffset | PListNet/Internal/BinaryFormatReader.cs:278-296 | a 1-byte reference is byte `index` of the block; a 2-, 4- or 8-byte reference is the unsigned big-endian value at `OffsetIntSize * index` (a 32-bit product), read exactly when it lies inside the block; any other width fails |
| BinaryReader.Field | PListNet/Internal/BinaryFormatReader.cs:286-292 | a field of a reference block can be read exactly when it lies inside the block, and it is read big-endian |
| BinaryReader.DictAt | PListNet/Internal/BinaryFormatReader.cs:245-276 | a successful dictionary has exactly `length` entries (none for a length that is not positive), with distinct keys |
| BinaryReader.DictAtBlocks | PListNet/Internal/BinaryFormatReader.cs:245-258 | a dictionary that reads has its key block at `pos` and its value block right after it, each `length * OffsetIntSize` bytes, and its entries are the ones read from those blocks |
| BinaryReader.DictEntries | PListNet/Internal/BinaryFormatReader.cs:260-275 | after k steps a successful read has k entries with distinct keys |
| BinaryReader.NextEntry | PListNet/Internal/BinaryFormatReader.cs:262-274 | one step succeeds only when the key reference names a string node whose text is not yet a key and the value reference names a node that reads; the entry is then appended |
| BinaryReader.DictEntriesRead | PListNet/Internal/BinaryFormatReader.cs:260-275 | entry i of a dictionary that reads has as key the text of the string node that key reference i names, and as value the node that value reference i names |
| BinaryReader.DictEntriesSnoc | PListNet/Internal/BinaryFormatReader.cs:260-275 | step k + 1 keeps the first k entries and adds entry k as read through reference k of each block |
| BinaryReader.NextEntryKeyNotString | PListNet/Internal/BinaryFormatReader.cs:262-269 | a key reference naming a node that reads but is not a string stops the step with the key-is-not-a-string error |
| BinaryReader.NextEntryDuplicateKey | PListNet/Internal/BinaryFormatReader.cs:271-274 | a string key already present stops the step with the duplicate-key error that `Add` raises |
| BinaryReader.DictAtReadsBlocks | PListNet/Internal/BinaryFormatReader.cs:245-276 | a dictionary whose two blocks lie in the data reads its entries from the key block at `pos` and the value block right after it |
| BinaryReader.DictEntriesReadBack | PListNet/Internal/BinaryFormatReader.cs:260-275 | when each entry, with distinct keys, is what key and value reference i read to, the first k steps give exactly the first k entries |
| BinaryReader.DictEntriesKeyNotString | PListNet/Internal/BinaryFormatReader.cs:260-269 | a non-string key after entries that read makes the whole dictionary fail with the key-is-not-a-string error |
| BinaryReader.DictEntriesDuplicateKey | PListNet/Internal/BinaryFormatReader.cs:260-274 | a repeated key after entries that read makes the whole dictionary fail with the duplicate-key error |
| BinaryReader.DictEntriesFailsAt | PListNet/Internal/BinaryFormatReader.cs:260-275 | the first step that fails decides the result of the whole dictionary |
| BinaryReader.DictEntriesErrPersists | PListNet/Internal/BinaryFormatReader.cs:260-275 | the first entry that fails decides the error of the whole dictionary |
| BinaryReader.Decode | PListNet/Internal/BinaryFormatReader.cs:20-37 | a file decodes only when it has the `bplist` magic and a trailer, its offset table reads and the top index is below the object count; the root is then the object at the top index. Conversely, a file with the magic and a trailer fails with the offset table's error when the table does not read, and otherwise its result is whatever reading the top index gives |
| BinaryReader.Read | PListNet/Internal/BinaryFormatReader.cs:20-37 | header, trailer, offset table, then the top object, as `Decode` specifies: a decoded file has the magic and a trailer, its offset table reads, the top index is below the object count, and the result is the object at that index |
| BinaryReader.ReadInternalAt | PListNet/Internal/BinaryFormatReader.cs:142-146 | reading by index is `NodeAt`: an index past 2^63 - 1 (or negative) overflows, a missing index is an out-of-range error, and an object read by index lies at that index's offset |
| BinaryReader.ReadInternal | PListNet/Internal/BinaryFormatReader.cs:153-181 | reading at a position is `ObjectAt`: the marker's tag and length name a registered class, which is the class of the node read |
| BinaryReader.ReadInArray | PListNet/Internal/BinaryFormatReader.cs:228-243 | the method reads the reference block and the items as `ArrayAt` describes |
| BinaryReader.ReadItems | PListNet/Internal/BinaryFormatReader.cs:236-242 | the loop appends the items one reference at a time as `ArrayItems` describes: item i is the node reference i names |
| BinaryReader.ReadItem | PListNet/Internal/BinaryFormatReader.cs:238-241 | one loop step resolves reference i and appends the node it names, as step i + 1 of `ArrayItems` |
| BinaryReader.ReadInDictionary | PListNet/Internal/BinaryFormatReader.cs:245-276 | the method reads both blocks and the entries as `DictAt` describes |
| BinaryReader.ReadEntries | PListNet/Internal/BinaryFormatReader.cs:260-275 | the loop adds the entries one at a time as `DictEntries` describes: distinct keys, key i the text of the string node key reference i names, value i the node value reference i names |
| BinaryReader.ReadEntry | PListNet/Internal/BinaryFormatReader.cs:262-274 | one loop step reads the key (which must be a string not yet used), then the value, and adds the entry, as step i + 1 of `DictEntries` |
| BinaryWriter.WidthFor | PListNet/Internal/BinaryFormatWriter.cs:42-45 | the width is 1, 2 or 4; it is 1 exactly up to 255 and 4 exactly beyond 32767 |
| BinaryWriter.GetNodeCount | PListNet/Internal/BinaryFormatWriter.cs:184-215 | every node counts at least one |
| BinaryWriter.ItemCountBound | PListNet/Internal/BinaryFormatWriter.cs:192-196 | each child's count is at most the sum over the children |
| BinaryWriter.ValueCountBound | PListNet/Internal/BinaryFormatWriter.cs:204-208 | each value's count is at most the sum over the values |
| BinaryWriter.FormatIdx | PListNet/Internal/BinaryFormatWriter.cs:223-236 | succeeds exactly for the widths 1, 2 and 4; the bytes are the index modulo 256^width, big-endian |
| BinaryWriter.FormatAll | PListNet/Internal/BinaryFormatWriter.cs:58-74 | a block of references holds `width` bytes per index |
| BinaryWriter.FormatAllAppend | PListNet/Internal/BinaryFormatWriter.cs:58-74 | appending an index appends its formatted bytes |
| BinaryWriter.FormatAllAt | PListNet/Internal/BinaryFormatWriter.cs:146-150 | bytes `width * j` to `width * j + width` of a formatted block are index j formatted |
| BinaryWriter.Marker | PListNet/Internal/BinaryFormatWriter.cs:109-120 | the first byte's high nibble is the tag; a length under 15 is the single byte `tag << 4 \| len`, otherwise the low nibble is 0xF |
| BinaryWriter.ExtendedLength | PListNet/Internal/BinaryFormatWriter.cs:114-120 | the extended length is the marker of an integer node (tag 1) followed by its 1, 2 or 4 bytes |
| BinaryWriter.Patch | PListNet/Internal/BinaryFormatWriter.cs:151-153 | patching keeps the stream's length and puts the bytes at the given position |
| BinaryWriter.AtomWrite | PListNet/Internal/BinaryFormatWriter.cs:95-138 | writing an atom never shortens the stream |
| BinaryWriter.NodeWrite | PListNet/Internal/BinaryFormatWriter.cs:95-138 | writing a node never shortens the stream |
| BinaryWriter.ArrayWrite | PListNet/Internal/BinaryFormatWriter.cs:140-155 | writing an array never shortens the stream (where its block goes: `WriterProperties.ArrayWriteBlock`) |
| BinaryWriter.ItemsWrite | PListNet/Internal/BinaryFormatWriter.cs:146-150 | after k children there are k indices, in order |
| BinaryWriter.DictWrite | PListNet/Internal/BinaryFormatWriter.cs:157-182 | writing a dictionary never shortens the stream (where its blocks go: `WriterProperties.DictWriteBlocks`) |
| BinaryWriter.PatchBlocks | PListNet/Internal/BinaryFormatWriter.cs:177-180 | filling in both blocks never changes the stream's length |
| BinaryWriter.KeysWrite | PListNet/Internal/BinaryFormatWriter.cs:167-171 | after k keys there are k indices, in order |
| BinaryWriter.ValuesWrite | PListNet/Internal/BinaryFormatWriter.cs:172-176 | after k values there are k indices, in order |
| BinaryWriter.TrailerBytes | PListNet/Internal/BinaryFormatWriter.cs:76-84 | the trailer is 32 bytes |
| BinaryWriter.TrailerLayout | PListNet/Internal/BinaryFormatWriter.cs:76-84 | the three 32-bit copies into a zeroed array holding the two widths give exactly the trailer layout |
| BinaryWriter.CopyTo | PListNet/Internal/BinaryFormatWriter.cs:80-82 | copying into an array overwrites exactly the target range |
| BinaryWriter.BinaryFormatWriter.constructor | PListNet/Internal/BinaryFormatWriter.cs:21-28 | a new writer has an empty stream, offset list and sharing map |
| BinaryWriter.BinaryFormatWriter.Write | PListNet/Internal/BinaryFormatWriter.cs:35-85 | header, the root's objects with the counted reference width, the offset table with its own width, then the trailer with the offset count after writing and the root's index |
| BinaryWriter.BinaryFormatWriter.WriteOffsetTable | PListNet/Internal/BinaryFormatWriter.cs:58-74 | the loop appends one entry per recorded offset, in recording order, and changes nothing else |
| BinaryWriter.BinaryFormatWriter.WriteTrailer | PListNet/Internal/BinaryFormatWriter.cs:76-84 | appends the trailer and changes nothing else |
| BinaryWriter.BinaryFormatWriter.WriteInternal | PListNet/Internal/BinaryFormatWriter.cs:95-138 | sharing, the offset, the marker, then the payload or the container's blocks, returning the index the node is referenced by |
| BinaryWriter.BinaryFormatWriter.WriteMarker | PListNet/Internal/BinaryFormatWriter.cs:109-120 | appends the marker and changes nothing else |
| BinaryWriter.BinaryFormatWriter.WriteExtendedLength | PListNet/Internal/BinaryFormatWriter.cs:114-120 | appends the extended length and changes nothing else |
| WriterProperties.StreamGrows | PListNet/Internal/BinaryFormatWriter.cs:148-153 | growing or patching beyond what a state wrote keeps that state's bytes |
| WriterProperties.PatchKeepsOthers | PListNet/Internal/BinaryFormatWriter.cs:151-153 | patching at a position leaves every byte before it and every byte after the patched range alone |
| WriterProperties.EnterSound | PListNet/Internal/BinaryFormatWriter.cs:98-120 | entering a node adds one offset for it and keeps the earlier bytes, offsets and sharing entries |
| WriterProperties.ReusedSound | PListNet/Internal/BinaryFormatWriter.cs:104-105 | the index the sharing map returns holds a node equal to the one being written |
| WriterProperties.AtomWriteSound | PListNet/Internal/BinaryFormatWriter.cs:95-138 | writing an atom keeps the state valid and returns an index that holds the atom |
| WriterProperties.NodeWriteSound | PListNet/Internal/BinaryFormatWriter.cs:95-182 | writing any node only extends the state, keeps it valid and returns an index that holds the node |
| WriterProperties.ArrayWriteSound | PListNet/Internal/BinaryFormatWriter.cs:140-155 | writing an array's children and patching its block only extends the state |
| WriterProperties.DictWriteSound | PListNet/Internal/BinaryFormatWriter.cs:157-182 | writing a dictionary's keys and values and patching its blocks only extends the state |
| WriterProperties.ArrayWriteBlock | PListNet/Internal/BinaryFormatWriter.cs:140-155 | after an array, the bytes written before it are unchanged, its block comes right after them and holds its children's indices formatted in order, and reference j names child j |
| WriterProperties.DictWriteBlocks | PListNet/Internal/BinaryFormatWriter.cs:157-182 | after a dictionary, the bytes written before it are unchanged and its key block and then its value block follow them, holding the indices its keys and values were written at |
| WriterProperties.DictWriteRefs | PListNet/Internal/BinaryFormatWriter.cs:167-176 | key reference j names the string node of key j and value reference j names value j |
| WriterProperties.DictWriteStream | PListNet/Internal/BinaryFormatWriter.cs:177-180 | the dictionary's stream is its children's stream with both blocks filled in |
| WriterProperties.DictChildrenKeepPrefix | PListNet/Internal/BinaryFormatWriter.cs:160-176 | writing the keys and values after the two reserved blocks keeps the bytes before the dictionary |
| WriterProperties.ItemsWriteRefers | PListNet/Internal/BinaryFormatWriter.cs:146-150 | the j-th index written into an array's block refers to the j-th child |
| WriterProperties.KeysWriteRefers | PListNet/Internal/BinaryFormatWriter.cs:167-171 | the j-th key index refers to the string node of the j-th key |
| WriterProperties.ValuesWriteRefers | PListNet/Internal/BinaryFormatWriter.cs:172-176 | the j-th value index refers to the j-th value |
| WriterProperties.NodeWriteIdx | PListNet/Internal/BinaryFormatWriter.cs:97-110 | a node's returned index holds the node, and earlier objects stay |
| WriterProperties.SharedAtomWritesNothing | PListNet/Internal/BinaryFormatWriter.cs:102-106 | a non-boolean atom equal to an earlier one with the same tag is not written again; its earlier index is returned |
| WriterProperties.RepeatedBooleanOrphan | PListNet/Internal/BinaryFormatWriter.cs:104-113 | a repeated boolean returns the first copy's index but still adds an offset and a marker byte nothing refers to |
| WriterProperties.FreshAtomEntered | PListNet/Internal/BinaryFormatWriter.cs:97-101 | a shareable atom seen for the first time gets the next index, which the sharing map records |
| WriterProperties.RootIndexZero | PListNet/Internal/BinaryFormatWriter.cs:47 | the root of a fresh write gets index 0 |
| WriterCount.NodeWriteCount | PListNet/Internal/BinaryFormatWriter.cs:184-215 | writing a node adds at most `GetNodeCount` offsets |
| WriterCount.ArrayWriteCount | PListNet/Internal/BinaryFormatWriter.cs:189-198 | an array's children add at most the sum of their counts |
| WriterCount.DictWriteCount | PListNet/Internal/BinaryFormatWriter.cs:201-211 | a dictionary's keys and values add at most the key count plus the values' counts |
| WriterCount.ObjectsWithinCount | PListNet/Internal/BinaryFormatWriter.cs:40-48 | the offsets written number at most `GetNodeCount(root)`, and the root's index is among them |
| WriterCount.RefWidthSuffices | PListNet/Internal/BinaryFormatWriter.cs:42-45 | the reference width chosen from the count holds every index below it unchanged |
| ReadBack.ExtendedPayload | PListNet/Internal/BinaryFormatWriter.cs:114-120 | the integer payload of an extended length is 1, 2 or 4 bytes, and `ReadNumber` reads it back as the length |
| ReadBack.MarkerRoundTrip | PListNet/Internal/BinaryFormatReader.cs:183-226 | the marker the writer writes for a node decodes to the node's tag and length, and ends where it was written to end |
| ReadBack.ExtendedLengthRead | PListNet/Internal/BinaryFormatReader.cs:205-223 | the writer's extended length has the `0x1p` byte the reader checks, then 2^p bytes that read back as the length |
| ReadBack.PayloadRoundTrip | PListNet/Internal/BinaryFormatReader.cs:178 | every readable atom's payload, read by its class with its length, gives the atom back |
| ReadBack.AtomRoundTrip | PListNet/Internal/BinaryFormatReader.cs:153-181 | the marker and payload written for a readable atom decode to that atom, wherever they sit |
| ReadBack.WrittenAtomReadsBack | PListNet/Internal/BinaryFormatWriter.cs:109-137 | a newly written atom's recorded offset points at its object, and the reader gets the atom back from there |
| ReadBack.UidNotReadBack | PListNet/Nodes/UidNode.cs:12 | a UID node written with tag 8 cannot be read back: the reader stops with the unknown-tag error |
| FileReadBack.FieldReadsBack | PListNet/Internal/BinaryFormatReader.cs:71-73 | a trailer field the writer stores as four zero bytes and a 32-bit big-endian value reads back as that value |
| FileReadBack.TrailerReadsBack | PListNet/Internal/BinaryFormatReader.cs:53-77 | the 32 bytes the writer ends a file with read back, whatever precedes them, as its two widths, object count, top index and table offset, with sort version 0 |
| FileReadBack.FormatIdxReadsBack | PListNet/Internal/BinaryFormatReader.cs:115-134 | `ReadNumber` undoes `FormatIdx` for an index that fits the width and an `int` |
| FileReadBack.BlockEntry | PListNet/Internal/BinaryFormatWriter.cs:146-150 | entry j of a formatted block, wherever the block sits in the stream, is index j formatted |
| FileReadBack.OffsetTableReadsBack | PListNet/Internal/BinaryFormatReader.cs:98-110 | the offset table the writer formats reads back, wherever it sits, as exactly the offsets it was formatted from |
| FileReadBack.OffsetEntryReadsBack | PListNet/Internal/BinaryFormatReader.cs:104-109 | entry i of a formatted offset table reads back as offset i |
| FileReadBack.ArrayRefReadsBack | PListNet/Internal/BinaryFormatReader.cs:236-241 | with one-byte offsets, reference i of an array block the writer formatted with one-byte references reads back as the index written there |
| FileReadBack.NodeOffsetReadsBack | PListNet/Internal/BinaryFormatReader.cs:278-296 | when the offset width and the reference width agree, reference i of a dictionary block the writer formatted reads back as the index written there |
| FileReadBack.ArrayBlockReadsBack | PListNet/Internal/BinaryFormatReader.cs:228-243 | with one-byte offsets, an array block the writer formatted with one-byte references reads back as exactly the array's items, given that each index written there reads back as its item |
| FileReadBack.ArrayReadsItems | PListNet/Internal/BinaryFormatReader.cs:228-243 | an array block whose references read as indices naming nodes that read back reads back as exactly those items |
| FileReadBack.DictBlocksReadBack | PListNet/Internal/BinaryFormatReader.cs:245-276 | when the offset and reference widths agree, the two blocks the writer formatted for a dictionary with distinct keys read back as exactly its entries, given that each key index names a string node holding the key and each value index reads back as the value |
| FileReadBack.DictReadsEntries | PListNet/Internal/BinaryFormatReader.cs:245-276 | two dictionary blocks through whose references every entry reads read back as exactly those entries, keys being distinct |
| FileReadBack.EntriesReadAt | PListNet/Internal/BinaryFormatReader.cs:262-273 | when the widths agree, entry i reads through reference i of both blocks the writer formatted |
| FileReadBack.ArrayRefWidthMismatch | PListNet/Internal/BinaryFormatReader.cs:230-240 | with two-byte offsets, a two-item array written with one-byte references [1, 2] is read from a 4-byte block: its references read as 258 and as the two bytes that follow the block's written part, taken as a signed 16-bit number |
| ArrayNodes.ArrayNode.Value | PListNet/Nodes/ArrayNode.cs:20-36 | an array's tag is 0x0A and its XML tag `array`; its length is its count, and it is not shared |
| ArrayNodes.ArrayNode.Add | PListNet/Nodes/ArrayNode.cs:134-137 | appends at the end |
| ArrayNodes.ArrayNode.Insert | PListNet/Nodes/ArrayNode.cs:104-107 | an index in 0..Count puts the item there; any other index is an error and changes nothing |
| ArrayNodes.ArrayNode.RemoveAt | PListNet/Nodes/ArrayNode.cs:113-116 | an index in 0..Count-1 removes that item; any other index is an error and changes nothing |
| ArrayNodes.ArrayNode.Get | PListNet/Nodes/ArrayNode.cs:122-124 | the item at a valid index; any other index is an error |
| ArrayNodes.ArrayNode.Set | PListNet/Nodes/ArrayNode.cs:122-126 | replaces the item at a valid index and no other; any other index is an error and changes nothing |
| ArrayNodes.ArrayNode.Clear | PListNet/Nodes/ArrayNode.cs:142-145 | empties the array |
| ArrayNodes.InsertedShape | PListNet/Nodes/ArrayNode.cs:104-107 | after an insert the item is at the index, earlier items stay and later ones move up by one |
| ArrayNodes.RemovedShape | PListNet/Nodes/ArrayNode.cs:113-116 | after a removal earlier items stay and later ones move down by one |
| ArrayNodes.RemoveUndoesInsert | PListNet/Nodes/ArrayNode.cs:104-116 | removing at an index undoes inserting there |
| ArrayNodes.InsertUndoesRemove | PListNet/Nodes/ArrayNode.cs:104-116 | re-inserting a removed item at its index restores the array |
| ArrayNodes.AddIsInsertAtEnd | PListNet/Nodes/ArrayNode.cs:104-137 | `Add` is `Insert` at `Count` |
| DictionaryNodes.DictionaryNode.Value | PListNet/Nodes/DictionaryNode.cs:20-40 | a dictionary's tag is 0x0D and its XML tag `dict`; its length is its count, and it is not shared |
| DictionaryNodes.DictionaryNode.ContainsKey | PListNet/Nodes/DictionaryNode.cs:115-118 | true exactly when an entry has the key |
| DictionaryNodes.DictionaryNode.Add | PListNet/Nodes/DictionaryNode.cs:125-128 | a new key is appended with its value; a key already present is an error and changes nothing |
| DictionaryNodes.DictionaryNode.Remove | PListNet/Nodes/DictionaryNode.cs:134-137 | true exactly when the key was present; the key's entry is dropped and keys stay distinct |
| DictionaryNodes.DictionaryNode.TryGetValue | PListNet/Nodes/DictionaryNode.cs:145-148 | found exactly when the key is present, with the value stored under it |
| DictionaryNodes.DictionaryNode.Get | PListNet/Nodes/DictionaryNode.cs:154-156 | the value stored under a present key; a missing key is an error |
| DictionaryNodes.DictionaryNode.Set | PListNet/Nodes/DictionaryNode.cs:154-158 | inserts or overwrites that key only, keeping keys distinct |
| DictionaryNodes.DictionaryNode.Clear | PListNet/Nodes/DictionaryNode.cs:188-191 | empties the dictionary |
| DictionaryNodes.Lookup | PListNet/Nodes/DictionaryNode.cs:145-148 | a value is found exactly when some entry has the key |
| DictionaryNodes.LookupWithout | PListNet/Nodes/DictionaryNode.cs:134-137 | after `Remove(key)` the key is absent and every other key keeps its value |
| DictionaryNodes.WithoutCount | PListNet/Nodes/DictionaryNode.cs:134-137 | `Remove` drops one entry exactly when the key was present |
| DictionaryNodes.WithoutMissing | PListNet/Nodes/DictionaryNode.cs:134-137 | removing an absent key changes nothing |
| DictionaryNodes.LookupAssigned | PListNet/Nodes/DictionaryNode.cs:154-158 | after the setter the key maps to the value and every other key keeps its value |
| DictionaryNodes.AssignedCount | PListNet/Nodes/DictionaryNode.cs:154-158 | the setter adds an entry exactly when the key was absent |
| DictionaryNodes.AssignedNewKey | PListNet/Nodes/DictionaryNode.cs:125-158 | on a new key, the setter and `Add` agree |
| DictionaryNodes.LookupFinds | PListNet/Nodes/DictionaryNode.cs:145-148 | a value found for a key is stored under that key |
| PList.HeadBuffer | PListNet/PList.cs:30-33 | the 8-byte buffer holds the stream's first bytes, and zeros where the stream is shorter |
| PList.DetectsMagic | PListNet/PList.cs:28-40 | the data is taken as binary exactly when it starts with `bplist` |
| PList.DetectionWeakerThanHeaderCheck | PListNet/PList.cs:28-40 | data the reader's header check accepts is detected as binary, but detected data shorter than 8 bytes fails that check |
| PList.Load | PListNet/PList.cs:18-26 | data starting with `bplist` goes to the binary reader, anything else to the XML reader |
| PList.FileStartsWithHeader | PListNet/Internal/BinaryFormatWriter.cs:17-19 | the written file starts with the 8 bytes `bplist00` |
| PList.SavedIsBinary | PListNet/PList.cs:18-26 | a saved binary file passes the header check, is detected as binary and is loaded by the binary reader |
| PList.HeaderRoutesToBinary | PListNet/PList.cs:28-40 | any data starting with `bplist00` passes the header check and is loaded by the binary reader |
| PList.Save | PListNet/PList.cs:78-130 | binary format: the writer's file, detected as binary; XML format: the fixed-up lines |
| PList.TrimStart | PListNet/PList.cs:116 | the trimmed text does not start with white space |
| PList.TrimEnd | PListNet/PList.cs:116 | the trimmed text does not end with white space |
| PList.TrimSplit | PListNet/PList.cs:116 | a line is its trimmed text between white-space runs |
| PList.ReplacePadded | PListNet/PList.cs:116-117 | in a line that is white space around the pattern, `Replace` changes only the pattern |
| PList.FixLine | PListNet/PList.cs:116-117 | a line whose trimmed text is neither `<true />` nor `<false />` is unchanged |
| PList.FixLineTrue | PListNet/PList.cs:116 | a line whose trimmed text is `<true />` becomes `<true/>` with its indentation and trailing white space kept |
| PList.FixLineFalse | PListNet/PList.cs:117 | a line whose trimmed text is `<false />` becomes `<false/>` with its indentation and trailing white space kept |
| PList.FixLineIdempotent | PListNet/PList.cs:116-117 | fixing a fixed line changes nothing |
| PList.FixLines | PListNet/PList.cs:114-120 | every line is fixed on its own, in order |
| PList.FixOneLine | PListNet/PList.cs:116-117 | the loop body computes `FixLine` |
| PList.FixBooleanLines | PListNet/PList.cs:107-121 | the loop writes each fixed line followed by `\n`, in order |
| PList.FixedAppend | PListNet/PList.cs:114-120 | the fix-up of two runs of lines is the fix-up of each, concatenated |
| PList.FixLinesIdempotent | PListNet/PList.cs:114-120 | the fix-up is idempotent |

## Left out

- XML reading and writing through `System.Xml`:
  - what is left out: the `ReadXml`/`WriteXml` bodies, the document type, the reader settings, the XML writer's output, and the `ReadLine`/`WriteLine` stream plumbing of `Save`;
  - why: they are library code;
  - how the model stands in for them: `PList.Load` takes the XML loader as a parameter, and `PList.Save` takes the XML writer's output as a sequence of lines.
  - This also leaves out the XML-only behaviour of the collections: children appended in document order, and empty elements.
- Floating point and dates:
  - `RealNode` and `DateNode` keep their value as the 8 bytes of a double; a 4-byte single is widened to a double on reading (`Ieee754.Widen`), so a node read from 4 bytes is written back as 8;
  - `Ieee754.WidenBits`: a signalling NaN is made quiet (bit 22 of the fraction set), as the x86-64 and ARM64 conversion instructions do; .NET does not fix this, so on other hardware a NaN's payload may differ;
  - double arithmetic and the `DateTime` conversions (`AddSeconds`, `TotalSeconds`, and their rounding) are not modelled;
  - equality, and so sharing, compares those raw bytes: .NET's `double.Equals` treats +0.0 and -0.0 as equal and any two NaNs as equal, so the writer shares such reals where the model writes them twice.
- Base64 in `DataNode` and invariant-culture number text in `IntegerNode`: library calls, not modelled.
- `StringNode.cs` is not part of this model. The string codec in `string_node.dfy` is an assumption about it:
  - tags 5 and 6;
  - one ASCII byte per code unit, with non-ASCII replaced by `?`;
  - two big-endian bytes per UTF-16 code unit.
- `Nodes.NoValueNoEquality`: a data node's `Equals` compares array references. The model has no identities, so a data node equals nothing, not even itself, and data nodes are never shared.
- `ArrayNodes.ArrayNode`: `IndexOf`, `Contains`, `Remove(item)`, `CopyTo` and the enumerators depend on the same node identity; they are not modelled.
- `DictionaryNodes.DictionaryNode`:
  - `Keys`, `Values`, the key-value-pair overloads and the enumerators are not modelled;
  - entries are kept in insertion order, which stands in for .NET's unspecified dictionary order.
- `BinaryReader.Decode`:
  - the source has no cycle guard and overflows its stack on a cyclic reference. The model bounds recursion by a fuel of one level per offset-table entry, and running out is a format error;
  - the whole-file round trip, a written file decoding to its root, is not proved, and it does not hold in general. The reader takes the byte count of a reference block and the position of a dictionary reference from the offset width (trailer byte 6), and reads an array reference as one byte or a 16-bit value by that same width. The writer writes every reference with the reference width (trailer byte 7). The two agree when both are one byte. The reference width follows the writer's node count, which counts a shared node once per occurrence (`BinaryWriter.GetNodeCount`), so it can exceed one byte even when the file has few objects, and a file with no non-empty array or dictionary reads no reference at all. A file whose node count is at most 255 (reference width 1) and whose offset table starts beyond byte 255 (offset width 2) misreads every non-empty array and dictionary: an array's references are read as 16-bit values from a block twice as long (`FileReadBack.ArrayRefWidthMismatch`), and a dictionary's key and value blocks are each read as 2n bytes, its value block starting at `pos + 2n` where the writer put it at `pos + n`;
  - what is proved are the pieces of that round trip: the trailer (`FileReadBack.TrailerReadsBack`), the offset table (`FileReadBack.OffsetTableReadsBack`), each reference where the widths agree (`FileReadBack.ArrayRefReadsBack`, `FileReadBack.NodeOffsetReadsBack`), each array and dictionary block given that its children read back (`FileReadBack.ArrayBlockReadsBack`, `FileReadBack.DictBlocksReadBack`), every readable atom (`ReadBack.AtomRoundTrip`), the marker (`ReadBack.MarkerRoundTrip`), and where the writer puts each block and what its references name (`WriterProperties.ArrayWriteBlock`, `WriterProperties.DictWriteBlocks`, `WriterProperties.DictWriteRefs`).
- `BinaryReader.NodeAt`: an unsigned reference at or above 2^63 is an overflow, as an array index of type `ulong` is on a 64-bit process; the source's behaviour on a 32-bit process, where the bound is 2^31, is not modelled.
- `BinaryReader.ReadTrailer`: seeking 32 bytes back in a shorter stream raises an I/O error in the source; the model reports a short read.
- Stream positions: the writer's `(int)` casts of `stream.Position` are not modelled; streams are assumed to stay under 2 GiB.
- `BinaryWriter.GetNodeCount`: the `int` accumulator's overflow is not modelled (the count is unbounded).
- Cyclic node graphs: an array or dictionary added to itself (directly or through a child) cannot be built from the node datatype. In the source `GetNodeCount` and `WriteInternal` recurse on such a graph until the stack overflows; the model has no such input.
- `BinaryWriter.BinaryFormatWriter.WriteInternal`: the array and dictionary overloads and their loops are modelled as the functions `ArrayWrite` and `DictWrite` over the writer state, not as imperative methods, so the update in place of the reference buffers is not captured.
- `BinaryWriter.BinaryFormatWriter`:
  - `objects` is a field of the model alone; it records the node each offset was taken for.
  - `Write` appends to whatever stream and sharing map the writer already holds, as the source does; the facade always starts from a new writer.
- The exception types are replaced by error values. `Wrappers.Message` gives each its message; a `PListFormatException` thrown without one gets .NET's default text, and `ReferenceCycle` has a text of the model's own, since the source has no such exception.
- `PList.Save`: the model writes the binary file into a new, empty stream. The source writes at the caller's stream position, with offsets counted from the start of the stream, so a file saved after other bytes is not at offset 0 of its own; this placement is not modelled.
- `EndianConverter`'s host byte order is a parameter, since it comes from `BitConverter.IsLittleEndian`.
