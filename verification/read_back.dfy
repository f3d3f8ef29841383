/**
 * What the reader makes of what the writer writes, one object at a time: the
 * marker (with its extended length) decodes to the tag and length it was
 * written from, and every atom the factory knows reads back as the node it
 * was written from. UID nodes are written but cannot be read back.
 */
module ReadBack {
  import opened Wrappers
  import opened Bytes
  import opened Nodes
  import BinaryReader
  import BinaryWriter
  import NodeFactory
  import IntegerNode
  import BooleanNode
  import DataNode
  import RealNode
  import DateNode
  import StringNode

  /** The payload of the integer node that carries an extended length reads back as that length. */
  lemma ExtendedPayload(len: int)
    requires 0x0F <= len <= IntMax
    ensures var code := IntegerNode.BinaryLength(len);
      0 <= code <= 2 && BinaryReader.ReadNumber(IntegerNode.WriteBinary(len)) == Ok(len)
  {
    IntegerNode.WidthPowers();
    var code := IntegerNode.BinaryLength(len);
    var payload := IntegerNode.WriteBinary(len);
    if code == 1 {
      ModInRange(len, Pow256(2));
    } else if code == 2 {
      ModInRange(len, Pow256(4));
    }
    assert BeValue(payload) == len;
  }

  /**
   * The marker of a node, wherever it sits in the stream, decodes to the
   * node's tag and length and ends where the marker ends.
   */
  lemma MarkerRoundTrip(n: Node, prefix: seq<Byte>, suffix: seq<Byte>)
    requires BinaryLength(n) <= IntMax
    ensures var m := BinaryWriter.Marker(n);
      BinaryReader.GetObjectLengthAndTag(prefix + m + suffix, |prefix|) ==
        Ok(BinaryReader.TagAndLength(BinaryTag(n), BinaryLength(n), |prefix| + |m|))
  {
    assert BinaryWriter.Marker(n) == MarkerBytes(BinaryTag(n), BinaryLength(n));
    MarkerBytesRead(BinaryTag(n), BinaryLength(n), prefix, suffix);
  }

  /** The marker bytes for a tag and a length, as `Marker` lays them out. */
  function MarkerBytes(tag: int, len: int): seq<Byte>
    requires 0 <= tag < 16 && 0 <= len <= IntMax
  {
    if len < 0x0F then [tag * 16 + len] else [tag * 16 + 0x0F] + BinaryWriter.ExtendedLength(len)
  }

  lemma MarkerBytesRead(tag: int, len: int, prefix: seq<Byte>, suffix: seq<Byte>)
    requires 0 <= tag < 16 && 0 <= len <= IntMax
    ensures var m := MarkerBytes(tag, len);
      BinaryReader.GetObjectLengthAndTag(prefix + m + suffix, |prefix|) ==
        Ok(BinaryReader.TagAndLength(tag, len, |prefix| + |m|))
  {
    if len < 0x0F {
      var data := prefix + [tag * 16 + len] + suffix;
      assert data[|prefix|] == tag * 16 + len;
      Nibbles(tag, len);
    } else {
      LongMarkerRead(tag, len, prefix, suffix);
    }
  }

  /** A length of 15 or more: the low nibble 0xF, then the extended length. */
  lemma LongMarkerRead(tag: int, len: int, prefix: seq<Byte>, suffix: seq<Byte>)
    requires 0 <= tag < 16 && 0x0F <= len <= IntMax
    ensures var m := [tag * 16 + 0x0F] + BinaryWriter.ExtendedLength(len);
      BinaryReader.GetObjectLengthAndTag(prefix + m + suffix, |prefix|) ==
        Ok(BinaryReader.TagAndLength(tag, len, |prefix| + |m|))
  {
    var e := BinaryWriter.ExtendedLength(len);
    var m := [tag * 16 + 0x0F] + e;
    var data := prefix + m + suffix;
    var pos := |prefix|;
    assert data[pos] == tag * 16 + 0x0F;
    assert data[pos + 1..pos + 1 + |e|] == e;
    Nibbles(tag, 0x0F);
    ExtendedLengthRead(len, data, pos + 1);
    ExtendedMarker(data, pos, IntegerNode.WriteBinary(len), len);
  }

  /** How the reader decodes a marker whose low nibble is 0xF. */
  lemma ExtendedMarker(data: seq<Byte>, pos: nat, buf: seq<Byte>, len: int)
    requires pos + 1 < |data| && data[pos] % 16 == 0x0F && data[pos + 1] / 16 == 1
    requires Pow2(data[pos + 1] % 16) == |buf| && Take(data, pos + 2, |buf|) == Some(buf)
    requires BinaryReader.ReadNumber(buf) == Ok(len)
    ensures BinaryReader.GetObjectLengthAndTag(data, pos) == Ok(BinaryReader.TagAndLength(data[pos] / 16, len, pos + 2 + |buf|))
  {
  }

  /** A byte's high and low nibbles. */
  lemma Nibbles(high: int, low: int)
    requires 0 <= high < 16 && 0 <= low < 16
    ensures (high * 16 + low) / 16 == high && (high * 16 + low) % 16 == low
  {
  }

  /** The extended length after a marker: a `0x1p` byte, then 2^p bytes that read back as the length. */
  lemma ExtendedLengthRead(len: int, data: seq<Byte>, pos: nat)
    requires 0x0F <= len <= IntMax
    requires pos + |BinaryWriter.ExtendedLength(len)| <= |data|
    requires data[pos..pos + |BinaryWriter.ExtendedLength(len)|] == BinaryWriter.ExtendedLength(len)
    ensures var n := |BinaryWriter.ExtendedLength(len)| - 1;
      data[pos] / 16 == 1 && Pow2(data[pos] % 16) == n &&
      Take(data, pos + 1, n) == Some(IntegerNode.WriteBinary(len)) &&
      BinaryReader.ReadNumber(IntegerNode.WriteBinary(len)) == Ok(len)
  {
    var e := BinaryWriter.ExtendedLength(len);
    var payload := IntegerNode.WriteBinary(len);
    assert e == [e[0]] + payload;
    ExtendedPayload(len);
    IntegerNode.WidthPowers();
    assert data[pos] == e[0] == 0x10 + IntegerNode.BinaryLength(len);
    assert data[pos + 1..pos + 1 + |payload|] == payload;
  }

  /** The atoms the reader reproduces: every atom but a UID, with eight-byte reals and dates and strings it can encode. */
  predicate ReadsBack(n: Node) {
    match n
    case Real(raw) => |raw| == 8
    case Date(raw) => |raw| == 8
    case String(text, utf16) => utf16 || StringNode.IsAscii(text)
    case Uid(_) => false
    case Array(_) => false
    case Dict(_) => false
    case _ => true
  }

  /** The object the writer lays down for an atom (marker, then payload) is read back as that atom. */
  lemma AtomRoundTrip(st: BinaryReader.ReaderState, n: Node, prefix: seq<Byte>, suffix: seq<Byte>, fuel: nat)
    requires ReadsBack(n) && BinaryLength(n) <= IntMax
    requires st.data == prefix + BinaryWriter.Marker(n) + WriteBinary(n).value + suffix
    ensures BinaryReader.ObjectAt(st, |prefix|, fuel) == Ok(n)
  {
    var m := BinaryWriter.Marker(n);
    var payload := WriteBinary(n).value;
    assert st.data == prefix + m + (payload + suffix);
    MarkerRoundTrip(n, prefix, payload + suffix);
    NodeFactory.CreateRecognisesWrittenNodes(n);
    var before := prefix + m;
    assert st.data == before + payload + suffix;
    PayloadRoundTrip(n, before, suffix);
    ObjectAtAtom(st, |prefix|, fuel, NodeFactory.KindOf(n));
  }

  /** A marker whose tag names an atom class hands the rest to that class's `ReadBinary`. */
  lemma ObjectAtAtom(st: BinaryReader.ReaderState, pos: nat, fuel: nat, kind: NodeFactory.Kind)
    requires BinaryReader.GetObjectLengthAndTag(st.data, pos).Ok?
    requires var tl := BinaryReader.GetObjectLengthAndTag(st.data, pos).value; NodeFactory.Create(tl.tag, tl.length) == Ok(kind)
    requires !kind.ArrayKind? && !kind.DictKind?
    ensures var tl := BinaryReader.GetObjectLengthAndTag(st.data, pos).value;
      BinaryReader.ObjectAt(st, pos, fuel) == BinaryReader.ReadAtom(kind, st.data, tl.next, tl.length)
  {
  }

  /** An atom's payload, read with the length its marker carries, gives the atom back. */
  lemma PayloadRoundTrip(n: Node, before: seq<Byte>, suffix: seq<Byte>)
    requires ReadsBack(n) && BinaryLength(n) <= IntMax
    ensures var data := before + WriteBinary(n).value + suffix;
      BinaryReader.ReadAtom(NodeFactory.KindOf(n), data, |before|, BinaryLength(n)) == Ok(n)
  {
    match n
    case Boolean(b) => BooleanNode.BinaryRoundTrip(b);
    case Integer(v) => IntegerNode.RoundTrip(v, before, suffix);
    case Real(raw) => RealNode.RoundTrip(raw, before, suffix);
    case Date(raw) => DateNode.RoundTrip(raw, before, suffix);
    case Data(bytes) => DataNode.RoundTrip(bytes, before, suffix);
    case String(text, utf16) => StringNode.RoundTrip(text, utf16, before, suffix);
    case _ =>
  }

  /**
   * The writer's own output for an atom it does not share: the offset it
   * records points at the object, and whatever follows, the reader gets the
   * atom back from there.
   */
  lemma WrittenAtomReadsBack(s: BinaryWriter.WState, n: Node, st: BinaryReader.ReaderState, suffix: seq<Byte>, fuel: nat)
    requires ReadsBack(n) && BinaryLength(n) <= IntMax && !BinaryWriter.Reused(s, n)
    requires st.data == BinaryWriter.AtomWrite(s, n).state.stream + suffix
    ensures var w := BinaryWriter.AtomWrite(s, n);
      |w.state.offsets| == |s.offsets| + 1 && w.state.offsets[|s.offsets|] == |s.stream|
    ensures BinaryReader.ObjectAt(st, |s.stream|, fuel) == Ok(n)
  {
    var w := BinaryWriter.AtomWrite(s, n);
    assert w.state.stream == s.stream + BinaryWriter.Marker(n) + WriteBinary(n).value;
    AtomRoundTrip(st, n, s.stream, suffix, fuel);
  }

  /** A UID node is written with tag 8, which the factory does not know, so reading it back fails whatever follows the marker. */
  lemma UidNotReadBack(st: BinaryReader.ReaderState, v: Long, prefix: seq<Byte>, rest: seq<Byte>, fuel: nat)
    requires st.data == prefix + BinaryWriter.Marker(Uid(v)) + rest
    ensures BinaryReader.ObjectAt(st, |prefix|, fuel) == Err(UnknownBinaryTag(8))
  {
    var n := Uid(v);
    MarkerRoundTrip(n, prefix, rest);
    NodeFactory.UidIsUnregistered(v);
    ObjectAtUnknownTag(st, |prefix|, fuel);
  }

  /** A marker whose tag the factory does not know stops the reader with the factory's error. */
  lemma ObjectAtUnknownTag(st: BinaryReader.ReaderState, pos: nat, fuel: nat)
    requires BinaryReader.GetObjectLengthAndTag(st.data, pos).Ok?
    requires var tl := BinaryReader.GetObjectLengthAndTag(st.data, pos).value; NodeFactory.Create(tl.tag, tl.length).Err?
    ensures var tl := BinaryReader.GetObjectLengthAndTag(st.data, pos).value;
      BinaryReader.ObjectAt(st, pos, fuel) == Err(NodeFactory.Create(tl.tag, tl.length).error)
  {
  }
}
