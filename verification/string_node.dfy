/**
 * String nodes. The string node's own source file is not part of this model;
 * its behaviour here follows the binary plist format as the rest of the
 * library uses it: tag 5 holds one byte per character in .NET's ASCII
 * encoding (a character outside ASCII becomes `?`), tag 6 holds UTF-16 code
 * units, two big-endian bytes each, and the length is the character count.
 */
module StringNode {
  import opened Wrappers
  import opened Bytes

  type CodeUnit = x: int | 0 <= x < 0x1_0000

  /** A .NET string: a sequence of UTF-16 code units. */
  type Text = seq<CodeUnit>

  const XmlTag: string := "string"
  const AsciiTag: int := 5
  const Utf16Tag: int := 6
  const QuestionMark: int := 0x3F

  function BinaryTag(utf16: bool): int {
    if utf16 then Utf16Tag else AsciiTag
  }

  function BinaryLength(text: Text): int {
    |text|
  }

  predicate IsAscii(text: Text) {
    forall i :: 0 <= i < |text| ==> text[i] < 0x80
  }

  function AsciiByte(u: CodeUnit): Byte {
    if u < 0x80 then u else QuestionMark
  }

  function AsciiUnit(b: Byte): CodeUnit {
    if b < 0x80 then b else QuestionMark
  }

  /** Each code unit as two big-endian bytes. */
  function Utf16Bytes(text: Text): (bytes: seq<Byte>)
    ensures |bytes| == 2 * |text|
  {
    if text == [] then [] else Utf16Bytes(text[..|text| - 1]) + BeEncode(text[|text| - 1], 2)
  }

  /** Byte pair `i` of the UTF-16 payload is code unit `i`. */
  lemma {:induction false} Utf16Units(text: Text)
    ensures forall i :: 0 <= i < |text| ==> BeValue(Utf16Bytes(text)[2 * i..2 * i + 2]) == text[i]
  {
    if text != [] {
      var init := Utf16Bytes(text[..|text| - 1]);
      var last := BeEncode(text[|text| - 1], 2);
      var bytes := init + last;
      Utf16Units(text[..|text| - 1]);
      assert forall i :: 0 <= i < |text| - 1 ==> bytes[2 * i..2 * i + 2] == init[2 * i..2 * i + 2];
      assert bytes[2 * (|text| - 1)..2 * |text|] == last;
    }
  }

  /** The payload `WriteBinary` emits. */
  function WriteBinary(text: Text, utf16: bool): (bytes: seq<Byte>)
    ensures |bytes| == (if utf16 then 2 else 1) * |text|
  {
    if utf16 then Utf16Bytes(text) else seq(|text|, i requires 0 <= i < |text| => AsciiByte(text[i]))
  }

  /** `ReadBinary` reads `nodeLength` characters of one or two bytes each. */
  function ReadBinary(data: seq<Byte>, pos: nat, nodeLength: int, utf16: bool): (r: Result<Text>)
    ensures r.Ok? <==> 0 <= nodeLength && (nodeLength == 0 || pos + (if utf16 then 2 else 1) * nodeLength <= |data|)
    ensures r.Ok? ==> |r.value| == nodeLength
    ensures r.Ok? && utf16 ==> forall i :: 0 <= i < nodeLength ==>
      r.value[i] == BeValue(data[pos + 2 * i..pos + 2 * i + 2])
    ensures r.Ok? && !utf16 ==> forall i :: 0 <= i < nodeLength ==> r.value[i] == AsciiUnit(data[pos + i])
  {
    if nodeLength < 0 then Result<Text>.Err(Overflow)
    else
      var width := if utf16 then 2 else 1;
      match Take(data, pos, width * nodeLength)
      case None => Err(ShortRead)
      case Some(buf) =>
        if utf16 then
          assert nodeLength > 0 ==> buf == data[pos..pos + 2 * nodeLength];
          PairsOfSlice(data, pos, buf);
          Ok(seq(nodeLength, i requires 0 <= i < nodeLength => BeValue(buf[2 * i..2 * i + 2])))
        else
          Ok(seq(nodeLength, i requires 0 <= i < nodeLength => AsciiUnit(buf[i])))
  }

  /** Code unit `i` of a block taken from `pos` is the pair of bytes at `pos + 2 * i`. */
  lemma PairsOfSlice(data: seq<Byte>, pos: nat, buf: seq<Byte>)
    requires |buf| % 2 == 0 && (buf == [] || (pos + |buf| <= |data| && buf == data[pos..pos + |buf|]))
    ensures forall i :: 0 <= i < |buf| / 2 ==> buf[2 * i..2 * i + 2] == data[pos + 2 * i..pos + 2 * i + 2]
  {
    forall i | 0 <= i < |buf| / 2
      ensures buf[2 * i..2 * i + 2] == data[pos + 2 * i..pos + 2 * i + 2]
    {
      assert buf[2 * i] == data[pos + 2 * i] && buf[2 * i + 1] == data[pos + 2 * i + 1];
    }
  }

  /** UTF-16 text, and ASCII text in an ASCII node, read back unchanged. */
  lemma RoundTrip(text: Text, utf16: bool, prefix: seq<Byte>, suffix: seq<Byte>)
    requires utf16 || IsAscii(text)
    ensures ReadBinary(prefix + WriteBinary(text, utf16) + suffix, |prefix|, BinaryLength(text), utf16) == Ok(text)
  {
    var payload := WriteBinary(text, utf16);
    var data := prefix + payload + suffix;
    assert data[|prefix|..|prefix| + |payload|] == payload;
    var width := if utf16 then 2 else 1;
    assert Take(data, |prefix|, width * |text|) == Some(payload);
    if utf16 {
      Utf16Units(text);
      var units := seq(|text|, i requires 0 <= i < |text| => BeValue(payload[2 * i..2 * i + 2]));
      assert ReadBinary(data, |prefix|, |text|, utf16) == Ok(units);
      assert units == text;
    } else {
      var units := seq(|text|, i requires 0 <= i < |text| => AsciiUnit(payload[i]));
      assert ReadBinary(data, |prefix|, |text|, utf16) == Ok(units);
      assert units == text;
    }
  }
}
