/**
 * The `PList` facade: picks the reader from the first bytes of the input,
 * saves through the binary writer, and rewrites the XML writer's boolean
 * lines (`<true />`, `<false />`) into the form Apple's parser expects.
 */
module PList {
  import opened Wrappers
  import opened Bytes
  import opened Nodes
  import BinaryReader
  import BinaryWriter
  import WriterProperties

  /** `PListFormat`. */
  datatype PListFormat = Xml | Binary

  /** What `Save` puts on the stream: the binary bytes, or the XML text before it is encoded. */
  datatype Saved = SavedBytes(bytes: seq<Byte>) | SavedText(text: string)

  // Format detection

  /** The 8-byte buffer `IsFormatBinary` reads into: the input's first bytes, zeros where it ends early. */
  function HeadBuffer(data: seq<Byte>): (buf: seq<Byte>)
    ensures |buf| == 8
    ensures forall i :: 0 <= i < 8 ==> buf[i] == if i < |data| then data[i] else 0
  {
    if |data| >= 8 then data[..8] else data + Zeros(8 - |data|)
  }

  /**
   * `IsFormatBinary`: the first six buffer bytes decode, as UTF-8, to
   * `bplist`. A UTF-8 decoding yields those six ASCII letters only from
   * those six bytes, so the test is a byte comparison.
   */
  predicate IsFormatBinary(data: seq<Byte>) {
    HeadBuffer(data)[..6] == BinaryReader.Magic
  }

  /** The zero padding never matches: the input is binary exactly when it starts with `bplist`. */
  lemma DetectsMagic(data: seq<Byte>)
    ensures IsFormatBinary(data) <==> |data| >= 6 && data[..6] == BinaryReader.Magic
  {
    var buf := HeadBuffer(data);
    if |data| < 6 {
      assert buf[..6][|data|] == 0 != BinaryReader.Magic[|data|];
    } else {
      assert data[..6] == buf[..6];
    }
  }

  /**
   * Every header the binary reader accepts is detected as binary, but not
   * the other way round: six or seven bytes of `bplist...` are routed to the
   * binary reader, which then rejects them as too short.
   */
  lemma DetectionWeakerThanHeaderCheck(data: seq<Byte>)
    ensures BinaryReader.ValidatePListFileHeader(data).Ok? ==> IsFormatBinary(data)
    ensures IsFormatBinary(data) && |data| < 8 ==> BinaryReader.ValidatePListFileHeader(data) == Err(ShortHeader)
  {
    DetectsMagic(data);
  }

  /** `Load`: binary input goes to the binary reader, anything else to the XML reader `loadAsXml`. */
  function Load(data: seq<Byte>, loadAsXml: seq<Byte> -> Result<Node>): (r: Result<Node>)
    ensures |data| >= 6 && data[..6] == BinaryReader.Magic ==> r == BinaryReader.Decode(data)
    ensures !(|data| >= 6 && data[..6] == BinaryReader.Magic) ==> r == loadAsXml(data)
  {
    DetectsMagic(data);
    if IsFormatBinary(data) then BinaryReader.Decode(data) else loadAsXml(data)
  }

  // Saving

  /** The bytes the binary writer puts on an empty stream for `root`. */
  function BinaryFile(root: Node): seq<Byte>
    requires WellFormed(root)
  {
    BinaryWriter.FileWrite([], map[], root).stream
  }

  /** The binary writer starts the file with the 8-byte header and never overwrites it. */
  lemma FileStartsWithHeader(root: Node)
    requires WellFormed(root)
    ensures |BinaryFile(root)| >= 8 && BinaryFile(root)[..8] == BinaryWriter.Header
  {
    ObjectsStartWithHeader(root);
    ObjectsBeginFile(root);
  }

  lemma ObjectsStartWithHeader(root: Node)
    requires WellFormed(root)
    ensures BinaryWriter.Header <= BinaryWriter.ObjectsWrite([], map[], root).state.stream
  {
    var start := BinaryWriter.WState([] + BinaryWriter.Header, [], map[], []);
    WriterProperties.NodeWriteSound(start, BinaryWriter.WidthFor(BinaryWriter.GetNodeCount(root)), root);
  }

  lemma ObjectsBeginFile(root: Node)
    requires WellFormed(root)
    ensures BinaryWriter.ObjectsWrite([], map[], root).state.stream <= BinaryFile(root)
  {
  }

  /** What the binary writer saves passes the binary reader's header check, and `Load` sends it to that reader. */
  lemma SavedIsBinary(root: Node, loadAsXml: seq<Byte> -> Result<Node>)
    requires WellFormed(root)
    ensures BinaryReader.ValidatePListFileHeader(BinaryFile(root)).Ok?
    ensures IsFormatBinary(BinaryFile(root))
    ensures Load(BinaryFile(root), loadAsXml) == BinaryReader.Decode(BinaryFile(root))
  {
    FileStartsWithHeader(root);
    HeaderRoutesToBinary(BinaryFile(root), loadAsXml);
  }

  /** Input that starts with the writer's header passes the header check and is loaded by the binary reader. */
  lemma HeaderRoutesToBinary(data: seq<Byte>, loadAsXml: seq<Byte> -> Result<Node>)
    requires |data| >= 8 && data[..8] == BinaryWriter.Header
    ensures BinaryReader.ValidatePListFileHeader(data).Ok?
    ensures IsFormatBinary(data)
    ensures Load(data, loadAsXml) == BinaryReader.Decode(data)
  {
    assert data[..6] == data[..8][..6];
    DetectsMagic(data);
  }

  /**
   * `Save`. The binary format runs a new `BinaryFormatWriter`; the XML
   * format fixes up the boolean lines of the XML writer's output `xmlLines`.
   */
  method Save(root: Node, format: PListFormat, xmlLines: seq<string>) returns (out: Saved)
    requires format == Binary ==> WellFormed(root)
    ensures format == Binary ==> out == SavedBytes(BinaryFile(root)) && IsFormatBinary(out.bytes)
    ensures format == Xml ==> out == SavedText(Fixed(xmlLines))
  {
    if format == Xml {
      var text := FixBooleanLines(xmlLines);
      return SavedText(text);
    }
    var writer := new BinaryWriter.BinaryFormatWriter();
    writer.Write(root);
    SavedIsBinary(root, _ => Err(NotImplemented));
    DetectsMagic(writer.stream);
    return SavedBytes(writer.stream);
  }

  // The XML boolean fix-up

  /** `Char.IsWhiteSpace`: the Unicode space, line and paragraph separators, and U+0009 to U+000D and U+0085. */
  predicate IsWhiteSpace(c: char) {
    var k := c as int;
    (0x09 <= k <= 0x0D) || k == 0x20 || k == 0x85 || k == 0xA0 || k == 0x1680 ||
    (0x2000 <= k <= 0x200A) || k == 0x2028 || k == 0x2029 || k == 0x202F || k == 0x205F || k == 0x3000
  }

  predicate AllWhiteSpace(s: string) {
    forall i :: 0 <= i < |s| ==> IsWhiteSpace(s[i])
  }

  /** `TrimStart()`. */
  function TrimStart(s: string): (r: string)
    ensures r == [] || !IsWhiteSpace(r[0])
  {
    if s != [] && IsWhiteSpace(s[0]) then TrimStart(s[1..]) else s
  }

  /** `TrimEnd()`. */
  function TrimEnd(s: string): (r: string)
    ensures r == [] || !IsWhiteSpace(r[|r| - 1])
  {
    if s != [] && IsWhiteSpace(s[|s| - 1]) then TrimEnd(s[..|s| - 1]) else s
  }

  /** `Trim()`. */
  function Trim(s: string): string {
    TrimEnd(TrimStart(s))
  }

  /** `Replace(pattern, replacement)`: every occurrence, scanning left to right, without overlaps. */
  function Replace(s: string, pattern: string, replacement: string): string
    requires pattern != []
  {
    if |s| < |pattern| then s
    else if s[..|pattern|] == pattern then replacement + Replace(s[|pattern|..], pattern, replacement)
    else [s[0]] + Replace(s[1..], pattern, replacement)
  }

  const SpacedTrue: string := "<true />"
  const TightTrue: string := "<true/>"
  const SpacedFalse: string := "<false />"
  const TightFalse: string := "<false/>"

  /** One line of the fix-up loop: the `true` test, then the `false` test on the line as it now is. */
  function FixLine(line: string): (r: string)
    ensures Trim(line) != SpacedTrue && Trim(line) != SpacedFalse ==> r == line
  {
    var line1 := if Trim(line) == SpacedTrue then Replace(line, SpacedTrue, TightTrue) else line;
    if Trim(line1) == SpacedFalse then Replace(line1, SpacedFalse, TightFalse) else line1
  }

  /** `WriteLine` on each line in turn, with the new-line string `\n`. */
  function WriteLines(lines: seq<string>): string {
    if lines == [] then [] else WriteLines(lines[..|lines| - 1]) + lines[|lines| - 1] + "\n"
  }

  /** Every line fixed up, in place. */
  function FixLines(lines: seq<string>): (r: seq<string>)
    ensures |r| == |lines| && forall i :: 0 <= i < |lines| ==> r[i] == FixLine(lines[i])
  {
    seq(|lines|, i requires 0 <= i < |lines| => FixLine(lines[i]))
  }

  /** The text the fix-up loop writes. */
  function Fixed(lines: seq<string>): string {
    WriteLines(FixLines(lines))
  }

  /** The body of the fix-up loop. */
  method FixOneLine(line: string) returns (r: string)
    ensures r == FixLine(line)
  {
    r := line;
    if Trim(r) == SpacedTrue {
      r := Replace(r, SpacedTrue, TightTrue);
    }
    if Trim(r) == SpacedFalse {
      r := Replace(r, SpacedFalse, TightFalse);
    }
  }

  /** The fix-up loop of `Save`. */
  method FixBooleanLines(lines: seq<string>) returns (text: string)
    ensures text == Fixed(lines)
  {
    text := [];
    var i := 0;
    while i < |lines|
      invariant 0 <= i <= |lines|
      invariant text == WriteLines(FixLines(lines[..i]))
    {
      var line := FixOneLine(lines[i]);
      FixedStep(lines, i);
      text := text + line + "\n";
      i := i + 1;
    }
    assert lines[..|lines|] == lines;
  }

  /** A string is its leading white space, its trimmed text, and its trailing white space. */
  lemma {:induction false} TrimSplit(s: string)
    ensures exists lead, trail :: AllWhiteSpace(lead) && AllWhiteSpace(trail) && s == lead + Trim(s) + trail
  {
    var lead := TrimStartLead(s);
    var trail := TrimEndTrail(TrimStart(s));
    assert s == lead + Trim(s) + trail;
  }

  lemma {:induction false} TrimStartLead(s: string) returns (lead: string)
    ensures AllWhiteSpace(lead) && s == lead + TrimStart(s)
  {
    if s != [] && IsWhiteSpace(s[0]) {
      var rest := TrimStartLead(s[1..]);
      lead := [s[0]] + rest;
    } else {
      lead := [];
    }
  }

  lemma {:induction false} TrimEndTrail(s: string) returns (trail: string)
    ensures AllWhiteSpace(trail) && s == TrimEnd(s) + trail
  {
    if s != [] && IsWhiteSpace(s[|s| - 1]) {
      var rest := TrimEndTrail(s[..|s| - 1]);
      trail := rest + [s[|s| - 1]];
    } else {
      trail := [];
    }
  }

  /** Trimming a text that neither starts nor ends with white space, padded with white space, gives the text back. */
  lemma {:induction false} TrimPadded(lead: string, x: string, trail: string)
    requires AllWhiteSpace(lead) && AllWhiteSpace(trail)
    requires x != [] && !IsWhiteSpace(x[0]) && !IsWhiteSpace(x[|x| - 1])
    ensures Trim(lead + x + trail) == x
  {
    assert lead + x + trail == lead + (x + trail);
    TrimStartPadded(lead, x + trail);
    TrimEndPadded(x, trail);
  }

  lemma {:induction false} TrimStartPadded(lead: string, s: string)
    requires AllWhiteSpace(lead) && s != [] && !IsWhiteSpace(s[0])
    ensures TrimStart(lead + s) == s
  {
    if lead != [] {
      assert (lead + s)[1..] == lead[1..] + s;
      TrimStartPadded(lead[1..], s);
    }
  }

  lemma {:induction false} TrimEndPadded(s: string, trail: string)
    requires AllWhiteSpace(trail) && s != [] && !IsWhiteSpace(s[|s| - 1])
    ensures TrimEnd(s + trail) == s
  {
    if trail != [] {
      assert (s + trail)[..|s + trail| - 1] == s + trail[..|trail| - 1];
      TrimEndPadded(s, trail[..|trail| - 1]);
    } else {
      assert s + trail == s;
    }
  }

  /** A pattern that starts with a non-space is not found in white space, so `Replace` copies white space through. */
  lemma {:induction false} ReplaceSkipsWhiteSpace(lead: string, rest: string, pattern: string, replacement: string)
    requires AllWhiteSpace(lead) && pattern != [] && !IsWhiteSpace(pattern[0])
    ensures Replace(lead + rest, pattern, replacement) == lead + Replace(rest, pattern, replacement)
  {
    if lead != [] {
      var s := lead + rest;
      if |s| >= |pattern| {
        assert s[..|pattern|][0] == lead[0];
      }
      assert s[1..] == lead[1..] + rest;
      ReplaceSkipsWhiteSpace(lead[1..], rest, pattern, replacement);
    } else {
      assert lead + rest == rest;
    }
  }

  /** `Replace` on a padded pattern rewrites the pattern and keeps the padding. */
  lemma ReplacePadded(lead: string, pattern: string, trail: string, replacement: string)
    requires AllWhiteSpace(lead) && AllWhiteSpace(trail) && pattern != [] && !IsWhiteSpace(pattern[0])
    ensures Replace(lead + pattern + trail, pattern, replacement) == lead + replacement + trail
  {
    assert lead + pattern + trail == lead + (pattern + trail);
    ReplaceSkipsWhiteSpace(lead, pattern + trail, pattern, replacement);
    assert (pattern + trail)[..|pattern|] == pattern && (pattern + trail)[|pattern|..] == trail;
    ReplaceSkipsWhiteSpace(trail, [], pattern, replacement);
    assert trail + [] == trail;
    assert Replace([], pattern, replacement) == [];
    assert lead + (replacement + trail) == lead + replacement + trail;
  }

  /**
   * A line whose trimmed text is `<true />` keeps its indentation and
   * trailing white space and becomes `<true/>` between them.
   */
  lemma FixLineTrue(line: string)
    requires Trim(line) == SpacedTrue
    ensures exists lead, trail ::
      AllWhiteSpace(lead) && AllWhiteSpace(trail) && line == lead + SpacedTrue + trail && FixLine(line) == lead + TightTrue + trail
  {
    TrimSplit(line);
    var lead, trail :| AllWhiteSpace(lead) && AllWhiteSpace(trail) && line == lead + Trim(line) + trail;
    ReplacePadded(lead, SpacedTrue, trail, TightTrue);
    TrimPadded(lead, TightTrue, trail);
  }

  /** The same for `<false />`. */
  lemma FixLineFalse(line: string)
    requires Trim(line) == SpacedFalse
    ensures exists lead, trail ::
      AllWhiteSpace(lead) && AllWhiteSpace(trail) && line == lead + SpacedFalse + trail && FixLine(line) == lead + TightFalse + trail
  {
    TrimSplit(line);
    var lead, trail :| AllWhiteSpace(lead) && AllWhiteSpace(trail) && line == lead + Trim(line) + trail;
    ReplacePadded(lead, SpacedFalse, trail, TightFalse);
  }

  /** A fixed-up line no longer matches, so fixing it again changes nothing. */
  lemma FixLineIdempotent(line: string)
    ensures FixLine(FixLine(line)) == FixLine(line)
  {
    if Trim(line) == SpacedTrue {
      FixLineTrue(line);
      var lead, trail :| AllWhiteSpace(lead) && AllWhiteSpace(trail) &&
        line == lead + SpacedTrue + trail && FixLine(line) == lead + TightTrue + trail;
      TrimPadded(lead, TightTrue, trail);
    } else if Trim(line) == SpacedFalse {
      FixLineFalse(line);
      var lead, trail :| AllWhiteSpace(lead) && AllWhiteSpace(trail) &&
        line == lead + SpacedFalse + trail && FixLine(line) == lead + TightFalse + trail;
      TrimPadded(lead, TightFalse, trail);
    }
  }

  /** The loop's step: the text for one more line is the text so far, the fixed-up line and `\n`. */
  lemma FixedStep(lines: seq<string>, i: nat)
    requires i < |lines|
    ensures WriteLines(FixLines(lines[..i + 1])) == WriteLines(FixLines(lines[..i])) + FixLine(lines[i]) + "\n"
  {
    var a := FixLines(lines[..i + 1]);
    assert a[..i] == FixLines(lines[..i]);
  }

  /** Lines are written one after another: two runs of lines give the two texts in order. */
  lemma {:induction false} WriteLinesAppend(a: seq<string>, b: seq<string>)
    ensures WriteLines(a + b) == WriteLines(a) + WriteLines(b)
  {
    if b == [] {
      assert a + b == a;
    } else {
      var b' := b[..|b| - 1];
      assert (a + b)[..|a + b| - 1] == a + b';
      WriteLinesAppend(a, b');
    }
  }

  /** The fix-up works line by line and keeps the lines in order: the text of two runs of lines is the two texts in order. */
  lemma FixedAppend(a: seq<string>, b: seq<string>)
    ensures Fixed(a + b) == Fixed(a) + Fixed(b)
  {
    assert FixLines(a + b) == FixLines(a) + FixLines(b);
    WriteLinesAppend(FixLines(a), FixLines(b));
  }

  /** Fixing up lines that were already fixed up changes nothing, so the text written is the same. */
  lemma FixLinesIdempotent(lines: seq<string>)
    ensures FixLines(FixLines(lines)) == FixLines(lines)
    ensures Fixed(FixLines(lines)) == Fixed(lines)
  {
    forall i | 0 <= i < |lines|
      ensures FixLine(FixLine(lines[i])) == FixLine(lines[i])
    {
      FixLineIdempotent(lines[i]);
    }
  }
}
