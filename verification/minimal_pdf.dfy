/** The hand-written PDF that `render_score_to_pdf` falls back to when
    reportlab cannot be imported: seven byte chunks written one after the
    other. A PDF reader finds each object through the cross-reference table,
    which gives the object's byte offset from the start of the file. Per
    section 7.5.4 of ISO 32000-1 each entry takes exactly 20 bytes. The
    `startxref` line gives the offset of the table (section 7.5.5), and a
    stream's `/Length` counts the bytes between the end-of-line after
    `stream` and the end-of-line before `endstream` (section 7.3.8).

    The file is ASCII, so one character stands for one byte. */
module MinimalPdf {
  import opened Wrappers
  import opened Text

  // ---------------------------------------------------------------------
  // Chunks and offsets

  /** The file after writing the chunks in order. */
  function Concat(cs: seq<string>): string
    decreases |cs|
  {
    if |cs| == 0 then [] else Concat(cs[..|cs| - 1]) + cs[|cs| - 1]
  }

  /** The byte offset at which chunk `k` starts: the lengths of the chunks
      before it, summed. */
  function Offset(cs: seq<string>, k: nat): nat
    requires k <= |cs|
    decreases k
  {
    if k == 0 then 0 else Offset(cs, k - 1) + |cs[k - 1]|
  }

  /** `text` occurs in `doc` starting at byte `off`. */
  predicate At(doc: string, off: int, text: string) {
    0 <= off && off + |text| <= |doc| && doc[off..off + |text|] == text
  }

  /** Writing more chunks leaves what was written first in place. */
  lemma {:induction false} ConcatAppend(a: seq<string>, b: seq<string>)
    ensures Concat(a + b) == Concat(a) + Concat(b)
    decreases |b|
  {
    if |b| > 0 {
      var n := |b| - 1;
      assert (a + b)[..|a + b| - 1] == a + b[..n];
      ConcatAppend(a, b[..n]);
    } else {
      assert a + b == a;
    }
  }

  /** The file is as long as its chunks together, so each chunk starts
      where the lengths before it add up to. */
  lemma {:induction false} OffsetIsLength(cs: seq<string>, k: nat)
    requires k <= |cs|
    ensures Offset(cs, k) == |Concat(cs[..k])|
    decreases k
  {
    if k > 0 {
      assert cs[..k][..k - 1] == cs[..k - 1];
      OffsetIsLength(cs, k - 1);
    }
  }

  /** Text written between two others sits right after the first. */
  lemma AtMiddle(x: string, t: string, y: string)
    ensures At(x + t + y, |x|, t)
  {
    assert (x + t + y)[|x|..|x| + |t|] == t;
  }

  /** Chunk `k` sits at its offset in the written file. */
  lemma ChunkAt(cs: seq<string>, k: nat)
    requires k < |cs|
    ensures At(Concat(cs), Offset(cs, k), cs[k])
  {
    var pre := cs[..k + 1];
    assert cs == pre + cs[k + 1..];
    ConcatAppend(pre, cs[k + 1..]);
    assert pre[..k] == cs[..k];
    OffsetIsLength(cs, k);
    AtMiddle(Concat(cs[..k]), cs[k], Concat(cs[k + 1..]));
  }

  /** Text found in a file is still found there after more is appended. */
  lemma AtExtend(doc: string, more: string, off: int, text: string)
    requires At(doc, off, text)
    ensures At(doc + more, off, text)
  {
    assert (doc + more)[off..off + |text|] == doc[off..off + |text|];
  }

  /** Text found in a file has its every prefix found at the same place. */
  lemma AtPrefix(doc: string, off: int, text: string, n: nat)
    requires At(doc, off, text) && n <= |text|
    ensures At(doc, off, text[..n])
  {
    assert doc[off..off + n] == doc[off..off + |text|][..n];
  }

  /** Text whose `j`-th byte differs from the first byte of `p` rules out
      finding `p` at that byte. */
  lemma NotAtShifted(doc: string, off: int, text: string, j: nat, p: string)
    requires At(doc, off, text) && j < |text| && |p| > 0 && text[j] != p[0]
    ensures !At(doc, off + j, p)
  {
    assert doc[off..off + |text|][j] == doc[off + j];
  }

  // ---------------------------------------------------------------------
  // Objects, cross-reference entries and the trailer

  /** The start of a content stream object declaring `length` bytes of data. */
  function StreamHead(num: nat, length: nat): string {
    ObjectLine(num) + LengthLine(length) + "stream\n"
  }

  /** The line opening object `num`, generation 0. */
  function ObjectLine(num: nat): string {
    NatToString(num) + " 0 obj\n"
  }

  /** A stream dictionary holding only its length. */
  function LengthLine(length: nat): string {
    "<< /Length " + NatToString(length) + " >>\n"
  }

  const StreamTail: string := "\nendstream\n" + "endobj\n"

  /** A content stream object whose `/Length` is the size of its data. */
  function StreamObject(num: nat, data: string): string {
    StreamHead(num, |data|) + data + StreamTail
  }

  /** `n` in decimal, left-padded with zeros to ten digits; longer numbers
      are left as they are. */
  function Pad10(n: nat): (s: string)
    ensures AllDigits(s) && |s| >= 10
    ensures |NatToString(n)| <= 10 ==> |s| == 10
  {
    var d := NatToString(n);
    if |d| >= 10 then d else Zeros(10 - |d|) + d
  }

  function Zeros(k: nat): (s: string)
    ensures |s| == k && AllDigits(s)
  {
    seq(k, _ => '0')
  }

  /** A cross-reference entry for an object in use at byte `off`, ended by
      `eol`. */
  function Entry(off: nat, eol: string): string {
    Pad10(off) + " 00000 n" + eol
  }

  /** The entries for the given offsets, in order. */
  function Entries(offs: seq<nat>, eol: string): string
    decreases |offs|
  {
    if |offs| == 0 then [] else Entries(offs[..|offs| - 1], eol) + Entry(offs[|offs| - 1], eol)
  }

  /** The cross-reference section: one subsection from object 0, the free
      head entry for object 0, then one entry per object. */
  function XrefTable(offs: seq<nat>, eol: string): string {
    "xref\n" + SubsectionLine(|offs| + 1) + FreeEntry(eol) + Entries(offs, eol)
  }

  /** A subsection of `count` objects starting at object 0. */
  function SubsectionLine(count: nat): string {
    "0 " + NatToString(count) + "\n"
  }

  /** Object 0: the head of the free list, generation 65535. */
  function FreeEntry(eol: string): string {
    "0000000000 65535 f" + eol
  }

  /** The trailer, pointing at the catalog (object 1) and at the table. */
  function Trailer(size: nat, start: nat): string {
    "trailer\n" + RootLine(size) + "startxref\n" + NumberLine(start) + "%%EOF\n"
  }

  /** The trailer dictionary: `size` objects, catalog at object 1. */
  function RootLine(size: nat): string {
    "<< /Size " + NatToString(size) + " /Root 1 0 R >>\n"
  }

  function NumberLine(n: nat): string {
    NatToString(n) + "\n"
  }

  /** Reads the offset back out of an in-use entry ended by " \n". */
  function ReadEntry(e: string): Option<nat> {
    if |e| < 11 || e[|e| - 10..] != " 00000 n \n" || !AllDigits(e[..|e| - 10]) then None
    else Some(DigitsValue(e[..|e| - 10]))
  }

  /** Leading zeros do not change the number a digit string denotes. */
  lemma {:induction false} DigitsValueZeros(k: nat, s: string)
    requires AllDigits(s)
    ensures DigitsValue(Zeros(k) + s) == DigitsValue(s)
    decreases |s|
  {
    var z := Zeros(k);
    if |s| > 0 {
      var n := |s| - 1;
      assert (z + s)[..|z + s| - 1] == z + s[..n];
      DigitsValueZeros(k, s[..n]);
    } else {
      assert z + s == z;
      ZerosValue(k);
    }
  }

  lemma {:induction false} ZerosValue(k: nat)
    ensures DigitsValue(Zeros(k)) == 0
    decreases k
  {
    if k > 0 {
      assert Zeros(k)[..k - 1] == Zeros(k - 1);
      ZerosValue(k - 1);
    }
  }

  /** Zero padding keeps the number. */
  lemma Pad10Value(n: nat)
    ensures DigitsValue(Pad10(n)) == n
  {
    var d := NatToString(n);
    DigitsValueOfNatToString(n);
    if |d| < 10 {
      DigitsValueZeros(10 - |d|, d);
    }
  }

  /** An entry ended by space and line feed is 20 bytes whenever the offset
      fits in ten digits, and reads back to the offset it records. */
  lemma EntryRoundTrip(off: nat)
    ensures |NatToString(off)| <= 10 ==> |Entry(off, " \n")| == 20
    ensures ReadEntry(Entry(off, " \n")) == Some(off)
  {
    var p := Pad10(off);
    var e := Entry(off, " \n");
    assert e == p + " 00000 n \n";
    assert e[..|e| - 10] == p && e[|e| - 10..] == " 00000 n \n";
    Pad10Value(off);
  }

  /** The first digit of a stream object's declared length sits 18 bytes
      after its object number. */
  lemma LengthDigitAt(num: nat, length: nat)
    ensures var h := StreamHead(num, length);
      |h| > |NatToString(num)| + 18 && h[|NatToString(num)| + 18] == NatToString(length)[0]
  {
    var h := StreamHead(num, length);
    assert h == ObjectLine(num) + (LengthLine(length) + "stream\n");
    assert LengthLine(length)[11] == NatToString(length)[0];
  }

  /** The table opens with the `xref` keyword line. */
  lemma XrefStarts(offs: seq<nat>, eol: string, more: string)
    ensures |XrefTable(offs, eol) + more| >= 5 && (XrefTable(offs, eol) + more)[..5] == "xref\n"
  {
    var x := "xref\n";
    KeepsPrefix(x, x, SubsectionLine(|offs| + 1));
    KeepsPrefix(x, x + SubsectionLine(|offs| + 1), FreeEntry(eol));
    KeepsPrefix(x, x + SubsectionLine(|offs| + 1) + FreeEntry(eol), Entries(offs, eol));
    KeepsPrefix(x, XrefTable(offs, eol), more);
  }

  /** Appending keeps a prefix. */
  lemma KeepsPrefix(p: string, a: string, b: string)
    requires |p| <= |a| && a[..|p|] == p
    ensures |p| <= |a + b| && (a + b)[..|p|] == p
  {
    assert (a + b)[..|p|] == a[..|p|];
  }

  // ---------------------------------------------------------------------
  // A consistent file

  /** The offsets the objects land at, after the header. */
  function ObjectOffsets(header: string, objects: seq<string>): (offs: seq<nat>)
    ensures |offs| == |objects|
  {
    seq(|objects|, k requires 0 <= k < |objects| => Offset([header] + objects, k + 1))
  }

  /** Where the cross-reference table lands: after the header and every
      object. */
  function StartXref(header: string, objects: seq<string>): nat {
    Offset([header] + objects, |objects| + 1)
  }

  /** The file written with offsets computed from the chunks it writes, and
      20-byte entries. */
  function Build(header: string, objects: seq<string>): string {
    Concat([header] + objects)
      + (XrefTable(ObjectOffsets(header, objects), " \n")
         + Trailer(|objects| + 1, StartXref(header, objects)))
  }

  /** Every offset such a file records leads to its object, and the
      recorded start of the table leads to the `xref` keyword. */
  lemma BuildConsistent(header: string, objects: seq<string>)
    ensures forall k :: 0 <= k < |objects| ==>
      At(Build(header, objects), ObjectOffsets(header, objects)[k], objects[k])
    ensures At(Build(header, objects), StartXref(header, objects), "xref\n")
  {
    var body := [header] + objects;
    var rest := XrefTable(ObjectOffsets(header, objects), " \n")
      + Trailer(|objects| + 1, StartXref(header, objects));
    BuiltFrom(header, objects, rest);
    XrefStarts(ObjectOffsets(header, objects), " \n", Trailer(|objects| + 1, StartXref(header, objects)));
    AtPrefix(Concat(body) + rest, Offset(body, |body|), rest, 5);
  }

  /** A header and objects written before anything else: each object at the
      offset `ObjectOffsets` gives it, and the rest at `StartXref`. */
  lemma BuiltFrom(header: string, objects: seq<string>, rest: string)
    ensures forall k :: 0 <= k < |objects| ==>
      At(Concat([header] + objects) + rest, ObjectOffsets(header, objects)[k], objects[k])
    ensures At(Concat([header] + objects) + rest, StartXref(header, objects), rest)
  {
    forall k | 0 <= k < |objects|
      ensures At(Concat([header] + objects) + rest, ObjectOffsets(header, objects)[k], objects[k])
    {
      ObjectAt(header, objects, rest, k);
    }
    RestAt([header] + objects, rest);
  }

  lemma ObjectAt(header: string, objects: seq<string>, rest: string, k: nat)
    requires k < |objects|
    ensures At(Concat([header] + objects) + rest, ObjectOffsets(header, objects)[k], objects[k])
  {
    var body := [header] + objects;
    assert body[k + 1] == objects[k];
    assert ObjectOffsets(header, objects)[k] == Offset(body, k + 1);
    ChunkAt(body, k + 1);
    AtExtend(Concat(body), rest, Offset(body, k + 1), objects[k]);
  }

  /** What follows the chunks starts where the chunks' lengths add up to. */
  lemma RestAt(body: seq<string>, rest: string)
    ensures At(Concat(body) + rest, Offset(body, |body|), rest)
  {
    OffsetIsLength(body, |body|);
    assert body[..|body|] == body;
    AtMiddle(Concat(body), rest, []);
    assert Concat(body) + rest + [] == Concat(body) + rest;
  }

  // ---------------------------------------------------------------------
  // The file as written

  const Header: string := "%PDF-1.4\n"
  const Catalog: string := "1 0 obj\n" + "<< /Type /Catalog /Pages 2 0 R >>\n" + "endobj\n"
  const Pages: string := "2 0 obj\n" + "<< /Type /Pages /Kids [3 0 R] /Count 1 >>\n" + "endobj\n"
  const Page: string :=
    "3 0 obj\n" + "<< /Type /Page /Parent 2 0 R /MediaBox [0 0 612 792] /Contents 4 0 R >>\n" + "endobj\n"
  /** The page's drawing operators: the text "Sheet Music" at (50, 750). */
  const Data: string := "BT\n" + "/F1 12 Tf\n" + "50 750 Td\n" + "(Sheet Music) Tj\n" + "ET"
  const Contents: string :=
    "4 0 obj\n" + "<< /Length 50 >>\n" + "stream\n" + Data + "\nendstream\n" + "endobj\n"
  const XrefWritten: string :=
    "xref\n" + "0 5\n" + "0000000000 65535 f\n" + "0000000009 00000 n\n" + "0000000058 00000 n\n"
    + "0000000115 00000 n\n" + "0000000203 00000 n\n"
  const TrailerWritten: string :=
    "trailer\n" + "<< /Size 5 /Root 1 0 R >>\n" + "startxref\n" + "303\n" + "%%EOF\n"

  /** The seven writes. */
  const Written: seq<string> := [Header, Catalog, Pages, Page, Contents, XrefWritten, TrailerWritten]

  /** The offsets and the table start the file records. */
  const DeclaredOffsets: seq<nat> := [9, 58, 115, 203]
  const DeclaredStartXref: nat := 303

  /** The written stream object declares 50 bytes. */
  lemma WrittenStreamDeclares()
    ensures Contents == StreamHead(4, 50) + Data + StreamTail
  {
    assert NatToString(4) == "4";
    assert ObjectLine(4) == "4 0 obj\n";
    Spelled(50, 5, '0');
    assert NatToString(50) == "50";
    assert LengthLine(50) == "<< /Length 50 >>\n";
    Assoc(StreamHead(4, 50) + Data, "\nendstream\n", "endobj\n");
  }

  /** The written table records the declared offsets, in entries ended by a
      bare line feed. */
  lemma WrittenXrefDeclares()
    ensures XrefWritten == XrefTable(DeclaredOffsets, "\n")
  {
    assert NatToString(5) == "5";
    assert SubsectionLine(5) == "0 5\n";
    assert FreeEntry("\n") == "0000000000 65535 f\n";
    EntriesWritten();
    EntryLines();
    var l1, l2, l3, l4 := "0000000009 00000 n\n", "0000000058 00000 n\n", "0000000115 00000 n\n", "0000000203 00000 n\n";
    var head := "xref\n" + "0 5\n" + "0000000000 65535 f\n";
    assert XrefTable(DeclaredOffsets, "\n") == head + (l1 + l2 + l3 + l4);
    Assoc(head, l1 + l2 + l3, l4);
    Assoc(head, l1 + l2, l3);
    Assoc(head, l1, l2);
  }

  lemma Assoc(a: string, b: string, c: string)
    ensures a + (b + c) == a + b + c
  {
  }

  /** The written trailer records the declared table start. */
  lemma WrittenTrailerDeclares()
    ensures TrailerWritten == Trailer(5, DeclaredStartXref)
  {
    assert NatToString(5) == "5";
    assert RootLine(5) == "<< /Size 5 /Root 1 0 R >>\n";
    Spelled(30, 3, '0');
    Spelled(303, 30, '3');
    assert NatToString(303) == "303";
    assert NumberLine(303) == "303\n";
  }

  /** The recorded entries, one per object. */
  lemma EntriesWritten()
    ensures Entries(DeclaredOffsets, "\n")
      == Entry(9, "\n") + Entry(58, "\n") + Entry(115, "\n") + Entry(203, "\n")
  {
    var offs := DeclaredOffsets;
    assert offs[..3] == [9, 58, 115] && offs[..3][..2] == [9, 58];
    assert offs[..3][..2][..1] == [9] && [9][..0] == [];
    assert Entries([9], "\n") == Entry(9, "\n");
  }

  /** The recorded entries, spelled out. */
  lemma EntryLines()
    ensures Entry(9, "\n") == "0000000009 00000 n\n"
    ensures Entry(58, "\n") == "0000000058 00000 n\n"
    ensures Entry(115, "\n") == "0000000115 00000 n\n"
    ensures Entry(203, "\n") == "0000000203 00000 n\n"
  {
    DeclaredDigits();
    FirstEntryLines();
    EntryLine(115, "115", "0000000", "0000000115 00000 n\n");
    EntryLine(203, "203", "0000000", "0000000203 00000 n\n");
  }

  lemma FirstEntryLines()
    ensures Entry(9, "\n") == "0000000009 00000 n\n"
    ensures Entry(58, "\n") == "0000000058 00000 n\n"
  {
    DeclaredDigits();
    EntryLine(9, "9", "000000000", "0000000009 00000 n\n");
    EntryLine(58, "58", "00000000", "0000000058 00000 n\n");
  }

  /** The decimal digits of the declared offsets. */
  lemma DeclaredDigits()
    ensures NatToString(9) == "9" && NatToString(58) == "58"
    ensures NatToString(115) == "115" && NatToString(203) == "203"
  {
    Spelled(58, 5, '8');
    Spelled(11, 1, '1');
    Spelled(115, 11, '5');
    Spelled(20, 2, '0');
    Spelled(203, 20, '3');
  }

  /** A number's decimal digits are those of its tenth followed by its last
      digit. */
  lemma Spelled(n: nat, tenth: nat, last: char)
    requires n >= 10 && tenth == n / 10 && last == DigitChar(n % 10)
    ensures NatToString(n) == NatToString(tenth) + [last]
  {
  }

  /** One recorded entry, spelled out from its digits. */
  lemma EntryLine(off: nat, digits: string, zeros: string, line: string)
    requires NatToString(off) == digits && |digits| <= 10
    requires zeros == seq(10 - |digits|, _ => '0')
    requires line == zeros + digits + " 00000 n\n"
    ensures Entry(off, "\n") == line
  {
    assert Pad10(off) == zeros + digits;
  }

  /** Where the writes actually land: the objects at 9, 58, 115 and 202,
      the table at 294. */
  lemma WrittenOffsets()
    ensures Offset(Written, 1) == 9 && Offset(Written, 2) == 58
    ensures Offset(Written, 3) == 115 && Offset(Written, 4) == 202
    ensures Offset(Written, 5) == 294
  {
  }

  /** The file opens with the `%PDF-1.4` header and closes with the
      end-of-file marker. */
  lemma WrittenFrame()
    ensures At(Concat(Written), 0, "%PDF-1.4\n")
    ensures |Concat(Written)| >= 6 && At(Concat(Written), |Concat(Written)| - 6, "%%EOF\n")
  {
    ChunkAt(Written, 0);
    var front := "trailer\n" + "<< /Size 5 /Root 1 0 R >>\n" + "startxref\n" + "303\n";
    assert Concat(Written) == Concat(Written[..6]) + (front + "%%EOF\n");
    AtEnd(Concat(Written[..6]) + front, "%%EOF\n");
  }

  /** Text written last sits at the end. */
  lemma AtEnd(x: string, t: string)
    ensures At(x + t, |x|, t)
  {
    assert (x + t)[|x|..|x| + |t|] == t;
  }

  /** The first three recorded offsets are right. */
  lemma WrittenFirstOffsetsRight()
    ensures forall k :: 0 <= k < 3 ==> At(Concat(Written), DeclaredOffsets[k], Written[k + 1])
  {
    WrittenOffsets();
    ChunkAt(Written, 1);
    ChunkAt(Written, 2);
    ChunkAt(Written, 3);
  }

  /** Object 4 starts one byte before its recorded offset: at 203 a reader
      finds the space after "4", not the object header. */
  lemma WrittenObjectFourMisplaced()
    ensures At(Concat(Written), 202, Contents)
    ensures !At(Concat(Written), DeclaredOffsets[3], Contents)
  {
    WrittenOffsets();
    ChunkAt(Written, 4);
    assert Contents[0] == '4' && Contents[1] == ' ';
    NotAtShifted(Concat(Written), 202, Contents, 1, Contents);
  }

  /** The table starts at 294, not at the recorded 303, which falls inside
      the table on the first entry's digits. */
  lemma WrittenStartXrefMisplaced()
    ensures At(Concat(Written), 294, XrefWritten) && XrefWritten[..5] == "xref\n"
    ensures !At(Concat(Written), DeclaredStartXref, "xref\n")
  {
    WrittenOffsets();
    ChunkAt(Written, 5);
    assert XrefWritten[..5] == "xref\n" && XrefWritten[9] == '0';
    NotAtShifted(Concat(Written), 294, XrefWritten, 9, "xref\n");
  }

  /** The stream holds 42 bytes of data but declares 50. */
  lemma WrittenLengthWrong()
    ensures |Data| == 42 != 50
    ensures Contents != StreamObject(4, Data)
  {
    WrittenStreamDeclares();
    assert NatToString(4) == "4";
    Spelled(50, 5, '0');
    Spelled(42, 4, '2');
    LengthDigitAt(4, 50);
    LengthDigitAt(4, 42);
    FirstDiffers(StreamHead(4, 50), StreamHead(4, 42), Data + StreamTail, 19);
    Assoc(StreamHead(4, 50), Data, StreamTail);
    Assoc(StreamHead(4, 42), Data, StreamTail);
  }

  /** Two texts that differ at a byte stay different whatever follows. */
  lemma FirstDiffers(a: string, b: string, tail: string, i: nat)
    requires i < |a| && i < |b| && a[i] != b[i]
    ensures a + tail != b + tail
  {
    assert (a + tail)[i] == a[i] && (b + tail)[i] == b[i];
  }

  /** Every written entry is 19 bytes, one short of the fixed 20 the table
      format needs: a bare line feed stands where two end-of-line bytes
      belong. */
  lemma WrittenEntriesShort(off: nat)
    requires |NatToString(off)| <= 10
    ensures |Entry(off, "\n")| == 19
    ensures |Entry(off, " \n")| == 20
  {
  }

  // ---------------------------------------------------------------------
  // The file as intended

  /** The same page with its `/Length` counted and 20-byte entries. */
  function Corrected(): string {
    Build(Header, [Catalog, Pages, Page, StreamObject(4, Data)])
  }

  /** The corrected stream object declares the data's true length, 42, in
      place of 50, and so keeps the written object's size. */
  lemma CorrectedStream()
    ensures |StreamObject(4, Data)| == |Contents| == 92
  {
    assert NatToString(42) == NatToString(4) + ['2'];
    assert NatToString(4) == "4";
    assert |Data| == 42;
    WrittenStreamDeclares();
  }

  /** The corrected file puts its objects at 9, 58, 115 and 202 and its
      table at 294, the offsets the written file meant to record. */
  lemma CorrectedOffsets()
    ensures ObjectOffsets(Header, [Catalog, Pages, Page, StreamObject(4, Data)]) == [9, 58, 115, 202]
    ensures StartXref(Header, [Catalog, Pages, Page, StreamObject(4, Data)]) == 294
  {
    var objects := [Catalog, Pages, Page, StreamObject(4, Data)];
    var body := [Header] + objects;
    CorrectedStream();
    assert Offset(body, 4) == 202 && Offset(body, 5) == 294;
    var offs := ObjectOffsets(Header, objects);
    assert offs[0] == 9 && offs[1] == 58 && offs[2] == 115 && offs[3] == 202;
  }

  /** In the corrected file the recorded offsets lead to the objects and
      the recorded table start to the table: the stream object at 202 and
      the `xref` keyword at 294. */
  lemma CorrectedConsistent()
    ensures forall k :: 0 <= k < 4 ==>
      At(Corrected(), [9, 58, 115, 202][k], [Catalog, Pages, Page, StreamObject(4, Data)][k])
    ensures At(Corrected(), 294, "xref\n")
  {
    CorrectedOffsets();
    BuildConsistent(Header, [Catalog, Pages, Page, StreamObject(4, Data)]);
  }
}
