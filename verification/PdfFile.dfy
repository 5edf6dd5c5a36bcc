/** The file the hand-rolled PDF writer emits (`_simple_pdf`, `backend/scripts/seed_demo/media.py:447-482`), against
    readers for sections 7.5.4 and 7.5.5 of ISO 32000-1: following `startxref` to the cross-reference table, and its
    entries to the objects. `PdfViewer` goes on from there.
 */
module PdfFile {
  import opened AsciiText
  import opened Basics
  import opened PdfText

  /* ---------- Numbers ---------- */

  function Digit(n: nat): char
    requires n < 10
  {
    ('0' as int + n) as char
  }

  /** `str(n)`. */
  function Dec(n: nat): string {
    if n < 10 then [Digit(n)] else Dec(n / 10) + [Digit(n % 10)]
  }

  function Zeros(k: nat): string {
    if k == 0 then "" else "0" + Zeros(k - 1)
  }

  /** `f"{n:010d}"`. */
  function Pad10(n: nat): string {
    if |Dec(n)| < 10 then Zeros(10 - |Dec(n)|) + Dec(n) else Dec(n)
  }

  function Power10(k: nat): nat {
    if k == 0 then 1 else 10 * Power10(k - 1)
  }

  lemma {:induction false} DecReads(n: nat)
    ensures AllDigits(Dec(n)) && Dec(n) != "" && Value(Dec(n)) == n
  {
    if n < 10 {
      assert Dec(n)[..0] == "";
    } else {
      DecReads(n / 10);
      assert Dec(n)[..|Dec(n)| - 1] == Dec(n / 10);
    }
  }

  /** A number has at most `k` digits exactly when it is below the power. */
  lemma {:induction false} DecLength(n: nat, k: nat)
    requires k > 0
    ensures |Dec(n)| <= k <==> n < Power10(k)
  {
    if n < 10 {
      PowerPositive(k - 1);
    } else if k > 1 {
      DecLength(n / 10, k - 1);
    } else {
      assert Power10(1) == 10 * Power10(0);
      DecReads(n / 10);
    }
  }

  lemma {:induction false} PowerPositive(k: nat)
    ensures Power10(k) >= 1
  {
    if k > 0 {
      PowerPositive(k - 1);
    }
  }

  lemma {:induction false} ValueConcat(s: string, t: string)
    requires AllDigits(s) && AllDigits(t) && Value(s) == 0
    ensures AllDigits(s + t) && Value(s + t) == Value(t)
  {
    if t == "" {
      assert s + t == s;
    } else {
      ValueConcat(s, t[..|t| - 1]);
      assert (s + t)[..|s + t| - 1] == s + t[..|t| - 1];
    }
  }

  lemma {:induction false} ZerosRead(k: nat)
    ensures |Zeros(k)| == k && AllDigits(Zeros(k)) && Value(Zeros(k)) == 0
  {
    if k > 0 {
      ZerosRead(k - 1);
      ValueConcat("0", Zeros(k - 1));
    }
  }

  lemma Pad10Reads(n: nat)
    ensures AllDigits(Pad10(n)) && Value(Pad10(n)) == n
    ensures |Pad10(n)| == if n < Power10(10) then 10 else |Dec(n)|
    ensures n >= Power10(10) ==> |Pad10(n)| > 10
  {
    DecReads(n);
    DecLength(n, 10);
    DecLength(n, 9);
    if |Dec(n)| < 10 {
      ZerosRead(10 - |Dec(n)|);
      ValueConcat(Zeros(10 - |Dec(n)|), Dec(n));
    }
  }

  /* ---------- Writing ---------- */

  function Joined(words: seq<string>): string {
    if words == [] then "" else words[0] + Joined(words[1..])
  }

  const HEADER := "%PDF-1.4\n"
  /** The dictionaries, word by word. */
  const CATALOG: seq<string> := ["<< ", "/Type ", "/Catalog ", "/Pages ", "2", " 0 R >>"]
  const PAGES: seq<string> := ["<< ", "/Type ", "/Pages ", "/Kids [", "3", " 0 R] ", "/Count ", "1", " >>"]
  const PAGE_TREE: seq<string> := ["<< ", "/Type ", "/Page ", "/Parent ", "2", " 0 R "]
  const PAGE_BOX: seq<string> := ["/MediaBox [", "0 0 595 842", "] "]
  const PAGE_FONTS: seq<string> := ["/Resources << ", "/Font << ", "/F1 ", "5", " 0 R >> >> "]
  const PAGE_CONTENTS: seq<string> := ["/Contents ", "4", " 0 R >>"]
  const PAGE: seq<string> := PAGE_TREE + (PAGE_BOX + (PAGE_FONTS + PAGE_CONTENTS))
  const FONT: seq<string> := [
    "<< ", "/Type ", "/Font ", "/Subtype ", "/Type1 ", "/BaseFont ", "/Helvetica ", "/Encoding ", "/WinAnsiEncoding >>"]
  const FREE_ENTRY := "0000000000 65535 f \n"

  function StreamObject(stream: string): string {
    "<< /Length " + Dec(|stream|) + " >>\nstream\n" + stream + "\nendstream"
  }

  /** The five objects, given the content stream. */
  function Objects(stream: string): seq<string> {
    [Joined(CATALOG), Joined(PAGES), Joined(PAGE), StreamObject(stream), Joined(FONT)]
  }

  function ObjectText(number: nat, obj: string): string {
    Dec(number) + " 0 obj\n" + obj + "\nendobj\n"
  }

  /** The output once the first `k` objects are written. */
  function Body(objects: seq<string>, k: nat): string
    requires k <= |objects|
  {
    if k == 0 then HEADER else Body(objects, k - 1) + ObjectText(k, objects[k - 1])
  }

  /** Where object `number` begins. */
  function Offset(objects: seq<string>, number: nat): nat
    requires 1 <= number <= |objects|
  {
    |Body(objects, number - 1)|
  }

  function Entry(offset: nat): string {
    Pad10(offset) + " 00000 n \n"
  }

  /** The table down to entry `k`; entry 0 heads the free list. */
  function Entries(objects: seq<string>, k: nat): string
    requires k <= |objects|
  {
    if k == 0 then FREE_ENTRY else Entries(objects, k - 1) + Entry(Offset(objects, k))
  }

  function XrefAt(objects: seq<string>): nat {
    |Body(objects, |objects|)|
  }

  function HeadOf(size: nat): string {
    "xref\n0 " + Dec(size) + "\n"
  }

  function XrefHead(objects: seq<string>): string {
    HeadOf(|objects| + 1)
  }

  function TrailerWords(size: nat): seq<string> {
    ["<< ", "/Size ", Dec(size), " ", "/Root ", "1", " 0 R >>"]
  }

  function TrailerDictionary(objects: seq<string>): string {
    Joined(TrailerWords(|objects| + 1))
  }

  function TrailerAt(objects: seq<string>, xrefAt: nat): string {
    ("trailer" + "\n") + (TrailerDictionary(objects) + "\n")
      + ("startxref" + "\n") + (Dec(xrefAt) + "\n") + ("%%EOF" + "\n")
  }

  function Trailer(objects: seq<string>): string {
    TrailerAt(objects, XrefAt(objects))
  }

  function File(objects: seq<string>): string {
    Body(objects, |objects|) + AfterObjects(objects, |objects|)
  }

  /** What follows the first `k` objects. */
  function AfterObjects(objects: seq<string>, k: nat): string
    requires k <= |objects|
    decreases |objects| - k
  {
    if k < |objects| then ObjectText(k + 1, objects[k]) + AfterObjects(objects, k + 1)
    else XrefHead(objects) + (Entries(objects, k) + Trailer(objects))
  }

  /** What follows the first `k` entries. */
  function AfterEntries(objects: seq<string>, k: nat): string
    requires k <= |objects|
    decreases |objects| - k
  {
    if k < |objects| then Entry(Offset(objects, k + 1)) + AfterEntries(objects, k + 1) else Trailer(objects)
  }

  method BuildParts(title: string, lines: seq<string>) returns (parts: seq<string>)
    ensures parts == Parts(title, lines)
  {
    parts := ["BT", "/F1 16 Tf", "72 770 Td", "(" + Escape(title) + ") Tj", "/F1 11 Tf", "0 -30 Td"];
    ghost var head := parts;
    for i := 0 to |lines|
      invariant parts + LineParts(lines[i..]) == head + LineParts(lines)
    {
      PartsStep(parts, lines[i..]);
      assert lines[i..][1..] == lines[i + 1..];
      parts := parts + ["(" + Escape(lines[i]) + ") Tj", "0 -16 Td"];
    }
    parts := parts + ["ET"];
  }

  lemma PartsAssoc(a: seq<string>, b: seq<string>, c: seq<string>)
    ensures a + b + c == a + (b + c)
  {
  }

  lemma PartsStep(parts: seq<string>, lines: seq<string>)
    requires lines != []
    ensures parts + ["(" + Escape(lines[0]) + ") Tj", "0 -16 Td"] + LineParts(lines[1..]) == parts + LineParts(lines)
  {
    PartsAssoc(parts, ["(" + Escape(lines[0]) + ") Tj", "0 -16 Td"], LineParts(lines[1..]));
  }

  /** The objects, and where each of them began. */
  method WriteObjects(objects: seq<string>) returns (out: string, offsets: seq<nat>)
    ensures out == Body(objects, |objects|)
    ensures |offsets| == |objects| && forall i :: 0 <= i < |offsets| ==> offsets[i] == Offset(objects, i + 1)
  {
    out, offsets := HEADER, [];
    for k := 0 to |objects|
      invariant out == Body(objects, k)
      invariant |offsets| == k && forall i :: 0 <= i < k ==> offsets[i] == Offset(objects, i + 1)
    {
      offsets := offsets + [|out|];
      out := out + ObjectText(k + 1, objects[k]);
    }
  }

  method WriteEntries(ghost objects: seq<string>, offsets: seq<nat>) returns (table: string)
    requires |offsets| == |objects| && forall i :: 0 <= i < |offsets| ==> offsets[i] == Offset(objects, i + 1)
    ensures table == Entries(objects, |objects|)
  {
    table := FREE_ENTRY;
    for k := 0 to |offsets|
      invariant table == Entries(objects, k)
    {
      table := table + Entry(offsets[k]);
    }
  }

  method Assemble(objects: seq<string>) returns (out: string)
    ensures out == File(objects)
  {
    var body, offsets := WriteObjects(objects);
    var table := WriteEntries(objects, offsets);
    out := body + (XrefHead(objects) + (table + TrailerAt(objects, |body|)));
  }

  /** `_simple_pdf`. */
  method SimplePdf(title: string, lines: seq<string>) returns (out: string)
    ensures out == File(Objects(ContentStream(title, lines)))
  {
    var parts := BuildParts(title, lines);
    var stream := Encode(Lines(parts));
    out := Assemble(Objects(stream));
  }

  /* ---------- Reading ---------- */

  function From(b: string, at: nat): string {
    if at <= |b| then b[at..] else ""
  }

  /** Where the last line of `b` starts, when `b` ends within that line. */
  function LineStart(b: string): (start: nat)
    ensures start <= |b|
  {
    if b == "" || b[|b| - 1] == '\n' then |b| else LineStart(b[..|b| - 1])
  }

  /** What precedes the last line, and that line without its line feed. */
  function LastLine(b: string): Option<(string, string)> {
    if b == "" || b[|b| - 1] != '\n' then None
    else
      var s := LineStart(b[..|b| - 1]);
      Some((b[..s], b[s..|b| - 1]))
  }

  /** Section 7.5.5: the last line is the end marker, the one before it the offset, before that the keyword. */
  function StartXref(b: string): Option<nat> {
    match LastLine(b)
    case None => None
    case Some((b1, marker)) =>
      match LastLine(b1)
      case None => None
      case Some((b2, offset)) =>
        match LastLine(b2)
        case None => None
        case Some((_, keyword)) =>
          if marker == "%%EOF" && keyword == "startxref" && offset != "" && AllDigits(offset)
            then Some(Value(offset)) else None
  }

  /** Section 7.5.4: an entry of a table of fixed 20-byte entries, for an object in use. */
  function EntryOf(e: string): Option<nat> {
    if |e| >= 20 && AllDigits(e[..10]) && e[10..20] == " 00000 n \n" then Some(Value(e[..10])) else None
  }

  /** Entry `number` of the table at `xref`, whose head takes `head` bytes. */
  function ReadEntry(b: string, xref: nat, head: nat, number: nat): Option<nat> {
    EntryOf(From(b, xref + head + 20 * number))
  }

  /* ---------- The table agrees with the bytes ---------- */

  lemma FromConcat(a: string, b: string)
    ensures From(a + b, |a|) == b
  {
  }

  ghost predicate EndsLine(a: string) {
    a != "" && a[|a| - 1] == '\n'
  }

  lemma {:induction false} LineStartOf(a: string, line: string)
    requires EndsLine(a) && forall i :: 0 <= i < |line| ==> line[i] != '\n'
    ensures LineStart(a + line) == |a|
  {
    if line == "" {
      assert a + line == a;
    } else {
      LineStartOf(a, line[..|line| - 1]);
      assert (a + line)[..|a + line| - 1] == a + line[..|line| - 1];
    }
  }

  lemma LastLineOf(a: string, line: string)
    requires EndsLine(a) && forall i :: 0 <= i < |line| ==> line[i] != '\n'
    ensures LastLine(a + (line + "\n")) == Some((a, line)) && EndsLine(a + (line + "\n"))
  {
    var b := a + (line + "\n");
    assert b[..|b| - 1] == a + line;
    LineStartOf(a, line);
    assert b[|a|..|b| - 1] == line && b[..|a|] == a;
  }

  /** The three last lines of a file, read from the end. */
  lemma StartXrefReads(a: string, n: nat)
    requires EndsLine(a)
    ensures StartXref(a + ("startxref" + "\n") + (Dec(n) + "\n") + ("%%EOF" + "\n")) == Some(n)
  {
    DecReads(n);
    LastLineOf(a, "startxref");
    LastLineOf(a + ("startxref" + "\n"), Dec(n));
    LastLineOf(a + ("startxref" + "\n") + (Dec(n) + "\n"), "%%EOF");
  }

  lemma {:induction false} FileSplits(objects: seq<string>, k: nat)
    requires k <= |objects|
    ensures File(objects) == Body(objects, k) + AfterObjects(objects, k)
    decreases |objects| - k
  {
    if k < |objects| {
      FileSplits(objects, k + 1);
      Assoc(Body(objects, k), ObjectText(k + 1, objects[k]), AfterObjects(objects, k + 1));
    }
  }

  lemma {:induction false} TableSplits(objects: seq<string>, k: nat)
    requires k <= |objects|
    ensures Entries(objects, |objects|) + Trailer(objects) == Entries(objects, k) + AfterEntries(objects, k)
    decreases |objects| - k
  {
    if k < |objects| {
      TableSplits(objects, k + 1);
      Assoc(Entries(objects, k), Entry(Offset(objects, k + 1)), AfterEntries(objects, k + 1));
    }
  }

  lemma {:induction false} BodyGrows(objects: seq<string>, j: nat, k: nat)
    requires j <= k <= |objects|
    ensures |Body(objects, j)| <= |Body(objects, k)|
  {
    if j < k {
      BodyGrows(objects, j, k - 1);
    }
  }

  lemma {:induction false} EntriesLength(objects: seq<string>, k: nat)
    requires k <= |objects| && forall i :: 1 <= i <= k ==> Offset(objects, i) < Power10(10)
    ensures |Entries(objects, k)| == 20 * (k + 1)
  {
    if k > 0 {
      EntriesLength(objects, k - 1);
      Pad10Reads(Offset(objects, k));
    }
  }

  lemma Regroup(a: string, b: string, c: string, rest: string)
    ensures a + (b + (c + rest)) == (a + (b + c)) + rest
  {
    Assoc(b, c, rest);
    Assoc(a, b + c, rest);
  }

  lemma PlaceOf(file: string, a: string, b: string, c: string, rest: string, place: nat)
    requires file == a + (b + (c + rest)) && place == |a| + |b| + |c|
    ensures From(file, place) == rest
  {
    Regroup(a, b, c, rest);
    FromConcat(a + (b + c), rest);
  }

  /** The bytes from entry `number` on, when every entry before it has its 20 bytes. */
  lemma EntryPlace(objects: seq<string>, number: nat)
    requires 1 <= number <= |objects|
    requires forall i :: 1 <= i < number ==> Offset(objects, i) < Power10(10)
    ensures From(File(objects), XrefAt(objects) + |XrefHead(objects)| + 20 * number)
      == AfterEntries(objects, number - 1)
  {
    EntriesLength(objects, number - 1);
    FileAtEntry(objects, number - 1);
    PlaceOf(File(objects), Body(objects, |objects|), XrefHead(objects), Entries(objects, number - 1),
            AfterEntries(objects, number - 1), XrefAt(objects) + |XrefHead(objects)| + 20 * number);
  }

  lemma FileAtEntry(objects: seq<string>, k: nat)
    requires k <= |objects|
    ensures File(objects)
      == Body(objects, |objects|) + (XrefHead(objects) + (Entries(objects, k) + AfterEntries(objects, k)))
  {
    TableSplits(objects, k);
  }

  lemma EntryOfWritten(offset: nat, after: string)
    ensures EntryOf(Entry(offset) + after) == if offset < Power10(10) then Some(offset) else None
  {
    Pad10Reads(offset);
    var e := Entry(offset) + after;
    if offset < Power10(10) {
      assert e[..10] == Pad10(offset) && e[10..20] == " 00000 n \n";
    } else {
      assert e[10] == Pad10(offset)[10];
      assert |e| >= 20 ==> e[10..20][0] == e[10];
    }
  }

  /** Entry `number` reads as the offset of its object exactly when the offset fits its ten digits. */
  lemma EntryReads(objects: seq<string>, number: nat)
    requires 1 <= number <= |objects|
    requires forall i :: 1 <= i < number ==> Offset(objects, i) < Power10(10)
    ensures ReadEntry(File(objects), XrefAt(objects), |XrefHead(objects)|, number)
         == if Offset(objects, number) < Power10(10) then Some(Offset(objects, number)) else None
  {
    var offset, after := Offset(objects, number), AfterEntries(objects, number);
    EntryPlace(objects, number);
    assert AfterEntries(objects, number - 1) == Entry(offset) + after;
    EntryFrom(File(objects), XrefAt(objects), |XrefHead(objects)|, number, offset, after);
  }

  lemma EntryFrom(b: string, xref: nat, head: nat, number: nat, offset: nat, after: string)
    requires From(b, xref + head + 20 * number) == Entry(offset) + after
    ensures ReadEntry(b, xref, head, number) == if offset < Power10(10) then Some(offset) else None
  {
    EntryOfWritten(offset, after);
  }

  /** At the offset of an object stand its number and the `obj` keyword. */
  lemma ObjectPlace(objects: seq<string>, number: nat)
    requires 1 <= number <= |objects|
    ensures From(File(objects), Offset(objects, number)) == AfterObjects(objects, number - 1)
    ensures Dec(number) + " 0 obj\n" <= From(File(objects), Offset(objects, number))
  {
    FileSplits(objects, number - 1);
    FromConcat(Body(objects, number - 1), AfterObjects(objects, number - 1));
    ObjectHead(number, objects[number - 1], AfterObjects(objects, number));
  }

  lemma ObjectHead(number: nat, obj: string, after: string)
    ensures Dec(number) + " 0 obj\n" <= ObjectText(number, obj) + after
  {
    Assoc(Dec(number) + " 0 obj\n", obj, "\nendobj\n");
    Assoc(Dec(number) + " 0 obj\n", obj + "\nendobj\n", after);
    DropHead(Dec(number) + " 0 obj\n", obj + "\nendobj\n" + after);
  }

  lemma FinalLines(b: string, t: string, d: string, e: string)
    ensures b + (t + ("startxref" + "\n") + (d + "\n") + (e + "\n"))
      == (b + t) + ("startxref" + "\n") + (d + "\n") + (e + "\n")
  {
  }

  lemma XrefFound(objects: seq<string>)
    ensures StartXref(File(objects)) == Some(XrefAt(objects))
    ensures From(File(objects), XrefAt(objects)) == AfterObjects(objects, |objects|)
  {
    var trailer := ("trailer" + "\n") + (TrailerDictionary(objects) + "\n");
    var body, head, table := Body(objects, |objects|), XrefHead(objects), Entries(objects, |objects|);
    Regroup(body, head, table, Trailer(objects));
    FinalLines(body + (head + table), trailer, Dec(XrefAt(objects)), "%%EOF");
    StartXrefReads(body + (head + table) + trailer, XrefAt(objects));
    FromConcat(body, AfterObjects(objects, |objects|));
  }

  lemma TenDigits()
    ensures Power10(10) == 10_000_000_000
  {
    assert Power10(5) == 100_000;
  }

  lemma EntryRight(objects: seq<string>, number: nat, last: nat)
    requires 1 <= number <= last <= |objects| && Offset(objects, last) < Power10(10)
    ensures ReadEntry(File(objects), XrefAt(objects), |XrefHead(objects)|, number) == Some(Offset(objects, number))
  {
    forall i | 1 <= i <= number ensures Offset(objects, i) < Power10(10) {
      BodyGrows(objects, i - 1, last - 1);
    }
    EntryReads(objects, number);
  }

  /** What the lemmas need of the five objects. */
  ghost predicate Holds(objects: seq<string>, stream: string) {
    && |objects| == 5 && objects[3] == StreamObject(stream)
    && |objects[0]| == 33 && |objects[1]| == 41 && |objects[2]| == 110
  }

  lemma ObjectsHold(stream: string)
    ensures Holds(Objects(stream), stream)
  {
    CatalogLength();
    PagesLength();
    PageLength();
  }

  lemma CatalogLength()
    ensures |Joined(CATALOG)| == 33
  {
    JoinedLength(CATALOG, [0, 3, 9, 18, 25, 26, 33]);
  }

  lemma PagesLength()
    ensures |Joined(PAGES)| == 41
  {
    JoinedLength(PAGES, [0, 3, 9, 16, 23, 24, 30, 37, 38, 41]);
  }

  lemma PageLength()
    ensures |Joined(PAGE)| == 110
  {
    JoinedBoth(PAGE_TREE, PAGE_BOX + (PAGE_FONTS + PAGE_CONTENTS));
    JoinedBoth(PAGE_BOX, PAGE_FONTS + PAGE_CONTENTS);
    JoinedBoth(PAGE_FONTS, PAGE_CONTENTS);
    JoinedLength(PAGE_TREE, [0, 3, 9, 15, 23, 24, 29]);
    JoinedLength(PAGE_BOX, [0, 11, 22, 24]);
    JoinedLength(PAGE_FONTS, [0, 14, 23, 27, 28, 39]);
    JoinedLength(PAGE_CONTENTS, [0, 10, 11, 18]);
  }

  lemma {:induction false} JoinedBoth(a: seq<string>, b: seq<string>)
    ensures Joined(a + b) == Joined(a) + Joined(b)
  {
    if a == [] {
      assert a + b == b;
    } else {
      assert (a + b)[1..] == a[1..] + b;
      JoinedBoth(a[1..], b);
      Assoc(a[0], Joined(a[1..]), Joined(b));
    }
  }

  /** `ends` says where each word ends. */
  lemma {:induction false} JoinedLength(words: seq<string>, ends: seq<nat>)
    requires |ends| == |words| + 1 && forall i :: 0 <= i < |words| ==> ends[i + 1] == ends[i] + |words[i]|
    ensures ends[0] + |Joined(words)| == ends[|words|]
  {
    if words != [] {
      forall i | 0 <= i < |words| - 1 ensures ends[1..][i + 1] == ends[1..][i] + |words[1..][i]| {
        assert ends[(i + 1) + 1] == ends[i + 1] + |words[i + 1]|;
      }
      JoinedLength(words[1..], ends[1..]);
    }
  }

  /** The first four objects start within the first kilobyte, whatever the text. */
  lemma FirstOffsets(objects: seq<string>, stream: string, number: nat)
    requires Holds(objects, stream) && 1 <= number <= 4
    ensures Offset(objects, number) < 1000
  {
    ObjectLength(1, objects[0]);
    ObjectLength(2, objects[1]);
    ObjectLength(3, objects[2]);
    assert |Body(objects, 3)| == |Body(objects, 2)| + |ObjectText(3, objects[2])|;
    assert |Body(objects, 2)| == |Body(objects, 1)| + |ObjectText(2, objects[1])|;
    assert |Body(objects, 1)| == |HEADER| + |ObjectText(1, objects[0])|;
    BodyGrows(objects, number - 1, 3);
  }

  lemma ObjectLength(number: nat, obj: string)
    requires number < 10
    ensures |ObjectText(number, obj)| == |obj| + 16
  {
  }

  lemma HeadOfFive(objects: seq<string>)
    requires |objects| == 5
    ensures XrefHead(objects) == "xref\n0 6\n"
  {
    assert Dec(6) == "6";
  }

  /** `startxref` leads to the table, and the offsets in it to the objects, each of which begins there. */
  lemma TableFound(objects: seq<string>, number: nat)
    requires |objects| == 5 && 1 <= number <= 5
    ensures StartXref(File(objects)) == Some(XrefAt(objects))
    ensures "xref\n0 6\n" <= From(File(objects), XrefAt(objects))
    ensures Dec(number) + " 0 obj\n" <= From(File(objects), Offset(objects, number))
  {
    XrefFound(objects);
    HeadOfFive(objects);
    ObjectPlace(objects, number);
  }

  ghost predicate EntryIsRight(objects: seq<string>, number: nat) {
    1 <= number <= |objects| && ReadEntry(File(objects), XrefAt(objects), 9, number) == Some(Offset(objects, number))
  }

  /** What comes before the last object, apart from the stream and the digits of its length. */
  const AROUND_STREAM := 289

  lemma LastOffset(objects: seq<string>, stream: string)
    requires Holds(objects, stream)
    ensures Offset(objects, 5) == AROUND_STREAM + |Dec(|stream|)| + |stream|
  {
    ObjectLength(1, objects[0]);
    ObjectLength(2, objects[1]);
    ObjectLength(3, objects[2]);
    ObjectLength(4, objects[3]);
    assert |Body(objects, 4)| == |Body(objects, 3)| + |ObjectText(4, objects[3])|;
    assert |Body(objects, 3)| == |Body(objects, 2)| + |ObjectText(3, objects[2])|;
    assert |Body(objects, 2)| == |Body(objects, 1)| + |ObjectText(2, objects[1])|;
    assert |Body(objects, 1)| == |HEADER| + |ObjectText(1, objects[0])|;
  }

  /** The last object starts within ten digits exactly when the stream leaves room for what is around it and for
      the ten digits of its own length. */
  lemma StreamFits(objects: seq<string>, stream: string)
    requires Holds(objects, stream)
    ensures Offset(objects, 5) < 10_000_000_000 <==> |stream| < 10_000_000_000 - AROUND_STREAM - 10
  {
    LastOffset(objects, stream);
    TenDigits();
    DecLength(|stream|, 10);
    DecLength(|stream|, 9);
  }

  /** Every 20-byte entry holds the offset of its object if and only if the content stream is shorter than ten
      thousand million bytes by 299. */
  lemma EntriesExact(objects: seq<string>, stream: string)
    requires Holds(objects, stream)
    ensures (forall i :: 1 <= i <= 5 ==> EntryIsRight(objects, i)) <==> |stream| < 9_999_999_701
  {
    TenDigits();
    StreamFits(objects, stream);
    HeadOfFive(objects);
    if Offset(objects, 5) < Power10(10) {
      forall i | 1 <= i <= 5 ensures EntryIsRight(objects, i) {
        EntryRight(objects, i, 5);
      }
    } else {
      forall i | 1 <= i < 5 ensures Offset(objects, i) < Power10(10) {
        FirstOffsets(objects, stream, i);
      }
      EntryReads(objects, 5);
      assert !EntryIsRight(objects, 5);
    }
  }

  /** A title that long makes the table wrong. */
  lemma LongTitleBreaksTheTable() returns (title: string)
    ensures var objects := Objects(ContentStream(title, []));
      |objects| == 5 && exists i :: 1 <= i <= 5 && !EntryIsRight(objects, i)
  {
    title := seq(9_999_999_701, i => 'a');
    StreamLongerThanTitle(title, []);
    ObjectsHold(ContentStream(title, []));
    EntriesExact(Objects(ContentStream(title, [])), ContentStream(title, []));
  }

  lemma DropHead(a: string, b: string)
    ensures a <= a + b && (a + b)[|a|..] == b && (a + b)[..|a|] == a
  {
  }
}
