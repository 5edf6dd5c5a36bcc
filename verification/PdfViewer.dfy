/** A viewer for the hand-rolled PDF (`_simple_pdf`, `backend/scripts/seed_demo/media.py:447-482`) that is told nothing
    but the rules of ISO 32000-1: from the end of the file to the trailer (section 7.5.5), through the
    cross-reference table (7.5.4) to the catalog, the page tree and the page (7.7.2, 7.7.3), and by `/Length` to its
    content stream (7.3.8.2) and by `/Font` to its fonts (7.8.3). Dictionaries are read as long as they keep to one
    line.
 */
module PdfViewer {
  import opened AsciiText
  import opened Basics
  import opened PdfText
  import opened PdfPage
  import opened PdfFile

  /* ---------- Reading dictionaries ---------- */

  ghost predicate StandsAt(o: string, key: string, k: nat) {
    k + |key| <= |o| && forall i :: 0 <= i < |key| ==> o[k + i] == key[i]
  }

  ghost predicate FirstAt(o: string, key: string, k: nat) {
    StandsAt(o, key, k) && forall i: nat :: i < k ==> !StandsAt(o, key, i)
  }

  /** What follows the first occurrence of the key. */
  ghost function Find(o: string, key: string): Option<string> {
    if exists k: nat :: FirstAt(o, key, k) then
      var k: nat :| FirstAt(o, key, k);
      Some(o[k + |key|..])
    else None
  }

  function NumberAt(t: string): Option<nat> {
    DigitRunBound(t);
    if DigitRun(t) == 0 then None else Some(Value(t[..DigitRun(t)]))
  }

  /** An indirect reference (section 7.3.10). */
  function ReferenceAt(t: string): Option<nat> {
    DigitRunBound(t);
    if DigitRun(t) > 0 && " 0 R" <= t[DigitRun(t)..] then NumberAt(t) else None
  }

  ghost function NumberUnder(o: string, key: string): Option<nat> {
    match Find(o, key)
    case None => None
    case Some(t) => NumberAt(t)
  }

  ghost function ReferenceUnder(o: string, key: string): Option<nat> {
    match Find(o, key)
    case None => None
    case Some(t) => ReferenceAt(t)
  }

  /* ---------- Reading the file ---------- */

  function DropLine(b: string): string {
    match LastLine(b)
    case None => ""
    case Some((rest, _)) => rest
  }

  /** The dictionary between the keyword `trailer` and the three last lines. */
  function TrailerOf(b: string): Option<string> {
    match LastLine(DropLine(DropLine(DropLine(b))))
    case None => None
    case Some((rest, dictionary)) =>
      match LastLine(rest)
      case None => None
      case Some((_, keyword)) => if keyword == "trailer" then Some(dictionary) else None
  }

  /** Where the table is, how long its head is, how many entries it has, and the catalog's number. */
  datatype Table = Table(xref: nat, head: nat, size: nat, root: nat)

  ghost function ReadTable(b: string): Option<Table> {
    match StartXref(b)
    case None => None
    case Some(xref) =>
      match TrailerOf(b)
      case None => None
      case Some(dictionary) => TableAt(b, xref, dictionary)
  }

  ghost function TableAt(b: string, xref: nat, dictionary: string): Option<Table> {
    var size, root := NumberUnder(dictionary, "/Size "), ReferenceUnder(dictionary, "/Root ");
    if size.Some? && root.Some? && TableStands(b, xref, HeadOf(size.value)) then
      Some(Table(xref, |HeadOf(size.value)|, size.value, root.value))
    else None
  }

  /** The version, the head of the table, and the entry that heads the list of free objects. */
  predicate TableStands(b: string, xref: nat, head: string) {
    "%PDF-1." <= b && head <= From(b, xref) && "0000000000 65535 f \n" <= From(b, xref + |head|)
  }

  /** What follows `n 0 obj`, where the table says that object `n` is. */
  function ObjectOf(b: string, table: Table, number: nat): Option<string> {
    if number == 0 || number >= table.size then None
    else match ReadEntry(b, table.xref, table.head, number)
      case None => None
      case Some(at) =>
        var open := Dec(number) + " 0 obj\n";
        if open <= From(b, at) then Some(From(b, at)[|open|..]) else None
  }

  ghost predicate HasType(dictionary: string, kind: string) {
    Find(dictionary, "/Type ").Some? && kind <= Find(dictionary, "/Type ").value
  }

  /** An object that is a dictionary of the given type. */
  ghost function DictionaryOf(b: string, table: Table, number: nat, kind: string): Option<string> {
    match ObjectOf(b, table, number)
    case None => None
    case Some(o) =>
      var line := o[..LineLength(o)];
      if "endobj\n" <= AfterLine(o) && HasType(line, kind) then Some(line) else None
  }

  /** The catalog's pages, the first of them, and back. */
  ghost function PageOf(b: string, table: Table): Option<string> {
    match DictionaryOf(b, table, table.root, "/Catalog ")
    case None => None
    case Some(catalog) =>
      match ReferenceUnder(catalog, "/Pages ")
      case None => None
      case Some(parent) =>
        match DictionaryOf(b, table, parent, "/Pages ")
        case None => None
        case Some(pages) =>
          match (ReferenceUnder(pages, "/Kids ["), NumberUnder(pages, "/Count "))
          case (Some(kid), Some(count)) => KidOf(b, table, parent, kid, count)
          case _ => None
  }

  ghost function KidOf(b: string, table: Table, parent: nat, kid: nat, count: nat): Option<string> {
    match DictionaryOf(b, table, kid, "/Page ")
    case None => None
    case Some(page) => if ReferenceUnder(page, "/Parent ") == Some(parent) && count == 1 then Some(page) else None
  }

  /** Section 7.3.8.2: after the digits of `/Length`, the stream is that many bytes behind its keyword, and the
      end keyword must follow them. */
  function StreamOf(d: string): Option<string> {
    DigitRunBound(d);
    var k, open := DigitRun(d), " >>\nstream\n";
    if k == 0 || !(open <= d[k..]) then None
    else
      var n, data := Value(d[..k]), d[k + |open|..];
      if n <= |data| && "\nendstream" + "\nendobj\n" <= data[n..] then Some(data[..n]) else None
  }

  ghost function ContentOf(b: string, table: Table, page: string): Option<string> {
    match ReferenceUnder(page, "/Contents ")
    case None => None
    case Some(number) =>
      match ObjectOf(b, table, number)
      case None => None
      case Some(o) => if "<< /Length " <= o then StreamOf(o[|"<< /Length "|..]) else None
  }

  function UpTo(s: string, end: char): string {
    if s == "" || s[0] == end then "" else [s[0]] + UpTo(s[1..], end)
  }

  function NumbersOf(words: seq<string>): Option<seq<int>> {
    if words == [] then Some([])
    else
      var rest := NumbersOf(words[1..]);
      if Number(words[0]).Some? && rest.Some? then Some([Number(words[0]).value] + rest.value) else None
  }

  /** The rectangle of the page (section 7.9.5): left, bottom, right, top. */
  ghost function BoxOf(page: string): Option<seq<int>> {
    match Find(page, "/MediaBox [")
    case None => None
    case Some(t) => NumbersOf(Words(UpTo(t, ']')))
  }

  /** The font that a name of the page's resources stands for. */
  ghost function FontOf(b: string, table: Table, page: string, name: string): Option<string> {
    match Find(page, "/Font << ")
    case None => None
    case Some(fonts) =>
      match ReferenceUnder(fonts, "/" + name + " ")
      case None => None
      case Some(number) => DictionaryOf(b, table, number, "/Font ")
  }

  /** What a viewer shows. */
  ghost function Display(b: string): Option<seq<Placed>> {
    match ReadTable(b)
    case None => None
    case Some(table) =>
      match PageOf(b, table)
      case None => None
      case Some(page) =>
        match ContentOf(b, table, page)
        case None => None
        case Some(stream) => Some(Placements(stream, NO_PEN))
  }

  /* ---------- Finding a key ---------- */

  lemma Found(o: string, key: string, k: nat)
    requires FirstAt(o, key, k)
    ensures Find(o, key) == Some(o[k + |key|..])
  {
    forall k': nat | FirstAt(o, key, k') ensures k' == k {
      assert k' < k ==> !StandsAt(o, key, k');
      assert k < k' ==> !StandsAt(o, key, k);
    }
  }

  /** Behind a word that the key is not in, and does not begin in. */
  lemma FirstBehind(word: string, rest: string, key: string, k: nat, at: nat)
    requires FirstAt(rest, key, k) && at < |word| && at < |key| && word[at] != key[at]
    requires forall i :: 1 <= i < |word| ==> word[i] != key[0]
    ensures FirstAt(word + rest, key, |word| + k)
  {
    var o := word + rest;
    forall i: nat | i < |word| + k ensures !StandsAt(o, key, i) {
      if i == 0 {
        assert o[0 + at] != key[at];
      } else if i < |word| {
        assert o[i + 0] != key[0];
      } else if StandsAt(o, key, i) {
        forall j | 0 <= j < |key| ensures rest[i - |word| + j] == key[j] {
          assert o[i + j] == key[j];
        }
        assert StandsAt(rest, key, i - |word|);
      }
    }
    forall j | 0 <= j < |key| ensures o[|word| + k + j] == key[j] {
      assert rest[k + j] == key[j];
    }
  }

  /** A word that the key is not in, and does not begin in: it differs from it at `at`. */
  ghost predicate Misses(word: string, key: string, at: nat) {
    && at < |word| && at < |key| && word[at] != key[at]
    && forall i :: 1 <= i < |word| ==> word[i] != key[0]
  }

  lemma FindBehind(o: string, word: string, rest: string, key: string, at: nat)
    requires o == word + rest && Misses(word, key, at) && Find(rest, key).Some?
    ensures Find(o, key) == Find(rest, key)
  {
    var k: nat :| FirstAt(rest, key, k);
    Found(rest, key, k);
    FirstBehind(word, rest, key, k, at);
    Found(o, key, |word| + k);
    assert o[|word| + k + |key|..] == rest[k + |key|..];
  }

  lemma FindHere(o: string, key: string, rest: string)
    requires o == key + rest
    ensures Find(o, key) == Some(rest)
  {
    assert FirstAt(key + rest, key, 0);
    Found(o, key, 0);
  }

  lemma ReferenceReads(d: string, rest: string)
    requires |d| == 1 && AllDigits(d)
    ensures ReferenceAt(d + (" 0 R" + rest)) == Some(DigitValue(d[0]))
  {
    var t := d + (" 0 R" + rest);
    DigitRunOf(d, " 0 R" + rest);
    OneDigit(d);
    assert t[1..] == " 0 R" + rest && t[..1] == d;
  }

  lemma ReferenceFound(o: string, key: string, d: string, rest: string)
    requires Find(o, key) == Some(d + (" 0 R" + rest)) && |d| == 1 && AllDigits(d)
    ensures ReferenceUnder(o, key) == Some(DigitValue(d[0]))
  {
    ReferenceReads(d, rest);
  }

  /** Word `i` is the key, and none before it is or begins like it. */
  ghost predicate KeyAt(words: seq<string>, i: nat, key: string, at: seq<nat>) {
    && i < |words| && words[i] == key && |at| == i
    && forall j :: 0 <= j < i ==> Misses(words[j], key, at[j])
  }

  lemma {:induction false} FindAmong(words: seq<string>, i: nat, key: string, at: seq<nat>)
    requires KeyAt(words, i, key, at)
    ensures Find(Joined(words), key) == Some(Joined(words[i + 1..]))
  {
    if i == 0 {
      FindHere(Joined(words), key, Joined(words[1..]));
    } else {
      assert KeyAt(words[1..], i - 1, key, at[1..]);
      FindAmong(words[1..], i - 1, key, at[1..]);
      FindBehind(Joined(words), words[0], Joined(words[1..]), key, at[0]);
      assert words[1..][i..] == words[i + 1..];
    }
  }

  ghost predicate AllMiss(words: seq<string>, key: string, at: seq<nat>) {
    |at| == |words| && forall j :: 0 <= j < |words| ==> Misses(words[j], key, at[j])
  }

  lemma {:induction false} FindBeyond(words: seq<string>, more: seq<string>, key: string, at: seq<nat>)
    requires AllMiss(words, key, at) && Find(Joined(more), key).Some?
    ensures Find(Joined(words + more), key) == Find(Joined(more), key)
  {
    if words == [] {
      assert words + more == more;
    } else {
      assert (words + more)[1..] == words[1..] + more;
      FindBeyond(words[1..], more, key, at[1..]);
      FindBehind(Joined(words + more), words[0], Joined(words[1..] + more), key, at[0]);
    }
  }

  /** A reference behind its key, in the words. */
  lemma ReferenceAmong(words: seq<string>, i: nat, key: string, at: seq<nat>, after: string)
    requires KeyAt(words, i, key, at) && i + 2 < |words|
    requires |words[i + 1]| == 1 && AllDigits(words[i + 1]) && words[i + 2] == " 0 R" + after
    ensures ReferenceUnder(Joined(words), key) == Some(DigitValue(words[i + 1][0]))
  {
    var more := Joined(words[i + 3..]);
    FindAmong(words, i, key, at);
    assert words[i + 1..][1..] == words[i + 2..] && words[i + 2..][1..] == words[i + 3..];
    assert Joined(words[i + 1..]) == words[i + 1] + (words[i + 2] + more);
    Assoc(" 0 R", after, more);
    ReferenceFound(Joined(words), key, words[i + 1], after + more);
  }

  lemma NumberAmong(words: seq<string>, i: nat, key: string, at: seq<nat>)
    requires KeyAt(words, i, key, at) && i + 2 < |words|
    requires words[i + 1] != "" && AllDigits(words[i + 1]) && words[i + 2] != "" && !IsDigit(words[i + 2][0])
    ensures NumberUnder(Joined(words), key) == Some(Value(words[i + 1]))
  {
    var digits, rest := words[i + 1], Joined(words[i + 2..]);
    FindAmong(words, i, key, at);
    assert words[i + 1..][1..] == words[i + 2..];
    assert Joined(words[i + 1..]) == digits + rest && rest[0] == words[i + 2][0];
    DigitRunOf(digits, rest);
  }

  lemma TypeAmong(words: seq<string>, kind: string)
    requires |words| > 2 && KeyAt(words, 1, "/Type ", [0]) && words[2] == kind
    ensures HasType(Joined(words), kind)
  {
    FindAmong(words, 1, "/Type ", [0]);
  }

  lemma {:induction false} OneLine(words: seq<string>)
    requires forall i, j :: 0 <= i < |words| && 0 <= j < |words[i]| ==> words[i][j] != '\n'
    ensures '\n' !in Joined(words)
  {
    if words != [] {
      OneLine(words[1..]);
    }
  }

  /* ---------- What the dictionaries say ---------- */

  lemma CatalogPages()
    ensures ReferenceUnder(Joined(CATALOG), "/Pages ") == Some(2)
  {
    ReferenceAmong(CATALOG, 3, "/Pages ", [0, 1, 1], " >>");
  }

  lemma PagesType()
    ensures HasType(Joined(PAGES), "/Pages ")
  {
    TypeAmong(PAGES, "/Pages ");
  }

  lemma PagesLine()
    ensures '\n' !in Joined(PAGES)
  {
    OneLine(PAGES);
  }

  lemma PagesKids()
    ensures ReferenceUnder(Joined(PAGES), "/Kids [") == Some(3)
  {
    ReferenceAmong(PAGES, 3, "/Kids [", [0, 1, 1], "] ");
  }

  lemma PagesCount()
    ensures NumberUnder(Joined(PAGES), "/Count ") == Some(1)
  {
    OneDigit("1");
    NumberAmong(PAGES, 6, "/Count ", [0, 1, 1, 1, 0, 0]);
  }

  lemma PageType()
    ensures HasType(Joined(PAGE), "/Page ")
  {
    TypeAmong(PAGE, "/Page ");
  }

  lemma PageParent()
    ensures ReferenceUnder(Joined(PAGE), "/Parent ") == Some(2)
  {
    ReferenceAmong(PAGE, 3, "/Parent ", [0, 1, 3], " ");
  }

  /** The words before the key have it nowhere. */
  lemma TreeMisses(key: string)
    requires key == "/Contents " || key == "/Font << " || key == "/MediaBox ["
    ensures AllMiss(PAGE_TREE, key, [0, 1, 1, 1, 0, 0])
  {
    assert key[0] == '/' && key[1] != 'T' && key[1] != 'P';
  }

  lemma BoxMisses(key: string)
    requires key == "/Contents " || key == "/Font << "
    ensures AllMiss(PAGE_BOX, key, [1, 0, 0])
  {
    assert key[0] == '/' && key[1] != 'M';
  }

  lemma PageContents()
    ensures ReferenceUnder(Joined(PAGE), "/Contents ") == Some(4)
  {
    TreeMisses("/Contents ");
    BoxMisses("/Contents ");
    assert AllMiss(PAGE_FONTS, "/Contents ", [1, 1, 1, 0, 0]);
    assert ReferenceUnder(Joined(PAGE_CONTENTS), "/Contents ") == Some(4) by {
      ReferenceAmong(PAGE_CONTENTS, 0, "/Contents ", [], " >>");
    }
    ReferenceBeyond(PAGE_FONTS, PAGE_CONTENTS, "/Contents ", [1, 1, 1, 0, 0]);
    ReferenceBeyond(PAGE_BOX, PAGE_FONTS + PAGE_CONTENTS, "/Contents ", [1, 0, 0]);
    ReferenceBeyond(PAGE_TREE, PAGE_BOX + (PAGE_FONTS + PAGE_CONTENTS), "/Contents ", [0, 1, 1, 1, 0, 0]);
  }

  lemma ReferenceBeyond(words: seq<string>, more: seq<string>, key: string, at: seq<nat>)
    requires AllMiss(words, key, at) && ReferenceUnder(Joined(more), key).Some?
    ensures ReferenceUnder(Joined(words + more), key) == ReferenceUnder(Joined(more), key)
  {
    FindBeyond(words, more, key, at);
  }

  /** The words of the font dictionary, and what follows it. */
  function FontWords(): seq<string> {
    ["/F1 ", "5", " 0 R >> >> "] + PAGE_CONTENTS
  }

  lemma FontsKey(words: seq<string>)
    requires words == PAGE_FONTS + PAGE_CONTENTS
    ensures KeyAt(words, 1, "/Font << ", [1])
  {
  }

  lemma FontsRead(words: seq<string>)
    requires words == PAGE_FONTS + PAGE_CONTENTS
    ensures Find(Joined(words), "/Font << ") == Some(Joined(FontWords()))
  {
    FontsKey(words);
    assert words[1 + 1..] == FontWords();
    FindAmong(words, 1, "/Font << ", [1]);
  }

  lemma PageFonts()
    ensures Find(Joined(PAGE), "/Font << ") == Some(Joined(FontWords()))
  {
    var words := PAGE_FONTS + PAGE_CONTENTS;
    FontsRead(words);
    BoxMisses("/Font << ");
    FindBeyond(PAGE_BOX, words, "/Font << ", [1, 0, 0]);
    TreeMisses("/Font << ");
    FindBeyond(PAGE_TREE, PAGE_BOX + words, "/Font << ", [0, 1, 1, 1, 0, 0]);
  }

  lemma PageFont()
    ensures ReferenceUnder(Joined(FontWords()), "/F1 ") == Some(5)
  {
    ReferenceAmong(FontWords(), 0, "/F1 ", [], " >> >> ");
  }

  /** The page is 595 units wide and 842 high. */
  lemma PageBox()
    ensures BoxOf(Joined(PAGE)) == Some([0, 0, 595, 842])
  {
    var words := PAGE_BOX + (PAGE_FONTS + PAGE_CONTENTS);
    BoxRead(words, PAGE_FONTS + PAGE_CONTENTS);
    TreeMisses("/MediaBox [");
    FindBeyond(PAGE_TREE, words, "/MediaBox [", [0, 1, 1, 1, 0, 0]);
    BoxNumbers();
  }

  lemma BoxRead(words: seq<string>, more: seq<string>)
    requires words == PAGE_BOX + more
    ensures Find(Joined(words), "/MediaBox [").Some?
    ensures UpTo(Find(Joined(words), "/MediaBox [").value, ']') == "0 0 595 842"
  {
    var inner, after := "0 0 595 842", Joined(more);
    FindAmong(words, 0, "/MediaBox [", []);
    assert words[1..][1..][1..] == more;
    assert Joined(words[1..]) == inner + ("] " + after);
    UpToStops(inner, " " + after);
    assert "] " + after == "]" + (" " + after);
  }

  lemma {:induction false} UpToStops(inner: string, rest: string)
    requires forall i :: 0 <= i < |inner| ==> inner[i] != ']'
    ensures UpTo(inner + ("]" + rest), ']') == inner
  {
    if inner != "" {
      assert (inner + ("]" + rest))[1..] == inner[1..] + ("]" + rest);
      UpToStops(inner[1..], rest);
    }
  }

  lemma FourWords(a: string, b: string, c: string, d: string)
    requires ' ' !in a && ' ' !in b && ' ' !in c && ' ' !in d
    ensures Words(a + (" " + (b + (" " + (c + (" " + d)))))) == [a, b, c, d]
  {
    ThreeWords(b, c, d);
    WordThenRest(a, b + (" " + (c + (" " + d))));
  }

  lemma FourNumbers(words: seq<string>, a: int, b: int, c: int, d: int)
    requires |words| == 4 && Number(words[0]) == Some(a) && Number(words[1]) == Some(b)
    requires Number(words[2]) == Some(c) && Number(words[3]) == Some(d)
    ensures NumbersOf(words) == Some([a, b, c, d])
  {
    NumbersFrom(words[3..], d, []);
    NumbersFrom(words[2..], c, [d] + []);
    NumbersFrom(words[1..], b, [c] + ([d] + []));
    NumbersFrom(words, a, [b] + ([c] + ([d] + [])));
    assert [a] + ([b] + ([c] + ([d] + []))) == [a, b, c, d];
  }

  lemma NumbersFrom(words: seq<string>, n: int, more: seq<int>)
    requires words != [] && Number(words[0]) == Some(n) && NumbersOf(words[1..]) == Some(more)
    ensures NumbersOf(words) == Some([n] + more)
  {
  }

  lemma FiveNineFive()
    ensures Number("595") == Some(595)
  {
    ThreeDigits("595");
  }

  lemma EightFourTwo()
    ensures Number("842") == Some(842)
  {
    ThreeDigits("842");
  }

  lemma BoxWords()
    ensures Words("0 0 595 842") == ["0", "0", "595", "842"]
  {
    FourWords("0", "0", "595", "842");
    assert "0 0 595 842" == "0" + (" " + ("0" + (" " + ("595" + (" " + "842")))));
  }

  lemma BoxNumbers()
    ensures NumbersOf(Words("0 0 595 842")) == Some([0, 0, 595, 842])
  {
    OneDigit("0");
    FiveNineFive();
    EightFourTwo();
    BoxWords();
    FourNumbers(["0", "0", "595", "842"], 0, 0, 595, 842);
  }

  lemma FontType()
    ensures HasType(Joined(FONT), "/Font ")
  {
    TypeAmong(FONT, "/Font ");
  }

  lemma FontLine()
    ensures '\n' !in Joined(FONT)
  {
    OneLine(FONT);
  }

  lemma TrailerSize(size: nat)
    ensures NumberUnder(Joined(TrailerWords(size)), "/Size ") == Some(size)
  {
    DecReads(size);
    NumberAmong(TrailerWords(size), 1, "/Size ", [0]);
  }

  lemma TrailerRoot(size: nat)
    ensures ReferenceUnder(Joined(TrailerWords(size)), "/Root ") == Some(1)
  {
    DecReads(size);
    ReferenceAmong(TrailerWords(size), 4, "/Root ", [0, 1, 0, 0], " >>");
  }

  lemma TrailerLine(size: nat)
    ensures '\n' !in Joined(TrailerWords(size))
  {
    DecReads(size);
    OneLine(TrailerWords(size));
  }

  /* ---------- Objects in the file ---------- */

  /** What the writer's file says at its end and at the head of its table. */
  ghost predicate IsTable(objects: seq<string>, table: Table) {
    table == Table(XrefAt(objects), |XrefHead(objects)|, |objects| + 1, 1)
  }

  lemma TrailerFound(objects: seq<string>)
    ensures TrailerOf(File(objects)) == Some(TrailerDictionary(objects))
  {
    var d, n := TrailerDictionary(objects), Dec(XrefAt(objects));
    var body, head, table := Body(objects, |objects|), XrefHead(objects), Entries(objects, |objects|);
    var a := body + (head + table);
    var t := a + (("trailer" + "\n") + (d + "\n"));
    TrailerLine(|objects| + 1);
    DecReads(XrefAt(objects));
    Regroup(body, head, table, Trailer(objects));
    FinalLines(a, ("trailer" + "\n") + (d + "\n"), n, "%%EOF");
    assert a + (("trailer" + "\n") + (d + "\n")) == (a + ("trailer" + "\n")) + (d + "\n");
    LastLineOf(a, "trailer");
    LastLineOf(a + ("trailer" + "\n"), d);
    ThreeLinesDropped(t, n);
  }

  lemma ThreeLinesDropped(t: string, n: string)
    requires EndsLine(t) && AllDigits(n)
    ensures DropLine(DropLine(DropLine(t + ("startxref" + "\n") + (n + "\n") + ("%%EOF" + "\n")))) == t
  {
    LastLineOf(t, "startxref");
    LastLineOf(t + ("startxref" + "\n"), n);
    LastLineOf(t + ("startxref" + "\n") + (n + "\n"), "%%EOF");
  }

  lemma HeadStands(objects: seq<string>)
    ensures TableStands(File(objects), XrefAt(objects), XrefHead(objects))
  {
    var body, head := Body(objects, |objects|), XrefHead(objects);
    FileSplits(objects, 0);
    FileAtEntry(objects, 0);
    var rest := Entries(objects, 0) + AfterEntries(objects, 0);
    FromConcat(body, head + rest);
    Assoc(body, head, rest);
    FromConcat(body + head, rest);
  }

  lemma TableReads(objects: seq<string>)
    ensures ReadTable(File(objects)).Some? && IsTable(objects, ReadTable(File(objects)).value)
  {
    XrefFound(objects);
    TrailerFound(objects);
    TrailerSize(|objects| + 1);
    TrailerRoot(|objects| + 1);
    HeadStands(objects);
    TableFrom(File(objects), XrefAt(objects), TrailerDictionary(objects), |objects| + 1, 1);
  }

  lemma TableFrom(b: string, xref: nat, dictionary: string, size: nat, root: nat)
    ensures
      && StartXref(b) == Some(xref) && TrailerOf(b) == Some(dictionary) && TableStands(b, xref, HeadOf(size))
      && NumberUnder(dictionary, "/Size ") == Some(size) && ReferenceUnder(dictionary, "/Root ") == Some(root)
      ==> ReadTable(b) == Some(Table(xref, |HeadOf(size)|, size, root))
  {
  }

  /** An object that the table leads to. */
  lemma ObjectReads(objects: seq<string>, table: Table, number: nat)
    requires IsTable(objects, table) && 1 <= number <= |objects|
    requires ReadEntry(File(objects), table.xref, table.head, number) == Some(Offset(objects, number))
    ensures ObjectOf(File(objects), table, number)
         == Some(objects[number - 1] + ("\n" + ("endobj\n" + AfterObjects(objects, number))))
  {
    var open, obj, after := Dec(number) + " 0 obj\n", objects[number - 1], AfterObjects(objects, number);
    ObjectPlace(objects, number);
    ObjectParts(open, obj, after);
    DropHead(open, obj + ("\n" + ("endobj\n" + after)));
  }

  lemma ObjectParts(open: string, obj: string, after: string)
    ensures (open + obj + "\nendobj\n") + after == open + (obj + ("\n" + ("endobj\n" + after)))
  {
    assert "\nendobj\n" == "\n" + "endobj\n";
    Assoc(open, obj, "\nendobj\n");
    Assoc(open, obj + "\nendobj\n", after);
    Assoc(obj, "\nendobj\n", after);
    Assoc("\n", "endobj\n", after);
  }

  lemma DictionaryReads(objects: seq<string>, table: Table, number: nat, kind: string)
    requires IsTable(objects, table) && 1 <= number <= |objects|
    requires ReadEntry(File(objects), table.xref, table.head, number) == Some(Offset(objects, number))
    requires '\n' !in objects[number - 1] && HasType(objects[number - 1], kind)
    ensures DictionaryOf(File(objects), table, number, kind) == Some(objects[number - 1])
  {
    ObjectReads(objects, table, number);
    LineThenRest(objects[number - 1], "endobj\n" + AfterObjects(objects, number));
  }

  /** The first four entries are right whatever the text. */
  lemma EarlyEntry(objects: seq<string>, stream: string, table: Table, number: nat)
    requires Holds(objects, stream) && IsTable(objects, table) && 1 <= number <= 4
    ensures ReadEntry(File(objects), table.xref, table.head, number) == Some(Offset(objects, number))
  {
    FirstOffsets(objects, stream, number);
    TenDigits();
    EntryRight(objects, number, number);
  }

  /* ---------- The way to the page ---------- */

  lemma PageReads(stream: string, table: Table)
    requires IsTable(Objects(stream), table)
    ensures PageOf(File(Objects(stream)), table) == Some(Joined(PAGE))
  {
    var objects, b := Objects(stream), File(Objects(stream));
    ObjectsHold(stream);
    CatalogReads(objects, stream, table);
    PagesReads(objects, stream, table);
    LeafReads(objects, stream, table);
    PagesCount();
    PageParent();
    PageFrom(b, table, Joined(CATALOG), 2, Joined(PAGES), 3, Joined(PAGE));
  }

  lemma PageFrom(b: string, table: Table, catalog: string, parent: nat, pages: string, kid: nat, page: string)
    ensures
      && DictionaryOf(b, table, table.root, "/Catalog ") == Some(catalog)
      && ReferenceUnder(catalog, "/Pages ") == Some(parent)
      && DictionaryOf(b, table, parent, "/Pages ") == Some(pages)
      && ReferenceUnder(pages, "/Kids [") == Some(kid) && NumberUnder(pages, "/Count ") == Some(1)
      && DictionaryOf(b, table, kid, "/Page ") == Some(page) && ReferenceUnder(page, "/Parent ") == Some(parent)
      ==> PageOf(b, table) == Some(page)
  {
  }

  lemma CatalogReads(objects: seq<string>, stream: string, table: Table)
    requires Holds(objects, stream) && IsTable(objects, table) && objects[0] == Joined(CATALOG)
    ensures DictionaryOf(File(objects), table, 1, "/Catalog ") == Some(Joined(CATALOG))
    ensures ReferenceUnder(Joined(CATALOG), "/Pages ") == Some(2)
  {
    assert HasType(Joined(CATALOG), "/Catalog ") by {
      TypeAmong(CATALOG, "/Catalog ");
    }
    assert '\n' !in Joined(CATALOG) by {
      OneLine(CATALOG);
    }
    CatalogPages();
    EarlyEntry(objects, stream, table, 1);
    DictionaryReads(objects, table, 1, "/Catalog ");
  }

  lemma PagesReads(objects: seq<string>, stream: string, table: Table)
    requires Holds(objects, stream) && IsTable(objects, table) && objects[1] == Joined(PAGES)
    ensures DictionaryOf(File(objects), table, 2, "/Pages ") == Some(Joined(PAGES))
    ensures ReferenceUnder(Joined(PAGES), "/Kids [") == Some(3)
  {
    PagesType();
    PagesLine();
    PagesKids();
    EarlyEntry(objects, stream, table, 2);
    DictionaryReads(objects, table, 2, "/Pages ");
  }

  lemma LeafReads(objects: seq<string>, stream: string, table: Table)
    requires Holds(objects, stream) && IsTable(objects, table) && objects[2] == Joined(PAGE)
    ensures DictionaryOf(File(objects), table, 3, "/Page ") == Some(Joined(PAGE))
  {
    PageType();
    assert '\n' !in Joined(PAGE) by {
      OneLine(PAGE);
    }
    EarlyEntry(objects, stream, table, 3);
    DictionaryReads(objects, table, 3, "/Page ");
  }

  /* ---------- The stream ---------- */

  lemma StreamOfWritten(stream: string, after: string)
    ensures StreamOf(Dec(|stream|) + (" >>\nstream\n" + (stream + ("\nendstream" + "\nendobj\n" + after))))
      == Some(stream)
  {
    var end, open := "\nendstream" + "\nendobj\n", " >>\nstream\n";
    var length := Dec(|stream|);
    DecReads(|stream|);
    DigitRunOf(length, open + (stream + (end + after)));
    DropHead(end, after);
    DropHead(stream, end + after);
    DropHead(open, stream + (end + after));
    DropHead(length, open + (stream + (end + after)));
    Assoc(length, open, stream + (end + after));
    DropHead(length + open, stream + (end + after));
  }

  lemma StreamParts(length: string, stream: string, after: string)
    ensures ("<< /Length " + length + " >>\nstream\n" + stream + "\nendstream") + ("\n" + ("endobj\n" + after))
      == "<< /Length " + (length + (" >>\nstream\n" + (stream + ("\nendstream" + "\nendobj\n" + after))))
  {
    var head, open, end, tail := "<< /Length ", " >>\nstream\n", "\nendstream", "\n" + ("endobj\n" + after);
    assert "\nendobj\n" == "\n" + "endobj\n";
    Assoc("\n", "endobj\n", after);
    Assoc(end, "\nendobj\n", after);
    var c := end + tail;
    Assoc(head + length + open + stream, end, tail);
    Assoc(head + length + open, stream, c);
    Assoc(head + length, open, stream + c);
    Assoc(head, length, open + (stream + c));
  }

  /** `/Contents` leads to the stream, and `/Length` is its number of bytes. */
  lemma ContentReads(stream: string, table: Table)
    requires IsTable(Objects(stream), table)
    ensures ContentOf(File(Objects(stream)), table, Joined(PAGE)) == Some(stream)
  {
    var objects := Objects(stream);
    ObjectsHold(stream);
    PageContents();
    EarlyEntry(objects, stream, table, 4);
    ObjectReads(objects, table, 4);
    ContentFrom(File(objects), table, Joined(PAGE), 4, stream, AfterObjects(objects, 4));
  }

  lemma ContentFrom(b: string, table: Table, page: string, number: nat, stream: string, after: string)
    ensures
      && ReferenceUnder(page, "/Contents ") == Some(number)
      && ObjectOf(b, table, number) == Some(StreamObject(stream) + ("\n" + ("endobj\n" + after)))
      ==> ContentOf(b, table, page) == Some(stream)
  {
    var rest := Dec(|stream|) + (" >>\nstream\n" + (stream + ("\nendstream" + "\nendobj\n" + after)));
    StreamParts(Dec(|stream|), stream, after);
    StreamOfWritten(stream, after);
    DropHead("<< /Length ", rest);
  }

  /* ---------- The whole chain ---------- */

  /** A viewer that follows the file's own pointers shows the title and every line in their places. It holds for text
      of any length, because only the entry of the font can outgrow its ten digits. */
  lemma ViewerShowsTheText(title: string, lines: seq<string>)
    ensures Display(File(Objects(ContentStream(title, lines)))) == Some(Page(title, lines))
  {
    var stream := ContentStream(title, lines);
    TableReads(Objects(stream));
    var table := ReadTable(File(Objects(stream))).value;
    PageReads(stream, table);
    ContentReads(stream, table);
    StreamShowsTheText(title, lines);
  }

  /** The name that every placed string has for its font stands for a font, if and only if the content stream is
      shorter than ten thousand million bytes by 299. */
  lemma FontsFound(title: string, lines: seq<string>)
    ensures var stream := ContentStream(title, lines);
      var table := ReadTable(File(Objects(stream)));
      && table.Some?
      && forall placed :: placed in Page(title, lines) ==>
        FontOf(File(Objects(stream)), table.value, Joined(PAGE), placed.font)
          == if |stream| < 9_999_999_701 then Some(Joined(FONT)) else None
  {
    var stream := ContentStream(title, lines);
    var objects := Objects(stream);
    TableReads(objects);
    var b, table := File(objects), ReadTable(File(objects)).value;
    ObjectsHold(stream);
    PageFonts();
    PageFont();
    LastFontReads(objects, stream, table);
    forall placed | placed in Page(title, lines)
      ensures FontOf(b, table, Joined(PAGE), placed.font)
           == if |stream| < 9_999_999_701 then Some(Joined(FONT)) else None
    {
      FontOfEvery(title, lines, placed);
      FontFrom(b, table, Joined(PAGE), Joined(FontWords()), placed.font, 5);
    }
  }

  lemma FontFrom(b: string, table: Table, page: string, fonts: string, name: string, number: nat)
    ensures Find(page, "/Font << ") == Some(fonts) && name == "F1" && ReferenceUnder(fonts, "/F1 ") == Some(number)
      ==> FontOf(b, table, page, name) == DictionaryOf(b, table, number, "/Font ")
  {
    assert name == "F1" ==> "/" + name + " " == "/F1 ";
  }

  lemma LastFontReads(objects: seq<string>, stream: string, table: Table)
    requires Holds(objects, stream) && IsTable(objects, table) && objects[4] == Joined(FONT)
    ensures DictionaryOf(File(objects), table, 5, "/Font ")
         == if |stream| < 9_999_999_701 then Some(Joined(FONT)) else None
  {
    LastEntry(objects, stream, table);
    if |stream| < 9_999_999_701 {
      FontType();
      FontLine();
      DictionaryReads(objects, table, 5, "/Font ");
    }
  }

  lemma LastEntry(objects: seq<string>, stream: string, table: Table)
    requires Holds(objects, stream) && IsTable(objects, table)
    ensures ReadEntry(File(objects), table.xref, table.head, 5)
         == if |stream| < 9_999_999_701 then Some(Offset(objects, 5)) else None
  {
    TenDigits();
    StreamFits(objects, stream);
    forall i | 1 <= i < 5 ensures Offset(objects, i) < Power10(10) {
      FirstOffsets(objects, stream, i);
    }
    EntryReads(objects, 5);
  }

  lemma FontOfEvery(title: string, lines: seq<string>, placed: Placed)
    requires placed in Page(title, lines)
    ensures placed.font == "F1"
  {
    if placed != Page(title, lines)[0] {
      assert placed in Below(lines, 740);
      FontBelow(lines, 740, placed);
    }
  }

  lemma {:induction false} FontBelow(lines: seq<string>, y: int, placed: Placed)
    requires placed in Below(lines, y)
    ensures placed.font == "F1"
  {
    if placed != Below(lines, y)[0] {
      FontBelow(lines[1..], y - 16, placed);
    }
  }

  ghost predicate OnPage(p: Placed, box: seq<int>) {
    |box| == 4 && box[0] <= p.x <= box[2] && box[1] <= p.y <= box[3]
  }

  /** The title is on the page, and exactly the first 47 lines are: there is no second page. */
  lemma OnPageExactly(title: string, lines: seq<string>, i: nat)
    requires i < |lines|
    ensures |Page(title, lines)| == 1 + |lines| && Page(title, lines)[1 + i].text == Read(lines[i])
    ensures var box := BoxOf(Joined(PAGE));
      && box.Some? && OnPage(Page(title, lines)[0], box.value)
      && (OnPage(Page(title, lines)[1 + i], box.value) <==> i < 47)
  {
    PageBox();
    BelowAt(lines, 740, i);
  }
}
