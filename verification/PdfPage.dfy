/** What a content stream puts on its page: a reader for the operators that the hand-rolled PDF uses
    (`backend/scripts/seed_demo/media.py:454-459`), by sections 9.3.1, 9.4.1, 9.4.2 and 9.4.3 of ISO 32000-1: `Tf`
    chooses the font, `Td` moves to the start of the next line, `Tj` shows a string.
 */
module PdfPage {
  import opened AsciiText
  import opened Basics
  import opened PdfText

  /** A string on the page: where it starts, and the name of its font and its size. */
  datatype Placed = Placed(text: string, x: int, y: int, font: string, size: int)

  datatype Pen = Pen(x: int, y: int, font: string, size: int)

  const NO_PEN := Pen(0, 0, "", 0)

  /* ---------- Reading ---------- */

  function LineLength(b: string): (n: nat)
    ensures n <= |b|
  {
    if b == "" || b[0] == '\n' then 0 else 1 + LineLength(b[1..])
  }

  function AfterLine(b: string): (rest: string)
    ensures b != "" ==> |rest| < |b|
    ensures |rest| <= |b|
  {
    if LineLength(b) < |b| then b[LineLength(b) + 1..] else ""
  }

  function FirstBlank(s: string): (k: nat)
    ensures k <= |s|
  {
    if s == "" || s[0] == ' ' then 0 else 1 + FirstBlank(s[1..])
  }

  function Words(s: string): seq<string> {
    var k := FirstBlank(s);
    if k == |s| then [s] else [s[..k]] + Words(s[k + 1..])
  }

  function Number(w: string): Option<int> {
    if w != "" && AllDigits(w) then Some(Value(w))
    else if |w| > 1 && w[0] == '-' && AllDigits(w[1..]) then Some(-(Value(w[1..]) as int))
    else None
  }

  /** What an operator line does to the pen. */
  function Moved(pen: Pen, line: string): Pen {
    var w := Words(line);
    if w == ["BT"] then pen.(x := 0, y := 0)
    else if |w| == 3 && w[2] == "Td" && Number(w[0]).Some? && Number(w[1]).Some? then
      pen.(x := pen.x + Number(w[0]).value, y := pen.y + Number(w[1]).value)
    else if |w| == 3 && w[2] == "Tf" && w[0] != "" && w[0][0] == '/' && Number(w[1]).Some? then
      pen.(font := w[0][1..], size := Number(w[1]).value)
    else pen
  }

  /** The strings that the stream shows, in order. */
  function Placements(b: string, pen: Pen): seq<Placed>
    decreases |b|
  {
    if b == "" then []
    else if b[0] != '(' then Placements(AfterLine(b), Moved(pen, b[..LineLength(b)]))
    else match ReadString(b[1..], 0)
      case None => []
      case Some(l) =>
        (if l.rest[..LineLength(l.rest)] == " Tj" then [Placed(l.text, pen.x, pen.y, pen.font, pen.size)] else [])
        + Placements(AfterLine(l.rest), pen)
  }

  /* ---------- What should be on the page ---------- */

  /** The title at the top in 16 point, and below it a line every 16 units in 11 point. */
  function Page(title: string, lines: seq<string>): seq<Placed> {
    [Placed(Read(title), 72, 770, "F1", 16)] + Below(lines, 740)
  }

  function Below(lines: seq<string>, y: int): seq<Placed> {
    if lines == [] then [] else [Placed(Read(lines[0]), 72, y, "F1", 11)] + Below(lines[1..], y - 16)
  }

  lemma {:induction false} BelowAt(lines: seq<string>, y: int, i: nat)
    requires i < |lines|
    ensures |Below(lines, y)| == |lines| && Below(lines, y)[i] == Placed(Read(lines[i]), 72, y - 16 * i, "F1", 11)
  {
    BelowLength(lines, y);
    if i > 0 {
      BelowAt(lines[1..], y - 16, i - 1);
    }
  }

  lemma {:induction false} BelowLength(lines: seq<string>, y: int)
    ensures |Below(lines, y)| == |lines|
  {
    if lines != [] {
      BelowLength(lines[1..], y - 16);
    }
  }

  /* ---------- One part at a time ---------- */

  lemma {:induction false} LineThenRest(line: string, rest: string)
    requires '\n' !in line
    ensures LineLength(line + ("\n" + rest)) == |line| && AfterLine(line + ("\n" + rest)) == rest
    ensures (line + ("\n" + rest))[..|line|] == line
  {
    var b := line + ("\n" + rest);
    if line != "" {
      assert b[1..] == line[1..] + ("\n" + rest);
      LineThenRest(line[1..], rest);
    }
    assert b[|line| + 1..] == rest;
  }

  /** An operator line moves the pen, whatever follows. */
  lemma OperatorRead(line: string, rest: string, pen: Pen)
    requires line != "" && line[0] != '(' && '\n' !in line
    ensures Placements(line + ("\n" + rest), pen) == Placements(rest, Moved(pen, line))
  {
    LineThenRest(line, rest);
  }

  /** A literal and its `Tj` are placed where the pen is. */
  lemma TextRead(s: string, rest: string, pen: Pen)
    ensures Placements("(" + Encode(Escape(s)) + ") Tj" + ("\n" + rest), pen)
         == [Placed(Read(s), pen.x, pen.y, pen.font, pen.size)] + Placements(rest, pen)
  {
    var b, show := "(" + Encode(Escape(s)) + ") Tj" + ("\n" + rest), " Tj" + ("\n" + rest);
    assert b[1..] == Encode(Escape(s)) + ")" + show;
    LiteralRoundTrip(s, show);
    LineThenRest(" Tj", rest);
  }

  /** The same for the parts that are joined and encoded. */
  lemma OperatorPart(line: string, tail: seq<string>, pen: Pen)
    requires tail != [] && line != "" && line[0] != '(' && '\n' !in line
    requires forall i :: 0 <= i < |line| ==> line[i] as int < 256
    ensures Placements(Encode(Lines([line] + tail)), pen) == Placements(Encode(Lines(tail)), Moved(pen, line))
  {
    LinesCons(line, tail);
    EncodeAscii(line);
    Assoc(line, "\n", Encode(Lines(tail)));
    OperatorRead(line, Encode(Lines(tail)), pen);
  }

  lemma TextPart(s: string, tail: seq<string>, pen: Pen)
    requires tail != []
    ensures Placements(Encode(Lines(["(" + Escape(s) + ") Tj"] + tail)), pen)
         == [Placed(Read(s), pen.x, pen.y, pen.font, pen.size)] + Placements(Encode(Lines(tail)), pen)
  {
    LinesCons("(" + Escape(s) + ") Tj", tail);
    EncodedPart(s);
    Assoc("(" + Encode(Escape(s)) + ") Tj", "\n", Encode(Lines(tail)));
    TextRead(s, Encode(Lines(tail)), pen);
  }

  /* ---------- The operators that are used ---------- */

  lemma {:induction false} BlankAfter(w: string, rest: string)
    requires ' ' !in w
    ensures FirstBlank(w + (" " + rest)) == |w|
  {
    if w != "" {
      assert (w + (" " + rest))[1..] == w[1..] + (" " + rest);
      BlankAfter(w[1..], rest);
    }
  }

  lemma {:induction false} NoBlank(w: string)
    requires ' ' !in w
    ensures FirstBlank(w) == |w| && Words(w) == [w]
  {
    if w != "" {
      NoBlank(w[1..]);
    }
  }

  lemma WordThenRest(w: string, rest: string)
    requires ' ' !in w
    ensures Words(w + (" " + rest)) == [w] + Words(rest)
  {
    var s := w + (" " + rest);
    BlankAfter(w, rest);
    assert s[..|w|] == w && s[|w| + 1..] == rest;
  }

  lemma ThreeWords(a: string, b: string, c: string)
    requires ' ' !in a && ' ' !in b && ' ' !in c
    ensures Words(a + (" " + (b + (" " + c)))) == [a, b, c]
  {
    NoBlank(c);
    WordThenRest(b, c);
    WordThenRest(a, b + (" " + c));
  }

  lemma MovesTo(pen: Pen, x: string, y: string, dx: int, dy: int)
    requires ' ' !in x && ' ' !in y && Number(x) == Some(dx) && Number(y) == Some(dy)
    ensures Moved(pen, x + (" " + (y + (" " + "Td")))) == pen.(x := pen.x + dx, y := pen.y + dy)
  {
    ThreeWords(x, y, "Td");
  }

  lemma SetsFont(pen: Pen, name: string, size: string, n: int)
    requires ' ' !in name && ' ' !in size && Number(size) == Some(n)
    ensures Moved(pen, ("/" + name) + (" " + (size + (" " + "Tf")))) == pen.(font := name, size := n)
  {
    ThreeWords("/" + name, size, "Tf");
    assert ("/" + name)[1..] == name;
  }

  lemma OneDigit(w: string)
    requires |w| == 1 && AllDigits(w)
    ensures Value(w) == DigitValue(w[0])
  {
    assert w[..0] == "";
  }

  lemma TwoDigits(w: string)
    requires |w| == 2 && AllDigits(w)
    ensures Value(w) == 10 * DigitValue(w[0]) + DigitValue(w[1])
  {
    OneDigit(w[..1]);
  }

  lemma ThreeDigits(w: string)
    requires |w| == 3 && AllDigits(w)
    ensures Value(w) == 100 * DigitValue(w[0]) + 10 * DigitValue(w[1]) + DigitValue(w[2])
  {
    TwoDigits(w[..2]);
  }

  lemma SeventyTwo()
    ensures Number("72") == Some(72)
  {
    TwoDigits("72");
  }

  lemma SevenHundredSeventy()
    ensures Number("770") == Some(770)
  {
    ThreeDigits("770");
  }

  lemma NegativeTwo(w: string)
    requires |w| == 3 && w[0] == '-' && IsDigit(w[1]) && IsDigit(w[2])
    ensures Number(w) == Some(-(10 * DigitValue(w[1]) + DigitValue(w[2]))) && ' ' !in w
  {
    TwoDigits(w[1..]);
    assert !IsDigit(w[0]);
  }

  /** An operator line of three words in plain ASCII. */
  ghost predicate Operator(line: string, a: string, b: string, c: string) {
    && line == a + (" " + (b + (" " + c))) && a != "" && a[0] != '('
    && ' ' !in a && ' ' !in b && ' ' !in c
    && '\n' !in line && forall i :: 0 <= i < |line| ==> line[i] as int < 256
  }

  lemma DownThirty()
    ensures Operator("0 -30 Td", "0", "-30", "Td") && Number("-30") == Some(-30)
  {
    NegativeTwo("-30");
  }

  lemma DownSixteen()
    ensures Operator("0 -16 Td", "0", "-16", "Td") && Number("-16") == Some(-16)
  {
    NegativeTwo("-16");
  }

  /** Parts that move the pen, or choose the font, and what comes after them. */
  lemma MovePart(line: string, x: string, y: string, dx: int, dy: int, tail: seq<string>, pen: Pen)
    requires Operator(line, x, y, "Td") && tail != [] && Number(x) == Some(dx) && Number(y) == Some(dy)
    ensures Placements(Encode(Lines([line] + tail)), pen)
         == Placements(Encode(Lines(tail)), pen.(x := pen.x + dx, y := pen.y + dy))
  {
    OperatorPart(line, tail, pen);
    MovesTo(pen, x, y, dx, dy);
  }

  lemma DownPart(line: string, y: string, dy: int, tail: seq<string>, pen: Pen)
    requires Operator(line, "0", y, "Td") && tail != [] && Number(y) == Some(dy)
    ensures Placements(Encode(Lines([line] + tail)), pen) == Placements(Encode(Lines(tail)), pen.(y := pen.y + dy))
  {
    OperatorPart(line, tail, pen);
    assert Moved(pen, line) == pen.(y := pen.y + dy) by {
      OneDigit("0");
      MovesTo(pen, "0", y, 0, dy);
    }
  }

  lemma FontPart(line: string, name: string, size: string, n: int, tail: seq<string>, pen: Pen)
    requires line == ("/" + name) + (" " + (size + (" " + "Tf"))) && tail != []
    requires ' ' !in name && ' ' !in size && Number(size) == Some(n)
    requires '\n' !in line && forall i :: 0 <= i < |line| ==> line[i] as int < 256
    ensures Placements(Encode(Lines([line] + tail)), pen)
         == Placements(Encode(Lines(tail)), pen.(font := name, size := n))
  {
    OperatorPart(line, tail, pen);
    SetsFont(pen, name, size, n);
  }

  lemma BeginPart(tail: seq<string>, pen: Pen)
    requires tail != []
    ensures Placements(Encode(Lines(["BT"] + tail)), pen) == Placements(Encode(Lines(tail)), pen.(x := 0, y := 0))
  {
    OperatorPart("BT", tail, pen);
    NoBlank("BT");
  }

  lemma TitleFont(tail: seq<string>, pen: Pen)
    requires tail != []
    ensures Placements(Encode(Lines(["/F1 16 Tf"] + tail)), pen)
         == Placements(Encode(Lines(tail)), pen.(font := "F1", size := 16))
  {
    TwoDigits("16");
    FontPart("/F1 16 Tf", "F1", "16", 16, tail, pen);
  }

  lemma LineFont(tail: seq<string>, pen: Pen)
    requires tail != []
    ensures Placements(Encode(Lines(["/F1 11 Tf"] + tail)), pen)
         == Placements(Encode(Lines(tail)), pen.(font := "F1", size := 11))
  {
    TwoDigits("11");
    FontPart("/F1 11 Tf", "F1", "11", 11, tail, pen);
  }

  lemma ToTheTop(tail: seq<string>, pen: Pen)
    requires tail != []
    ensures Placements(Encode(Lines(["72 770 Td"] + tail)), pen)
         == Placements(Encode(Lines(tail)), pen.(x := pen.x + 72, y := pen.y + 770))
  {
    SeventyTwo();
    SevenHundredSeventy();
    MovePart("72 770 Td", "72", "770", 72, 770, tail, pen);
  }

  lemma BelowTheTitle(tail: seq<string>, pen: Pen)
    requires tail != []
    ensures Placements(Encode(Lines(["0 -30 Td"] + tail)), pen)
         == Placements(Encode(Lines(tail)), pen.(y := pen.y - 30))
  {
    DownThirty();
    DownPart("0 -30 Td", "-30", -30, tail, pen);
  }

  lemma NextLine(tail: seq<string>, pen: Pen)
    requires tail != []
    ensures Placements(Encode(Lines(["0 -16 Td"] + tail)), pen)
         == Placements(Encode(Lines(tail)), pen.(y := pen.y - 16))
  {
    DownSixteen();
    DownPart("0 -16 Td", "-16", -16, tail, pen);
  }

  /* ---------- The whole stream ---------- */

  lemma {:induction false} LinePartsPlaced(lines: seq<string>, y: int)
    ensures Placements(Encode(Lines(LineParts(lines) + ["ET"])), Pen(72, y, "F1", 11)) == Below(lines, y)
  {
    var pen := Pen(72, y, "F1", 11);
    if lines == [] {
      assert LineParts(lines) + ["ET"] == ["ET"];
      EncodeAscii("ET");
      assert "ET"[1..] == "T" && "T"[1..] == "";
      assert AfterLine("ET") == "";
    } else {
      var tail := LineParts(lines[1..]) + ["ET"];
      TwoThenMore("(" + Escape(lines[0]) + ") Tj", "0 -16 Td", LineParts(lines[1..]), ["ET"]);
      TextPart(lines[0], ["0 -16 Td"] + tail, pen);
      NextLine(tail, pen);
      LinePartsPlaced(lines[1..], y - 16);
    }
  }

  lemma BeforeTitle(tail: seq<string>)
    requires tail != []
    ensures Placements(Encode(Lines(["BT"] + (["/F1 16 Tf"] + (["72 770 Td"] + tail)))), NO_PEN)
         == Placements(Encode(Lines(tail)), Pen(72, 770, "F1", 16))
  {
    BeginPart(["/F1 16 Tf"] + (["72 770 Td"] + tail), NO_PEN);
    TitleFont(["72 770 Td"] + tail, NO_PEN);
    ToTheTop(tail, Pen(0, 0, "F1", 16));
  }

  lemma AfterTitle(tail: seq<string>)
    requires tail != []
    ensures Placements(Encode(Lines(["/F1 11 Tf"] + (["0 -30 Td"] + tail))), Pen(72, 770, "F1", 16))
         == Placements(Encode(Lines(tail)), Pen(72, 740, "F1", 11))
  {
    LineFont(["0 -30 Td"] + tail, Pen(72, 770, "F1", 16));
    BelowTheTitle(tail, Pen(72, 770, "F1", 11));
  }

  /** A reader of the content stream finds the title and then every line, each in its place and font, and nothing
      else. */
  lemma StreamShowsTheText(title: string, lines: seq<string>)
    ensures Placements(ContentStream(title, lines), NO_PEN) == Page(title, lines)
  {
    var tail := LineParts(lines) + ["ET"];
    assert tail != [];
    var rest := ["/F1 11 Tf"] + (["0 -30 Td"] + tail);
    var shown := ["(" + Escape(title) + ") Tj"] + rest;
    assert Parts(title, lines) == ["BT"] + (["/F1 16 Tf"] + (["72 770 Td"] + shown));
    BeforeTitle(shown);
    TextPart(title, rest, Pen(72, 770, "F1", 16));
    AfterTitle(tail);
    LinePartsPlaced(lines, 740);
  }
}
