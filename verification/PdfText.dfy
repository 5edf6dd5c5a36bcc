/** The text of the hand-rolled PDF (`backend/scripts/seed_demo/media.py`, lines 438-460): folding, escaping
    and the content stream, against a reader that follows section 7.3.4.2 of ISO 32000-1.

    A byte string is written as a string whose characters are all below U+0100, so that Latin-1 is the identity
    on it.
 */
module PdfText {
  import opened Basics
  import opened AsciiText

  /* ---------- Writing ---------- */

  function FoldChar(c: char): char {
    if c == '\U{2014}' || c == '\U{2013}' then '-'
    else if c == '\U{2018}' || c == '\U{2019}' then '\''
    else if c == '\U{201C}' || c == '\U{201D}' then '"'
    else c
  }

  /** `translate(_PDF_FOLD)`. */
  function Fold(s: string): string {
    if s == "" then "" else [FoldChar(s[0])] + Fold(s[1..])
  }

  /** `str.replace` of a single character. */
  function Replace(s: string, c: char, sub: string): string {
    if s == "" then "" else (if s[0] == c then sub else [s[0]]) + Replace(s[1..], c, sub)
  }

  /** `_pdf_escape`: the three replacements, one after the other. */
  function Escape(s: string): string {
    Replace(Replace(Replace(Fold(s), '\\', "\\\\"), '(', "\\("), ')', "\\)")
  }

  /** `encode("latin-1", "replace")`. */
  function Encode(s: string): string {
    if s == "" then "" else [if s[0] as int < 256 then s[0] else '?'] + Encode(s[1..])
  }

  /** `sep.join(parts)` for the newline. */
  function Lines(parts: seq<string>): string {
    if parts == [] then "" else if |parts| == 1 then parts[0] else parts[0] + "\n" + Lines(parts[1..])
  }

  function LineParts(lines: seq<string>): seq<string> {
    if lines == [] then [] else ["(" + Escape(lines[0]) + ") Tj", "0 -16 Td"] + LineParts(lines[1..])
  }

  function Parts(title: string, lines: seq<string>): seq<string> {
    ["BT", "/F1 16 Tf", "72 770 Td", "(" + Escape(title) + ") Tj", "/F1 11 Tf", "0 -30 Td"] + LineParts(lines) + ["ET"]
  }

  function ContentStream(title: string, lines: seq<string>): string {
    Encode(Lines(Parts(title, lines)))
  }

  /* ---------- Reading ---------- */

  datatype Literal = Literal(text: string, rest: string)

  predicate IsOctal(c: char) {
    '0' <= c <= '7'
  }

  /** The value of up to `n` octal digits, without the bits above the low byte, and how many there were. */
  function Octal(b: string, n: nat, value: nat): (int, nat) {
    if n == 0 || b == "" || !IsOctal(b[0]) then (value % 256, 0)
    else var (v, k) := Octal(b[1..], n - 1, value * 8 + (b[0] as int - '0' as int)); (v, k + 1)
  }

  lemma {:induction false} OctalRange(b: string, n: nat, value: nat)
    ensures 0 <= Octal(b, n, value).0 < 256 && Octal(b, n, value).1 <= |b|
    ensures n > 0 && b != "" && IsOctal(b[0]) ==> Octal(b, n, value).1 > 0
  {
    if n != 0 && b != "" && IsOctal(b[0]) {
      OctalRange(b[1..], n - 1, value * 8 + (b[0] as int - '0' as int));
    }
  }

  /** What an escape sequence stands for, and the length of what follows the backslash. */
  function EscapeSequence(b: string): (r: (string, nat))
    requires b != ""
    ensures 0 < r.1 <= |b|
  {
    match b[0]
    case 'n' => ("\n", 1)
    case 'r' => ("\r", 1)
    case 't' => ("\t", 1)
    case 'b' => ("\U{08}", 1)
    case 'f' => ("\U{0C}", 1)
    case '\n' => ("", 1)
    case '\r' => ("", if |b| > 1 && b[1] == '\n' then 2 else 1)
    case c =>
      if IsOctal(c) then
        OctalRange(b, 3, 0);
        var (v, k) := Octal(b, 3, 0); ([v as char], k)
      else ([c], 1)
  }

  /** Reads a literal string from after its opening parenthesis, `depth` more of which are still open: balanced
      parentheses nest, and an end-of-line marker reads as a line feed however it was written. */
  function ReadString(b: string, depth: nat): (r: Option<Literal>)
    ensures r.Some? ==> |r.value.rest| < |b|
    decreases |b|
  {
    if b == "" then None
    else if b[0] == ')' && depth == 0 then Some(Literal("", b[1..]))
    else if b[0] == ')' then Prepend(")", ReadString(b[1..], depth - 1))
    else if b[0] == '(' then Prepend("(", ReadString(b[1..], depth + 1))
    else if b[0] == '\r' then Prepend("\n", ReadString(b[if |b| > 1 && b[1] == '\n' then 2 else 1..], depth))
    else if b[0] != '\\' then Prepend([b[0]], ReadString(b[1..], depth))
    else if |b| == 1 then None
    else var (text, k) := EscapeSequence(b[1..]); Prepend(text, ReadString(b[1 + k..], depth))
  }

  function Prepend(text: string, r: Option<Literal>): (r': Option<Literal>)
    ensures r'.Some? ==> r.Some? && r'.value.rest == r.value.rest
  {
    if r.Some? then Some(Literal(text + r.value.text, r.value.rest)) else None
  }

  /** End-of-line markers as a reader sees them. */
  function Eol(s: string): string
    decreases |s|
  {
    if s == "" then ""
    else if s[0] != '\r' then [s[0]] + Eol(s[1..])
    else if |s| > 1 && s[1] == '\n' then "\n" + Eol(s[2..])
    else "\n" + Eol(s[1..])
  }

  /* ---------- Escaping ---------- */

  function EscapeChar(c: char): string {
    if c == '\\' || c == '(' || c == ')' then ['\\', c] else [c]
  }

  function EscapeEach(s: string): string {
    if s == "" then "" else EscapeChar(s[0]) + EscapeEach(s[1..])
  }

  lemma {:induction false} ReplaceConcat(s: string, t: string, c: char, sub: string)
    ensures Replace(s + t, c, sub) == Replace(s, c, sub) + Replace(t, c, sub)
  {
    if s == "" {
      assert s + t == t;
    } else {
      assert (s + t)[1..] == s[1..] + t;
      ReplaceConcat(s[1..], t, c, sub);
    }
  }

  lemma ReplaceOne(x: char, c: char, sub: string)
    ensures Replace([x], c, sub) == if x == c then sub else [x]
  {
    assert [x][1..] == "";
  }

  lemma ReplaceTwo(x: char, y: char, c: char, sub: string)
    requires x != c && y != c
    ensures Replace([x, y], c, sub) == [x, y]
  {
    assert [x, y] == [x] + [y];
    ReplaceConcat([x], [y], c, sub);
    ReplaceOne(x, c, sub);
    ReplaceOne(y, c, sub);
  }

  /** The three sequential replacements are one map over the characters, because the backslash goes first. */
  lemma {:induction false} ReplacesAreOneMap(t: string)
    ensures Replace(Replace(Replace(t, '\\', "\\\\"), '(', "\\("), ')', "\\)") == EscapeEach(t)
  {
    if t != "" {
      ReplacesAreOneMap(t[1..]);
      var head, r1 := if t[0] == '\\' then "\\\\" else [t[0]], Replace(t[1..], '\\', "\\\\");
      ReplaceConcat(head, r1, '(', "\\(");
      ReplaceTwo('\\', '\\', '(', "\\(");
      ReplaceOne(t[0], '(', "\\(");
      var head2 := if t[0] == '(' then "\\(" else head;
      assert Replace(head, '(', "\\(") == head2;
      ReplaceConcat(head2, Replace(r1, '(', "\\("), ')', "\\)");
      ReplaceTwo('\\', '\\', ')', "\\)");
      ReplaceTwo('\\', '(', ')', "\\)");
      ReplaceOne(t[0], ')', "\\)");
    }
  }

  /** The order matters: with a parenthesis first, its own backslash is escaped again. */
  lemma BackslashMustGoFirst()
    ensures Replace(Replace("(", '(', "\\("), '\\', "\\\\") != EscapeEach("(")
  {
    ReplaceOne('(', '(', "\\(");
    assert "\\(" == ['\\'] + ['('];
    ReplaceConcat(['\\'], ['('], '\\', "\\\\");
    ReplaceOne('\\', '\\', "\\\\");
    ReplaceOne('(', '\\', "\\\\");
    assert "("[1..] == "";
  }

  lemma {:induction false} EncodeConcat(s: string, t: string)
    ensures Encode(s + t) == Encode(s) + Encode(t)
  {
    if s == "" {
      assert s + t == t;
    } else {
      assert (s + t)[1..] == s[1..] + t;
      EncodeConcat(s[1..], t);
    }
  }

  lemma {:induction false} EncodeAscii(s: string)
    requires forall i :: 0 <= i < |s| ==> s[i] as int < 256
    ensures Encode(s) == s
  {
    if s != "" {
      EncodeAscii(s[1..]);
    }
  }

  /** Encoding leaves the delimiters alone, so it commutes with escaping. */
  lemma {:induction false} EncodeEscapeEach(t: string)
    ensures Encode(EscapeEach(t)) == EscapeEach(Encode(t))
  {
    if t != "" {
      EncodeConcat(EscapeChar(t[0]), EscapeEach(t[1..]));
      EncodeEscapeEach(t[1..]);
      if EscapeChar(t[0]) == [t[0]] {
        assert [t[0]][1..] == "";
      } else {
        EncodeAscii(EscapeChar(t[0]));
      }
      assert Encode(t)[1..] == Encode(t[1..]);
    }
  }

  lemma ReadPlain(c: char, after: string)
    requires c != '\\' && c != '(' && c != ')' && c != '\r'
    ensures ReadString([c] + after, 0) == Prepend([c], ReadString(after, 0))
  {
    assert ([c] + after)[1..] == after;
  }

  lemma ReadBackslashed(c: char, after: string)
    requires c == '\\' || c == '(' || c == ')'
    ensures ReadString(['\\', c] + after, 0) == Prepend([c], ReadString(after, 0))
  {
    var b := ['\\', c] + after;
    assert b[1..] == [c] + after && b[2..] == after;
    assert EscapeSequence(b[1..]) == ([c], 1);
  }

  lemma ReadReturn(after: string)
    ensures after == "" || after[0] != '\n' ==> ReadString("\r" + after, 0) == Prepend("\n", ReadString(after, 0))
    ensures ReadString("\r\n" + after, 0) == Prepend("\n", ReadString(after, 0))
  {
    assert ("\r" + after)[1..] == after && ("\r\n" + after)[2..] == after;
  }

  lemma EscapedHead(t: string, rest: string)
    requires t != ""
    ensures EscapeEach(t) + ")" + rest == EscapeChar(t[0]) + (EscapeEach(t[1..]) + ")" + rest)
  {
  }

  /** Reading what escaping wrote stops at the closing parenthesis and gives the text back, up to its
      end-of-line markers. */
  lemma {:induction false} ReadEscaped(t: string, rest: string)
    ensures ReadString(EscapeEach(t) + ")" + rest, 0) == Some(Literal(Eol(t), rest))
    decreases |t|, 1
  {
    if t == "" {
      assert (EscapeEach(t) + ")" + rest)[1..] == rest;
    } else {
      EscapedHead(t, rest);
      ReadEscaped(t[1..], rest);
      if EscapeChar(t[0]) != [t[0]] {
        ReadBackslashed(t[0], EscapeEach(t[1..]) + ")" + rest);
      } else if t[0] != '\r' {
        ReadPlain(t[0], EscapeEach(t[1..]) + ")" + rest);
      } else {
        ReadEscapedReturn(t, rest);
      }
    }
  }

  lemma EscapedLineEnd(t: string, rest: string)
    requires |t| > 1 && t[0] == '\r' && t[1] == '\n'
    ensures EscapeEach(t) + ")" + rest == "\r\n" + (EscapeEach(t[2..]) + ")" + rest)
    ensures Eol(t) == "\n" + Eol(t[2..])
  {
    var next, tail := t[1..], EscapeEach(t[2..]);
    assert next[0] == '\n' && next[1..] == t[2..];
    assert EscapeEach(next) == "\n" + tail;
    assert EscapeEach(t) == "\r\n" + tail by {
      Assoc("\r", "\n", tail);
    }
    Assoc("\r\n", tail, ")");
    Assoc("\r\n", tail + ")", rest);
  }

  lemma {:induction false} ReadEscapedReturn(t: string, rest: string)
    requires t != "" && t[0] == '\r'
    ensures ReadString(EscapeEach(t) + ")" + rest, 0) == Some(Literal(Eol(t), rest))
    decreases |t|, 0
  {
    if |t| > 1 && t[1] == '\n' {
      EscapedLineEnd(t, rest);
      ReadReturn(EscapeEach(t[2..]) + ")" + rest);
      ReadEscaped(t[2..], rest);
    } else {
      EscapedHead(t, rest);
      assert (EscapeEach(t[1..]) + ")" + rest)[0] == '\n' <==> t[1..] != "" && t[1..][0] == '\n' by {
        if t[1..] != "" {
          EscapedHead(t[1..], rest);
        }
      }
      ReadReturn(EscapeEach(t[1..]) + ")" + rest);
      ReadEscaped(t[1..], rest);
    }
  }

  /** No reader ever sees a carriage return, so a text survives exactly when it has none. */
  lemma {:induction false} EolExact(s: string)
    ensures '\r' !in Eol(s)
    ensures Eol(s) == s <==> '\r' !in s
    decreases |s|
  {
    if s != "" {
      if s[0] == '\r' && |s| > 1 && s[1] == '\n' {
        EolExact(s[2..]);
      } else {
        EolExact(s[1..]);
        assert '\r' in s <==> s[0] == '\r' || '\r' in s[1..];
      }
    }
  }

  lemma {:induction false} FoldEncodeKeepsReturns(s: string)
    ensures '\r' in Encode(Fold(s)) <==> '\r' in s
  {
    if s != "" {
      FoldEncodeKeepsReturns(s[1..]);
      assert Fold(s)[1..] == Fold(s[1..]);
      assert '\r' in s <==> s[0] == '\r' || '\r' in s[1..];
    }
  }

  /** The bytes a reader gets back for a text. */
  function Read(s: string): string {
    Eol(Encode(Fold(s)))
  }

  /** The literal written for a text reads back, stopping at its own parenthesis; the folded text itself comes
      back if and only if it holds no carriage return. */
  lemma LiteralRoundTrip(s: string, rest: string)
    ensures ReadString(Encode(Escape(s)) + ")" + rest, 0) == Some(Literal(Read(s), rest))
    ensures Read(s) == Encode(Fold(s)) <==> '\r' !in s
  {
    ReplacesAreOneMap(Fold(s));
    EncodeEscapeEach(Fold(s));
    ReadEscaped(Encode(Fold(s)), rest);
    EolExact(Encode(Fold(s)));
    FoldEncodeKeepsReturns(s);
  }

  /* ---------- The content stream ---------- */

  lemma EncodedPart(s: string)
    ensures Encode("(" + Escape(s) + ") Tj") == "(" + Encode(Escape(s)) + ") Tj"
  {
    EncodeConcat("(" + Escape(s), ") Tj");
    EncodeConcat("(", Escape(s));
    EncodeAscii("(");
    EncodeAscii(") Tj");
  }

  lemma LinesCons(head: string, tail: seq<string>)
    requires tail != []
    ensures Encode(Lines([head] + tail)) == Encode(head) + "\n" + Encode(Lines(tail))
  {
    assert ([head] + tail)[1..] == tail;
    EncodeConcat(head + "\n", Lines(tail));
    EncodeConcat(head, "\n");
    EncodeAscii("\n");
  }

  lemma TwoThenMore(a: string, b: string, more: seq<string>, tail: seq<string>)
    ensures [a, b] + more + tail == [a] + ([b] + (more + tail))
  {
  }

  lemma {:induction false} FoldLength(s: string)
    ensures |Fold(s)| == |s|
  {
    if s != "" {
      FoldLength(s[1..]);
    }
  }

  lemma {:induction false} EncodeLength(s: string)
    ensures |Encode(s)| == |s|
  {
    if s != "" {
      EncodeLength(s[1..]);
    }
  }

  /** What folding and encoding make of a character: dashes and quotes become plain, Latin-1 stays, and nothing else
      survives. */
  function Plain(c: char): char {
    if c in "\U{2014}\U{2013}" then '-'
    else if c in "\U{2018}\U{2019}" then '\''
    else if c in "\U{201C}\U{201D}" then '"'
    else if c as int < 256 then c
    else '?'
  }

  lemma {:induction false} FoldedExactly(s: string, i: nat)
    requires i < |s|
    ensures |Encode(Fold(s))| == |s| && Encode(Fold(s))[i] == Plain(s[i])
  {
    FoldLength(s);
    EncodeLength(Fold(s));
    assert Fold(s)[1..] == Fold(s[1..]);
    if i > 0 {
      FoldedExactly(s[1..], i - 1);
    }
  }

  /** A text comes back as it was exactly when it is Latin-1 without a carriage return. */
  lemma ReadExact(s: string)
    ensures Read(s) == s <==> forall i :: 0 <= i < |s| ==> s[i] as int < 256 && s[i] != '\r'
  {
    FoldLength(s);
    EncodeLength(Fold(s));
    FoldEncodeKeepsReturns(s);
    EolExact(Encode(Fold(s)));
    forall i | 0 <= i < |s| ensures Encode(Fold(s))[i] == Plain(s[i]) {
      FoldedExactly(s, i);
    }
  }

  lemma {:induction false} EscapeEachLength(s: string)
    ensures |s| <= |EscapeEach(s)|
  {
    if s != "" {
      EscapeEachLength(s[1..]);
    }
  }

  lemma {:induction false} LinesLength(parts: seq<string>, i: nat)
    requires i < |parts|
    ensures |parts[i]| <= |Lines(parts)|
  {
    if i > 0 {
      LinesLength(parts[1..], i - 1);
    }
  }

  /** A content stream is longer than its title. */
  lemma StreamLongerThanTitle(title: string, lines: seq<string>)
    ensures |title| < |ContentStream(title, lines)|
  {
    FoldLength(title);
    ReplacesAreOneMap(Fold(title));
    EscapeEachLength(Fold(title));
    LinesLength(Parts(title, lines), 3);
    EncodeLength(Lines(Parts(title, lines)));
  }
}
