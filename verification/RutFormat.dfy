/** The two writers of dotted RUTs: the agent's `normalize_rut` (`backend/app/features/agent/postprocess.py:91-119`)
    and the front end's `formatRut` (`frontend/src/lib/locale-cl.ts:7-14`). Strings are taken as ASCII.
 */
module RutFormat {
  import opened AsciiText
  import opened Basics
  import opened Rut

  /* ---------- The agent ---------- */

  function Reverse(s: string): string {
    if s == "" then "" else Reverse(s[1..]) + [s[0]]
  }

  /** `".".join(rev[i : i + 3] for i in range(0, len(rev), 3))`. */
  function Chunks(rev: string): string {
    if |rev| <= 3 then rev else rev[..3] + "." + Chunks(rev[3..])
  }

  function Grouped(digits: string): string {
    Reverse(Chunks(Reverse(digits)))
  }

  predicate IsVerifier(c: char) {
    IsDigit(c) || c == 'K' || c == 'k'
  }

  /** Where the verifier pattern starts matching in a stripped text that ends in a verifier: before the blanks in
      front of it, and before a hyphen in front of those. */
  function TailStart(s: string): (k: nat)
    requires s != ""
    ensures k < |s|
  {
    StripRightShorter(s[..|s| - 1]);
    var w := |StripRight(s[..|s| - 1])|;
    if w > 0 && s[w - 1] == '-' then w - 1 else w
  }

  lemma {:induction false} StripRightShorter(s: string)
    ensures StripRight(s) <= s
  {
    if s != "" {
      StripRightShorter(s[..|s| - 1]);
    }
  }

  /** The rewritten field, when the text is rewritten at all. */
  function Rewritten(raw: string): Option<string> {
    var s := Strip(raw);
    if s == "" || !IsVerifier(s[|s| - 1]) then None
    else
      var digits := OnlyDigits(s[..TailStart(s)]);
      if |digits| < 7 then None
      else
        var last := if |digits| > 8 then digits[|digits| - 8..] else digits;
        Some(Grouped(last) + "-" + [UpperChar(s[|s| - 1])])
  }

  datatype Field = Text(text: string) | Other

  function RewrittenFields(fields: map<string, Field>): map<string, Field> {
    if "rut" in fields && fields["rut"].Text? && Rewritten(fields["rut"].text).Some?
    then fields["rut" := Text(Rewritten(fields["rut"].text).value)]
    else fields
  }

  class Action {
    var fields: map<string, Field>

    constructor (fields: map<string, Field>)
      ensures this.fields == fields
    {
      this.fields := fields;
    }

    /** `normalize_rut`: rewrites the field in place, or leaves the action as it was. */
    method NormalizeRut()
      modifies this
      ensures fields == RewrittenFields(old(fields))
      ensures "rut" in old(fields) && old(fields)["rut"].Text? ==>
        exists text :: Recovers(old(fields)["rut"].text, text)
          && fields == if text.Some? then old(fields)["rut" := Text(text.value)] else old(fields)
    {
      FieldsRecover(fields);
      if "rut" !in fields || !fields["rut"].Text? {
        return;
      }
      var s := Strip(fields["rut"].text);
      if s == "" || !IsVerifier(s[|s| - 1]) {
        return;
      }
      var verifier := UpperChar(s[|s| - 1]);
      var body := s[..TailStart(s)];
      var digits := OnlyDigits(body);
      if |digits| < 7 {
        return;
      }
      if |digits| > 8 {
        digits := digits[|digits| - 8..];
      }
      var grouped := Reverse(Chunks(Reverse(digits)));
      fields := fields["rut" := Text(grouped + "-" + [verifier])];
    }
  }

  /* ---------- The front end ---------- */

  /** `raw.replace(/[^0-9kK]/g, "").toUpperCase()`. */
  function Cleaned(raw: string): string {
    if raw == "" then "" else (if IsVerifier(raw[0]) then [UpperChar(raw[0])] else "") + Cleaned(raw[1..])
  }

  /** `replace(/\B(?=(\d{3})+(?!\d))/g, ".")` from index `i`: a dot goes between two word characters wherever the
      run of digits that follows is a positive multiple of three long. */
  function Dotted(body: string, i: nat): string
    requires i <= |body|
    decreases |body| - i
  {
    if i == |body| then ""
    else
      var run := DigitRun(body[i..]);
      (if i > 0 && run > 0 && run % 3 == 0 then "." else "") + [body[i]] + Dotted(body, i + 1)
  }

  /** `formatRut`. */
  function FormatRut(raw: string): string {
    var cleaned := Cleaned(raw);
    if |cleaned| < 2 then raw
    else Dotted(cleaned[..|cleaned| - 1], 0) + "-" + cleaned[|cleaned| - 1..]
  }

  /* ---------- The dots go in the same places ---------- */

  lemma {:induction false} ReverseConcat(a: string, b: string)
    ensures Reverse(a + b) == Reverse(b) + Reverse(a)
  {
    if a == "" {
      assert a + b == b && Reverse(b) + "" == Reverse(b);
    } else {
      assert (a + b)[1..] == a[1..] + b;
      ReverseConcat(a[1..], b);
      assert (Reverse(b) + Reverse(a[1..])) + [a[0]] == Reverse(b) + (Reverse(a[1..]) + [a[0]]);
    }
  }

  lemma {:induction false} ReverseTwice(s: string)
    ensures Reverse(Reverse(s)) == s && |Reverse(s)| == |s|
  {
    if s != "" {
      ReverseTwice(s[1..]);
      ReverseConcat(Reverse(s[1..]), [s[0]]);
      assert [s[0]][1..] == "";
    }
  }

  /** The groups of three, counted from the right. */
  lemma GroupedStep(front: string, last: string)
    requires front != "" && |last| == 3
    ensures Grouped(front + last) == Grouped(front) + ("." + last)
  {
    ReverseConcat(front, last);
    ReverseTwice(last);
    ReverseTwice(front);
    var rev := Reverse(last) + Reverse(front);
    assert rev[..3] == Reverse(last) && rev[3..] == Reverse(front);
    ReverseConcat(Reverse(last) + ".", Chunks(Reverse(front)));
    ReverseConcat(Reverse(last), ".");
    assert Reverse(".") == "." by { assert "."[1..] == ""; }
    assert Grouped(front) + ("." + last) == Grouped(front) + "." + last;
  }

  function Dot(i: nat, run: nat): string {
    if i > 0 && run > 0 && run % 3 == 0 then "." else ""
  }

  lemma DottedUnfold(body: string, i: nat)
    requires AllDigits(body) && i < |body|
    ensures Dotted(body, i) == Dot(i, |body| - i) + ([body[i]] + Dotted(body, i + 1))
  {
    DigitRunAll(body[i..]);
  }

  lemma {:induction false} DottedLastTwo(body: string, i: nat)
    requires AllDigits(body) && i <= |body| <= i + 2
    ensures Dotted(body, i) == body[i..]
    decreases |body| - i
  {
    if i < |body| {
      DottedUnfold(body, i);
      DottedLastTwo(body, i + 1);
      assert body[i..] == [body[i]] + body[i + 1..];
    }
  }

  lemma DottedEnd(body: string, i: nat)
    requires AllDigits(body) && 0 < i && |body| == i + 3
    ensures Dotted(body, i) == "." + body[i..]
  {
    DottedUnfold(body, i);
    assert Dot(i, |body| - i) == ".";
    DottedLastTwo(body, i + 1);
    assert body[i..] == [body[i]] + body[i + 1..];
  }

  lemma {:induction false} DottedStep(front: string, last: string, i: nat)
    requires AllDigits(front) && AllDigits(last) && front != "" && |last| == 3 && i <= |front|
    ensures Dotted(front + last, i) == Dotted(front, i) + ("." + last)
    decreases |front| - i
  {
    if i == |front| {
      DottedEnd(front + last, i);
      assert (front + last)[i..] == last;
    } else {
      DottedStep(front, last, i + 1);
      DottedBefore(front, last, i);
    }
  }

  /** One more digit in front of what is already dotted alike. */
  lemma DottedBefore(front: string, last: string, i: nat)
    requires AllDigits(front) && AllDigits(last) && |last| == 3 && i < |front|
    requires Dotted(front + last, i + 1) == Dotted(front, i + 1) + ("." + last)
    ensures Dotted(front + last, i) == Dotted(front, i) + ("." + last)
  {
    var dot, c, rest, tail := Dot(i, |front| - i), [front[i]], Dotted(front, i + 1), "." + last;
    assert Dotted(front + last, i) == dot + (c + (rest + tail)) by {
      DottedUnfold(front + last, i);
      assert (front + last)[i] == front[i] && Dot(i, |front| + 3 - i) == dot;
    }
    DottedUnfold(front, i);
    Assoc(c, rest, tail);
    Assoc(dot, c + rest, tail);
  }

  lemma DottedShort(body: string)
    requires AllDigits(body) && |body| <= 3
    ensures Dotted(body, 0) == body
  {
    if body != "" {
      DottedUnfold(body, 0);
      DottedLastTwo(body, 1);
      assert body == [body[0]] + body[1..];
    }
  }

  /** Both programs put the dots in the same places, in digit bodies of any length. */
  lemma {:induction false} GroupingsAgree(digits: string)
    requires AllDigits(digits)
    ensures Grouped(digits) == Dotted(digits, 0)
  {
    var n := |digits|;
    if n <= 3 {
      ReverseTwice(digits);
      DottedShort(digits);
    } else {
      var front, last := digits[..n - 3], digits[n - 3..];
      assert digits == front + last;
      GroupingsAgree(front);
      GroupedStep(front, last);
      DottedStep(front, last, 0);
    }
  }

  /* ---------- Round trips ---------- */

  /** Digits and dots, beginning and ending in a digit, that say `digits`. */
  ghost predicate Spells(dotted: string, digits: string) {
    && (forall i :: 0 <= i < |dotted| ==> IsDigit(dotted[i]) || dotted[i] == '.')
    && Without(dotted, '.') == digits && OnlyDigits(dotted) == digits && Cleaned(dotted) == digits
    && (dotted != "" ==> IsDigit(dotted[0]) && IsDigit(dotted[|dotted| - 1]))
  }

  lemma {:induction false} FiltersConcat(a: string, b: string)
    ensures Without(a + b, '.') == Without(a, '.') + Without(b, '.')
    ensures OnlyDigits(a + b) == OnlyDigits(a) + OnlyDigits(b)
    ensures Cleaned(a + b) == Cleaned(a) + Cleaned(b)
  {
    if a == "" {
      assert a + b == b;
    } else {
      assert (a + b)[1..] == a[1..] + b;
      FiltersConcat(a[1..], b);
      Assoc(if a[0] == '.' then "" else [a[0]], Without(a[1..], '.'), Without(b, '.'));
      Assoc(if IsDigit(a[0]) then [a[0]] else "", OnlyDigits(a[1..]), OnlyDigits(b));
      Assoc(if IsVerifier(a[0]) then [UpperChar(a[0])] else "", Cleaned(a[1..]), Cleaned(b));
    }
  }

  lemma {:induction false} DigitsSpell(s: string)
    requires AllDigits(s)
    ensures Spells(s, s)
  {
    if s != "" {
      DigitsSpell(s[1..]);
    }
  }

  lemma DotFiltered(s: string)
    ensures Without("." + s, '.') == Without(s, '.')
      && OnlyDigits("." + s) == OnlyDigits(s)
      && Cleaned("." + s) == Cleaned(s)
  {
    assert ("." + s)[1..] == s;
  }

  lemma EndsOf(a: string, b: string, c: string)
    requires a != "" && c != ""
    ensures var s := a + (b + c); s[0] == a[0] && s[|s| - 1] == c[|c| - 1]
  {
  }

  lemma SpellsStep(dotted: string, front: string, last: string)
    requires Spells(dotted, front) && dotted != "" && AllDigits(last) && last != ""
    ensures Spells(dotted + ("." + last), front + last)
  {
    DigitsSpell(last);
    DotFiltered(last);
    FiltersConcat(dotted, "." + last);
    EndsOf(dotted, ".", last);
  }

  lemma {:induction false} GroupedSpells(digits: string)
    requires AllDigits(digits)
    ensures Spells(Grouped(digits), digits) && |Grouped(digits)| >= |digits|
  {
    var n := |digits|;
    if n <= 3 {
      ReverseTwice(digits);
      DigitsSpell(digits);
    } else {
      var front, last := digits[..n - 3], digits[n - 3..];
      assert digits == front + last;
      GroupedSpells(front);
      GroupedStep(front, last);
      SpellsStep(Grouped(front), front, last);
    }
  }

  /** A dotted RUT: what both writers write. */
  ghost predicate Written(text: string, digits: string, verifier: char) {
    AllDigits(digits) && digits != "" && IsVerifier(verifier) && verifier != 'k'
      && text == Grouped(digits) + "-" + [verifier]
  }

  lemma FiltersOfWritten(dotted: string, digits: string, verifier: char)
    requires Spells(dotted, digits) && IsVerifier(verifier)
    ensures Without(dotted + "-" + [verifier], '.') == digits + "-" + [verifier]
    ensures Cleaned(dotted + "-" + [verifier]) == digits + [UpperChar(verifier)]
  {
    FiltersConcat(dotted + "-", [verifier]);
    FiltersConcat(dotted, "-");
    assert [verifier][1..] == "" && "-"[1..] == "";
  }

  /** Core normalisation strips the dots back to the digits and the verifier. */
  lemma WrittenNormalizes(text: string, digits: string, verifier: char)
    requires Written(text, digits, verifier)
    ensures Strip(text) == text && Normalize(text) == Some(digits + "-" + [verifier])
  {
    GroupedSpells(digits);
    FiltersOfWritten(Grouped(digits), digits, verifier);
    PlainIsClean(digits, verifier);
    PlainIsFixed(digits, verifier);
    StripNothing(text);
  }

  lemma {:induction false} StripRightDigits(s: string)
    ensures OnlyDigits(StripRight(s)) == OnlyDigits(s)
  {
    if s != "" && IsSpace(s[|s| - 1]) {
      var front := s[..|s| - 1];
      StripRightDigits(front);
      assert s == front + [s[|s| - 1]];
      FiltersConcat(front, [s[|s| - 1]]);
      assert [s[|s| - 1]][1..] == "";
      assert OnlyDigits(front) + "" == OnlyDigits(front);
    }
  }

  /** The pattern takes only blanks and a hyphen with the verifier: the digits recovered are all those before it. */
  lemma RecoveredDigits(s: string)
    requires s != ""
    ensures OnlyDigits(s[..TailStart(s)]) == OnlyDigits(s[..|s| - 1])
  {
    var front := s[..|s| - 1];
    StripRightShorter(front);
    StripRightDigits(front);
    var w := |StripRight(front)|;
    assert s[..w] == StripRight(front);
    if w > 0 && s[w - 1] == '-' {
      assert StripRight(front) == s[..w - 1] + "-";
      FiltersConcat(s[..w - 1], "-");
      assert "-"[1..] == "";
      assert OnlyDigits(s[..w - 1]) + "" == OnlyDigits(s[..w - 1]);
    }
  }

  lemma WrittenTail(text: string, digits: string, verifier: char)
    requires Written(text, digits, verifier)
    ensures text != "" && TailStart(text) == |Grouped(digits)| && text[..TailStart(text)] == Grouped(digits)
  {
    var g := Grouped(digits);
    assert text[..|text| - 1] == g + "-";
    assert StripRight(g + "-") == g + "-";
  }

  /** The digits of a field before its verifier. */
  function Before(s: string): string
    requires s != ""
  {
    OnlyDigits(s[..|s| - 1])
  }

  /** What the agent makes of a field: it is rewritten if and only if its stripped text ends in a verifier with at
      least seven digits before it. The text then normalises to exactly those digits, or to the last eight of more,
      and that verifier in upper case. */
  ghost predicate Recovers(raw: string, text: Option<string>) {
    var s := Strip(raw);
    && (text.Some? <==> s != "" && (IsDigit(s[|s| - 1]) || s[|s| - 1] in "Kk") && |Before(s)| >= 7)
    && (text.Some? ==>
          var digits := if |Before(s)| > 8 then Before(s)[|Before(s)| - 8..] else Before(s);
          && Normalize(text.value) == Some(digits + "-" + [UpperChar(s[|s| - 1])])
          && Written(text.value, digits, UpperChar(s[|s| - 1])))
  }

  lemma RewrittenRecovers(raw: string)
    ensures Recovers(raw, Rewritten(raw))
  {
    var s := Strip(raw);
    if s != "" {
      RecoveredDigits(s);
      if Rewritten(raw).Some? {
        var all := Before(s);
        OnlyDigitsDigits(s[..|s| - 1]);
        var digits := if |all| > 8 then all[|all| - 8..] else all;
        WrittenNormalizes(Rewritten(raw).value, digits, UpperChar(s[|s| - 1]));
      }
    }
  }

  lemma FieldsRecover(fields: map<string, Field>)
    ensures "rut" in fields && fields["rut"].Text? ==>
      exists text :: Recovers(fields["rut"].text, text)
        && RewrittenFields(fields) == if text.Some? then fields["rut" := Text(text.value)] else fields
  {
    if "rut" in fields && fields["rut"].Text? {
      RewrittenRecovers(fields["rut"].text);
    }
  }

  lemma FormatOf(raw: string, digits: string, verifier: char)
    requires AllDigits(digits) && digits != "" && Cleaned(raw) == digits + [verifier]
    ensures FormatRut(raw) == Grouped(digits) + "-" + [verifier]
  {
    GroupingsAgree(digits);
    var cleaned := Cleaned(raw);
    assert cleaned[..|cleaned| - 1] == digits && cleaned[|cleaned| - 1..] == [verifier];
  }

  /** It leaves alone what has no body or no verifier. */
  lemma FormatShort(raw: string)
    requires |Cleaned(raw)| < 2
    ensures FormatRut(raw) == raw
  {
  }

  /** The front end leaves a dotted RUT alone. */
  lemma FormatFixed(text: string, digits: string, verifier: char)
    requires Written(text, digits, verifier)
    ensures FormatRut(text) == text
  {
    GroupedSpells(digits);
    FiltersOfWritten(Grouped(digits), digits, verifier);
    FormatOf(text, digits, verifier);
  }

  lemma WrittenIsKept(text: string, digits: string, verifier: char)
    requires Written(text, digits, verifier) && 7 <= |digits| <= 8
    ensures Rewritten(text) == Some(text)
  {
    WrittenNormalizes(text, digits, verifier);
    WrittenTail(text, digits, verifier);
    GroupedSpells(digits);
  }

  /** What the agent writes: the last seven or eight digits and the verifier, dotted. It reads back through core
      normalisation, and neither writer changes it again. */
  lemma RewrittenRoundTrip(raw: string)
    requires Rewritten(raw).Some?
    ensures var text := Rewritten(raw).value;
      exists digits, verifier :: Written(text, digits, verifier) && 7 <= |digits| <= 8
        && Normalize(text) == Some(digits + "-" + [verifier])
        && Rewritten(text) == Some(text) && FormatRut(text) == text
  {
    var s, text := Strip(raw), Rewritten(raw).value;
    RewrittenRecovers(raw);
    var digits := if |Before(s)| > 8 then Before(s)[|Before(s)| - 8..] else Before(s);
    var verifier := UpperChar(s[|s| - 1]);
    WrittenNormalizes(text, digits, verifier);
    WrittenIsKept(text, digits, verifier);
    FormatFixed(text, digits, verifier);
  }

  /** From any undotted RUT, of any length, the front end writes the same text as the agent's grouping would. */
  lemma FormatWrites(digits: string, verifier: char)
    requires AllDigits(digits) && digits != "" && IsVerifier(verifier)
    ensures Written(FormatRut(digits + "-" + [verifier]), digits, UpperChar(verifier))
  {
    DigitsSpell(digits);
    FiltersOfWritten(digits, digits, verifier);
    FormatOf(digits + "-" + [verifier], digits, UpperChar(verifier));
  }

  /** The two canonical forms are each other's inverse: normalising what was written, and writing what is normal. */
  lemma WriteNormalizeInverse(s: string)
    requires Normal(s)
    ensures Normalize(FormatRut(s)) == Some(s)
  {
    var n := |s|;
    var digits, verifier := s[..n - 2], s[n - 1];
    assert s == digits + "-" + [verifier];
    FormatWrites(digits, verifier);
    WrittenNormalizes(FormatRut(s), digits, verifier);
  }
}
