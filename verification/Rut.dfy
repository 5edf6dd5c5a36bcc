/** Chilean RUTs (`backend/app/core/rut.py`): the mod-11 check digit, normalisation and validation. Strings are
    taken as ASCII.
 */
module Rut {
  import opened AsciiText
  import opened Basics

  /* ---------- The check digit ---------- */

  /** The multiplier `places` digits from the right: 2 to 7, over and over. */
  function Multiplier(places: nat): nat {
    2 + places % 6
  }

  /** The weighted sum of the body; the last digit has no digit to its right. */
  function WeightedSum(body: string): int
    requires AllDigits(body)
  {
    if body == "" then 0 else WeightedSum(body[1..]) + DigitValue(body[0]) * Multiplier(|body| - 1)
  }

  function CheckDigit(total: int): char {
    var remainder := 11 - total % 11;
    if remainder == 11 then '0' else if remainder == 10 then 'K' else (remainder + '0' as int) as char
  }

  function Dv(body: string): char
    requires AllDigits(body)
  {
    CheckDigit(WeightedSum(body))
  }

  /** `compute_dv`. */
  method ComputeDv(body: string) returns (dv: char)
    requires AllDigits(body)
    ensures dv == Dv(body)
  {
    var total, multiplier := 0, 2;
    var i := |body|;
    assert body[|body|..] == "";
    while i > 0
      invariant 0 <= i <= |body|
      invariant multiplier == Multiplier(|body| - i)
      invariant total == WeightedSum(body[i..])
      decreases i
    {
      i := i - 1;
      assert body[i..][1..] == body[i + 1..];
      total := total + DigitValue(body[i]) * multiplier;
      multiplier := if multiplier == 7 then 2 else multiplier + 1;
    }
    assert body[0..] == body;
    assert Dv(body) == CheckDigit(total);
    var remainder := 11 - total % 11;
    if remainder == 11 {
      return '0';
    }
    if remainder == 10 {
      return 'K';
    }
    return (remainder + '0' as int) as char;
  }

  lemma CheckDigitExact(a: int, b: int)
    ensures CheckDigit(a) == CheckDigit(b) <==> (a - b) % 11 == 0
  {
  }

  function VerifierValue(c: char): nat
    requires IsDigit(c) || c == 'K'
  {
    if c == 'K' then 10 else DigitValue(c)
  }

  /** The mod-11 rule itself: a verifier is the check digit exactly when it completes the weighted sum to a
      multiple of eleven. */
  lemma DvCompletes(body: string, verifier: char)
    requires AllDigits(body) && (IsDigit(verifier) || verifier == 'K')
    ensures Dv(body) == verifier <==> (WeightedSum(body) + VerifierValue(verifier)) % 11 == 0
  {
    OwnCheckDigit(verifier);
    CheckDigitExact(WeightedSum(body), 0 - VerifierValue(verifier));
  }

  /** A verifier is the check digit of the total that its value completes to zero. */
  lemma OwnCheckDigit(verifier: char)
    requires IsDigit(verifier) || verifier == 'K'
    ensures CheckDigit(0 - VerifierValue(verifier)) == verifier
  {
    if verifier != 'K' {
      assert 0 <= DigitValue(verifier) <= 9;
    }
  }

  /** Changing one digit changes the sum by the difference times the multiplier of its place. */
  lemma {:induction false} SumChanges(body: string, i: nat, c: char)
    requires AllDigits(body) && i < |body| && IsDigit(c)
    ensures WeightedSum(body[i := c]) - WeightedSum(body)
         == (DigitValue(c) - DigitValue(body[i])) * Multiplier(|body| - 1 - i)
  {
    var body' := body[i := c];
    if i == 0 {
      assert body'[1..] == body[1..];
      Distribute(DigitValue(c), DigitValue(body[0]), Multiplier(|body| - 1));
    } else {
      assert body'[1..] == body[1..][i - 1 := c];
      SumChanges(body[1..], i - 1, c);
    }
  }

  lemma Distribute(a: int, b: int, m: int)
    ensures a * m - b * m == (a - b) * m
  {
  }

  /** 11 is prime: no product of a digit difference and a multiplier, or of two such differences, vanishes. */
  lemma NoZeroDivisor(d: int, m: int)
    requires -9 <= d <= 9 && -7 <= m <= 7
    ensures (d * m) % 11 == 0 <==> d == 0 || m == 0
  {
    if m == 1 || m == -1 { } else if m == 2 || m == -2 { } else if m == 3 || m == -3 { } else if m == 4 || m == -4 { }
    else if m == 5 || m == -5 { } else if m == 6 || m == -6 { } else if m == 7 || m == -7 { } else { }
  }

  /** Replacing a digit by a different one always changes the check digit, in bodies of any length. */
  lemma OneDigitDetected(body: string, i: nat, c: char)
    requires AllDigits(body) && i < |body| && IsDigit(c) && c != body[i]
    ensures Dv(body[i := c]) != Dv(body)
  {
    SumChanges(body, i, c);
    NoZeroDivisor(DigitValue(c) - DigitValue(body[i]), Multiplier(|body| - 1 - i));
    CheckDigitExact(WeightedSum(body[i := c]), WeightedSum(body));
  }

  function Swapped(body: string, i: nat, j: nat): string
    requires i < |body| && j < |body|
  {
    body[i := body[j]][j := body[i]]
  }

  /** Swapping two different digits changes the check digit exactly when their places are not a multiple of six
      apart. */
  lemma SwapDetected(body: string, i: nat, j: nat)
    requires AllDigits(body) && i < j < |body| && body[i] != body[j]
    ensures Dv(Swapped(body, i, j)) != Dv(body) <==> (j - i) % 6 != 0
  {
    var once := body[i := body[j]];
    SumChanges(body, i, body[j]);
    SumChanges(once, j, body[i]);
    var d := DigitValue(body[j]) - DigitValue(body[i]);
    var mi, mj := Multiplier(|body| - 1 - i), Multiplier(|body| - 1 - j);
    Opposite(d, mi, mj);
    assert WeightedSum(Swapped(body, i, j)) - WeightedSum(body) == d * (mi - mj);
    NoZeroDivisor(d, mi - mj);
    SameResidue(|body| - 1 - i, |body| - 1 - j);
    CheckDigitExact(WeightedSum(Swapped(body, i, j)), WeightedSum(body));
  }

  lemma Opposite(d: int, m: int, m': int)
    ensures d * m + (-d) * m' == d * (m - m')
  {
  }

  lemma SameResidue(a: nat, b: nat)
    requires b <= a
    ensures a % 6 == b % 6 <==> (a - b) % 6 == 0
  {
  }

  /* ---------- Normalising ---------- */

  /** What `str.strip` strips. */
  predicate IsSpace(c: char) {
    '\t' <= c <= '\r' || '\U{1C}' <= c <= ' '
  }

  function StripLeft(s: string): string {
    if s != "" && IsSpace(s[0]) then StripLeft(s[1..]) else s
  }

  function StripRight(s: string): string {
    if s != "" && IsSpace(s[|s| - 1]) then StripRight(s[..|s| - 1]) else s
  }

  function Strip(s: string): string {
    StripRight(StripLeft(s))
  }

  /** `replace(c, "")`. */
  function Without(s: string, c: char): string {
    if s == "" then "" else (if s[0] == c then "" else [s[0]]) + Without(s[1..], c)
  }

  function UpperChar(c: char): char {
    if 'a' <= c <= 'z' then (c as int - 32) as char else c
  }

  function Upper(s: string): string {
    if s == "" then "" else [UpperChar(s[0])] + Upper(s[1..])
  }

  /** The position after the last hyphen, or 0. */
  function AfterHyphen(s: string): (k: nat)
    ensures k <= |s|
  {
    if s == "" then 0 else if s[|s| - 1] == '-' then |s| else AfterHyphen(s[..|s| - 1])
  }

  /** `normalize_rut`; `None` is the `IndexError` on a text with nothing left. */
  function Normalize(raw: string): Option<string> {
    var cleaned := Strip(Without(Without(raw, '.'), ' '));
    if '-' !in cleaned then
      if cleaned == "" then None
      else Some(cleaned[..|cleaned| - 1] + "-" + Upper(cleaned[|cleaned| - 1..]))
    else
      var k := AfterHyphen(cleaned);
      Some((if k == 0 then "" else cleaned[..k - 1]) + "-" + Upper(cleaned[k..]))
  }

  /** The body and verifier the pattern of `validate_rut` matches. */
  ghost predicate Canonical(s: string) {
    && (|s| == 9 || |s| == 10)
    && AllDigits(s[..|s| - 2]) && s[|s| - 2] == '-'
    && (IsDigit(s[|s| - 1]) || s[|s| - 1] == 'K' || s[|s| - 1] == 'k')
  }

  /** `$` also matches before a final newline. */
  function Matched(s: string): string {
    if s != "" && s[|s| - 1] == '\n' then s[..|s| - 1] else s
  }

  /** `validate_rut`. */
  ghost predicate Valid(rut: string) {
    var m := Matched(rut);
    Canonical(m) && Dv(m[..|m| - 2]) == UpperChar(m[|m| - 1])
  }

  datatype Parsed = Absent | Rut(text: string) | Rejected

  /** `parse_rut`. */
  ghost function Parse(raw: Option<string>): Parsed {
    if raw.None? || Strip(raw.value) == "" then Absent
    else match Normalize(Strip(raw.value))
      case None => Rejected
      case Some(normalized) => if Valid(normalized) then Rut(normalized) else Rejected
  }

  /** A canonical RUT with an upper-case verifier: what normalising aims at. */
  ghost predicate Normal(s: string) {
    Canonical(s) && s[|s| - 1] != 'k'
  }

  lemma {:induction false} WithoutAbsent(s: string, c: char)
    requires forall i :: 0 <= i < |s| ==> s[i] != c
    ensures Without(s, c) == s
  {
    if s != "" {
      WithoutAbsent(s[1..], c);
    }
  }

  lemma StripNothing(s: string)
    requires s != "" ==> !IsSpace(s[0]) && !IsSpace(s[|s| - 1])
    ensures Strip(s) == s
  {
  }

  lemma AfterHyphenOf(body: string, verifier: char)
    requires verifier != '-'
    ensures AfterHyphen(body + "-" + [verifier]) == |body| + 1
  {
    var s := body + "-" + [verifier];
    assert s[..|s| - 1] == body + "-";
  }

  lemma UpperOne(c: char)
    ensures Upper([c]) == [UpperChar(c)]
  {
    assert [c][1..] == "";
  }

  lemma PlainIsClean(body: string, verifier: char)
    requires AllDigits(body) && body != "" && (IsDigit(verifier) || verifier == 'K')
    ensures Strip(body + "-" + [verifier]) == body + "-" + [verifier]
    ensures Without(body + "-" + [verifier], '.') == body + "-" + [verifier]
    ensures Without(body + "-" + [verifier], ' ') == body + "-" + [verifier]
  {
    var s := body + "-" + [verifier];
    assert s[0] == body[0];
    WithoutAbsent(s, '.');
    WithoutAbsent(s, ' ');
    StripNothing(s);
  }

  lemma PlainParts(body: string, verifier: char)
    ensures var s := body + "-" + [verifier];
      s[|body|] == '-' && s[..|body|] == body && s[|body| + 1..] == [verifier] && |s| == |body| + 2
  {
  }

  lemma WithoutAll(body: string, tail: string)
    requires AllDigits(body) && body != "" && |tail| == 1 && !IsSpace(tail[0]) && tail[0] != '.'
    ensures Strip(Without(Without(body + tail, '.'), ' ')) == body + tail
  {
    WithoutAbsent(body + tail, '.');
    WithoutAbsent(body + tail, ' ');
    StripNothing(body + tail);
  }

  /** With or without its hyphen, and whatever the case of its verifier, a RUT normalises to one text. */
  lemma HyphenAndCase(body: string, verifier: char)
    requires AllDigits(body) && body != "" && (IsDigit(verifier) || verifier == 'K' || verifier == 'k')
    ensures Normalize(body + [verifier]) == Some(body + "-" + [UpperChar(verifier)])
    ensures Normalize(body + "-" + [verifier]) == Some(body + "-" + [UpperChar(verifier)])
  {
    UpperOne(verifier);
    WithoutAll(body, [verifier]);
    var s := body + [verifier];
    assert s[..|s| - 1] == body && s[|s| - 1..] == [verifier];
    HyphenKept(body, verifier);
  }

  lemma HyphenKept(body: string, verifier: char)
    requires AllDigits(body) && body != "" && (IsDigit(verifier) || verifier == 'K' || verifier == 'k')
    ensures Normalize(body + "-" + [verifier]) == Some(body + "-" + Upper([verifier]))
  {
    var s := body + "-" + [verifier];
    assert s[0] == body[0];
    WithoutAbsent(s, '.');
    WithoutAbsent(s, ' ');
    StripNothing(s);
    AfterHyphenOf(body, verifier);
    assert s[|body|] == '-';
    assert s[..|body|] == body && s[|body| + 1..] == [verifier];
  }

  /** Digits, a hyphen and a verifier normalise to themselves, for bodies of any length. */
  lemma PlainIsFixed(body: string, verifier: char)
    requires AllDigits(body) && body != "" && (IsDigit(verifier) || verifier == 'K')
    ensures Normalize(body + "-" + [verifier]) == Some(body + "-" + [verifier])
  {
    HyphenAndCase(body, verifier);
  }

  lemma NormalSplits(s: string) returns (body: string, verifier: char)
    requires Normal(s)
    ensures s == body + "-" + [verifier] && AllDigits(body) && body != "" && (IsDigit(verifier) || verifier == 'K')
  {
    body, verifier := s[..|s| - 2], s[|s| - 1];
  }

  /** Normalising leaves a normal RUT alone. */
  lemma NormalIsFixed(s: string)
    requires Normal(s)
    ensures Strip(s) == s && Normalize(s) == Some(s) && Matched(s) == s
  {
    var body, verifier := NormalSplits(s);
    PlainIsClean(body, verifier);
    PlainIsFixed(body, verifier);
  }

  lemma {:induction false} StripEnds(s: string)
    ensures Strip(s) != "" ==> !IsSpace(Strip(s)[0]) && !IsSpace(Strip(s)[|Strip(s)| - 1])
  {
    StripLeftHead(s);
    StripRightEnds(StripLeft(s));
  }

  lemma {:induction false} StripLeftHead(s: string)
    ensures StripLeft(s) != "" ==> !IsSpace(StripLeft(s)[0])
  {
    if s != "" {
      StripLeftHead(s[1..]);
    }
  }

  lemma {:induction false} StripRightEnds(s: string)
    ensures StripRight(s) != "" ==> StripRight(s)[0] == s[0] && !IsSpace(StripRight(s)[|StripRight(s)| - 1])
  {
    if s != "" {
      StripRightEnds(s[..|s| - 1]);
    }
  }

  /** The verifier that normalising writes is never lower-case and never a line feed. */
  lemma NormalizedTail(raw: string)
    requires Normalize(raw).Some?
    ensures var n := Normalize(raw).value; n != "" && n[|n| - 1] != 'k' && n[|n| - 1] != '\n'
  {
    var cleaned := Strip(Without(Without(raw, '.'), ' '));
    StripEnds(Without(Without(raw, '.'), ' '));
    if '-' !in cleaned {
      UpperTail(cleaned[|cleaned| - 1..]);
    } else {
      UpperTail(cleaned[AfterHyphen(cleaned)..]);
    }
  }

  lemma {:induction false} UpperTail(s: string)
    ensures |Upper(s)| == |s| && forall i :: 0 <= i < |s| ==> Upper(s)[i] == UpperChar(s[i])
  {
    if s != "" {
      UpperTail(s[1..]);
    }
  }

  /** What `parse_rut` accepts is normal and carries its own check digit, and parsing it again changes nothing. */
  lemma ParseIdempotent(raw: Option<string>)
    ensures var p := Parse(raw);
      p.Rut? ==> Normal(p.text) && Dv(p.text[..|p.text| - 2]) == p.text[|p.text| - 1] && Parse(Some(p.text)) == p
  {
    if Parse(raw).Rut? {
      var text := Parse(raw).text;
      NormalizedTail(Strip(raw.value));
      assert Matched(text) == text && Normal(text);
      NormalIsFixed(text);
    }
  }

  /** A valid RUT with one digit of its body replaced is not valid. */
  lemma WrongDigitRejected(s: string, i: nat, c: char)
    requires Normal(s) && Valid(s) && i < |s| - 2 && IsDigit(c) && c != s[i]
    ensures !Valid(s[i := c])
  {
    var s', n := s[i := c], |s|;
    assert s'[..n - 2] == s[..n - 2][i := c];
    OneDigitDetected(s[..n - 2], i, c);
  }

  /** Exactly when `validate_rut` keeps its docstring: what it accepts is canonical if and only if it does not end
      in a line feed. */
  lemma AcceptedIsCanonicalExactly(s: string)
    requires Valid(s)
    ensures Canonical(s) <==> s[|s| - 1] != '\n'
  {
    assert s != "";
  }

  /** Where the code and its docstring part: any canonical RUT it accepts is still accepted with a newline after it. */
  lemma NewlineAccepted(s: string)
    requires Valid(s) && Canonical(s)
    ensures Valid(s + "\n") && !Canonical(s + "\n")
  {
    assert (s + "\n")[..|s|] == s;
  }

  lemma EightOnes()
    ensures WeightedSum("11111111") == 32
  {
    assert "11111111"[1..] == "1111111" && "1111111"[1..] == "111111" && "111111"[1..] == "11111";
    assert "11111"[1..] == "1111" && "1111"[1..] == "111" && "111"[1..] == "11" && "11"[1..] == "1" && "1"[1..] == "";
  }

  /** A text that shows it. */
  lemma NewlineExample()
    ensures Valid("11111111-1\n") && !Canonical("11111111-1\n")
  {
    EightOnes();
    assert "11111111-1\n" == "11111111-1" + "\n";
    assert "11111111-1"[..8] == "11111111";
    NewlineAccepted("11111111-1");
  }

  /** No caller meets that case: each validates what `normalize_rut` returned, which never ends in a line feed. */
  lemma NormalizedIsCanonical(raw: string)
    requires Normalize(raw).Some? && Valid(Normalize(raw).value)
    ensures Canonical(Normalize(raw).value)
  {
    NormalizedTail(raw);
    AcceptedIsCanonicalExactly(Normalize(raw).value);
  }

  /* ---------- What is accepted ---------- */

  /** The text of a RUT, and whether its verifier completes the weighted sum of its body to a multiple of eleven. */
  ghost predicate Spelled(s: string, body: string, verifier: char, end: string) {
    && s == body + "-" + [verifier] + end && AllDigits(body)
    && (IsDigit(verifier) || verifier == 'K' || verifier == 'k')
  }

  ghost predicate Completes(body: string, verifier: char)
    requires AllDigits(body) && (IsDigit(verifier) || verifier == 'K' || verifier == 'k')
  {
    (WeightedSum(body) + if IsDigit(verifier) then DigitValue(verifier) else 10) % 11 == 0
  }

  /** Validation is exact: a text is accepted if and only if it is seven or eight digits, a hyphen and a verifier
      that completes them, with at most a line feed after that. */
  lemma ValidExactly(s: string)
    ensures Valid(s) <==> exists body, verifier, end ::
      && Spelled(s, body, verifier, end) && 7 <= |body| <= 8 && (end == "" || end == "\n")
      && Completes(body, verifier)
  {
    if Valid(s) {
      var m := Matched(s);
      var body, verifier, end := m[..|m| - 2], m[|m| - 1], s[|m|..];
      assert Spelled(s, body, verifier, end);
      DvCompletes(body, UpperChar(verifier));
    }
    if body, verifier, end :|
      && Spelled(s, body, verifier, end) && 7 <= |body| <= 8 && (end == "" || end == "\n") && Completes(body, verifier)
    {
      SpelledIsValid(s, body, verifier, end);
    }
  }

  lemma SpelledIsValid(s: string, body: string, verifier: char, end: string)
    requires Spelled(s, body, verifier, end) && 7 <= |body| <= 8 && (end == "" || end == "\n")
    requires Completes(body, verifier)
    ensures Valid(s)
  {
    var m := body + "-" + [verifier];
    assert Matched(s) == m by {
      assert end == "" ==> s == m;
      assert end == "\n" ==> s[..|s| - 1] == m;
    }
    PlainParts(body, verifier);
    DvCompletes(body, UpperChar(verifier));
  }

  /** Whatever dots and blanks are in it, a text that spells a body and a verifier normalises to them. */
  lemma SpacedNormalizes(raw: string, body: string, verifier: char)
    requires AllDigits(body) && body != "" && (IsDigit(verifier) || verifier == 'K' || verifier == 'k')
    requires Without(Without(raw, '.'), ' ') == body + [verifier]
          || Without(Without(raw, '.'), ' ') == body + "-" + [verifier]
    ensures Normalize(raw) == Some(body + "-" + [UpperChar(verifier)])
  {
    HyphenAndCase(body, verifier);
    NormalizeCleaned(raw, Without(Without(raw, '.'), ' '));
  }

  lemma NormalizeCleaned(raw: string, clean: string)
    requires clean == Without(Without(raw, '.'), ' ')
    requires forall i :: 0 <= i < |clean| ==> clean[i] != '.' && clean[i] != ' '
    ensures Normalize(raw) == Normalize(clean)
  {
    WithoutAbsent(clean, '.');
    WithoutAbsent(clean, ' ');
  }

  /** Every right RUT of seven or eight digits is parsed, however it is spelled; a wrong one never is. A missing or
      blank text is no RUT and no error. */
  lemma ParseExactly(raw: string, body: string, verifier: char)
    requires AllDigits(body) && 7 <= |body| <= 8 && (IsDigit(verifier) || verifier == 'K' || verifier == 'k')
    requires Without(Without(Strip(raw), '.'), ' ') == body + [verifier]
          || Without(Without(Strip(raw), '.'), ' ') == body + "-" + [verifier]
    ensures Parse(Some(raw)) == if Completes(body, verifier) then Rut(body + "-" + [UpperChar(verifier)]) else Rejected
    ensures Parse(None) == Absent
  {
    assert Strip(raw) != "" by {
      assert Without("", '.') == "" && Without("", ' ') == "";
    }
    SpacedNormalizes(Strip(raw), body, verifier);
    NormalIsValidExactly(body, verifier);
    ParseOf(raw, body + "-" + [UpperChar(verifier)]);
  }

  lemma ParseOf(raw: string, normal: string)
    requires Strip(raw) != "" && Normalize(Strip(raw)) == Some(normal)
    ensures Parse(Some(raw)) == if Valid(normal) then Rut(normal) else Rejected
  {
  }

  lemma NormalIsValidExactly(body: string, verifier: char)
    requires AllDigits(body) && 7 <= |body| <= 8 && (IsDigit(verifier) || verifier == 'K' || verifier == 'k')
    ensures Valid(body + "-" + [UpperChar(verifier)]) <==> Completes(body, verifier)
  {
    var normal := body + "-" + [UpperChar(verifier)];
    PlainParts(body, UpperChar(verifier));
    DvCompletes(body, UpperChar(verifier));
    assert Matched(normal) == normal;
  }

  lemma BlankIsAbsent(raw: string)
    requires Strip(raw) == ""
    ensures Parse(Some(raw)) == Absent
  {
  }
}
