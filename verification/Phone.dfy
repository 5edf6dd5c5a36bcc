/** Phone numbers (`backend/app/core/phone.py`). Strings are taken as ASCII. */
module Phone {
  import opened Basics
  import opened AsciiText

  const CL_CODE := "56"
  const NATIONAL_LENGTH := 9

  function DigitsOf(raw: Option<string>): string {
    OnlyDigits(if raw.Some? then raw.value else "")
  }

  function WithoutExit(digits: string): string {
    if |digits| >= 2 && digits[0] == '0' && digits[1] == '0' then digits[2..] else digits
  }

  function WithoutCode(digits: string): string {
    if CL_CODE <= digits && |digits| > NATIONAL_LENGTH then digits[2..] else digits
  }

  /** `s[-n:]`. */
  function Last(s: string, n: nat): string {
    if |s| <= n then s else s[|s| - n..]
  }

  /** `to_e164`. */
  function ToE164(raw: Option<string>): Option<string> {
    var all := DigitsOf(raw);
    if all == "" then None
    else
      var digits := WithoutCode(WithoutExit(all));
      if |digits| < 8 then None
      else Some("+56" + Last(if |digits| == 8 then "9" + digits else digits, NATIONAL_LENGTH))
  }

  /** `match_key`. */
  function MatchKey(raw: Option<string>): Option<string> {
    var all := DigitsOf(raw);
    if all == "" then None else Some(Last(WithoutCode(all), 8))
  }

  /** `same_number`. */
  predicate SameNumber(left: Option<string>, right: Option<string>) {
    var a, b := MatchKey(left), MatchKey(right);
    a.Some? && a.value != "" && a == b
  }

  /** A dialable number: the country code and nine digits. */
  ghost predicate Dialable(e: string) {
    |e| == 12 && e[..3] == "+56" && AllDigits(e[3..])
  }

  /** Cutting from the front leaves the last eight alone. */
  lemma LastOfTail(s: string, k: nat)
    requires k + 8 <= |s|
    ensures Last(s[k..], 8) == Last(s, 8)
  {
    assert s[k..][|s| - k - 8..] == s[|s| - 8..];
  }

  /** Neither prefix reaches the last eight digits. */
  lemma PrefixesKeepLast(all: string)
    requires |WithoutCode(WithoutExit(all))| >= 8
    ensures Last(WithoutCode(WithoutExit(all)), 8) == Last(all, 8) == Last(WithoutCode(all), 8)
  {
    var digits := WithoutExit(all);
    if digits != all {
      LastOfTail(all, 2);
    }
    if WithoutCode(digits) != digits {
      LastOfTail(digits, 2);
    }
    if WithoutCode(all) != all {
      LastOfTail(all, 2);
    }
  }

  /** The nine digits that are dialled end in the last eight of the spelling. */
  lemma NineEndInEight(digits: string)
    requires |digits| >= 8 && AllDigits(digits)
    ensures var nine := Last(if |digits| == 8 then "9" + digits else digits, NATIONAL_LENGTH);
      |nine| == 9 && AllDigits(nine) && nine[1..] == Last(digits, 8)
  {
  }

  lemma DialableParts(e: string)
    requires Dialable(e)
    ensures DigitsOf(Some(e)) == "56" + e[3..] && ToE164(Some(e)) == Some(e) && MatchKey(Some(e)) == Some(e[4..])
  {
    var national := e[3..];
    assert e == "+" + ("56" + national);
    assert AllDigits("56" + national);
    OnlyDigitsSkips("+", "56" + national);
    OnlyDigitsFixed("56" + national);
    assert ("56" + national)[2..] == national;
    assert e == "+56" + national;
  }

  /** What is dialable at all is dialable the way it was written, and matches it: wherever `to_e164` answers, its
      answer is a number of the one form, a fixed point, and has the match key of the original spelling. */
  lemma DialsTheSame(raw: Option<string>)
    requires ToE164(raw).Some?
    ensures var e := ToE164(raw).value;
      Dialable(e) && ToE164(Some(e)) == Some(e) && MatchKey(Some(e)) == MatchKey(raw) && MatchKey(raw) == Some(e[4..])
  {
    var all := DigitsOf(raw);
    OnlyDigitsDigits(if raw.Some? then raw.value else "");
    var digits := WithoutCode(WithoutExit(all));
    PrefixesKeepLast(all);
    NineEndInEight(digits);
    var nine := Last(if |digits| == 8 then "9" + digits else digits, NATIONAL_LENGTH);
    var e := "+56" + nine;
    assert e[3..] == nine && e[..3] == "+56";
    DialableParts(e);
    assert e[4..] == nine[1..];
  }

  lemma DialsLine(raw: string, digits: string, line: string)
    requires OnlyDigits(raw) == digits && digits != "" && 8 <= |line| <= 9
    requires WithoutCode(WithoutExit(digits)) == line
    ensures ToE164(Some(raw)) == Some("+56" + (if |line| == 8 then "9" + line else line))
  {
  }

  /** The digits that remain of a spelling with or without the country code and the exit prefix. */
  lemma PrefixStripped(code: bool, exit: bool, line: string)
    requires 8 <= |line| <= NATIONAL_LENGTH && (!code && !exit ==> !("00" <= line))
    ensures var digits := (if exit then "00" else "") + ((if code then CL_CODE else "") + line);
      WithoutCode(WithoutExit(digits)) == line
  {
    var inner := (if code then CL_CODE else "") + line;
    assert inner[0] == if code then '5' else line[0];
    assert !code ==> inner == line;
    assert ("00" + inner)[2..] == inner && "" + inner == inner;
    assert (CL_CODE + line)[2..] == line && "" + line == line;
  }

  /** The usual spellings of any line of nine digits, or of eight without the leading 9: with and without the country
      code, the exit prefix or a plus sign they all dial the same number. Only bare digits that begin as the exit
      prefix does lose two of them, and dial none. */
  lemma UsualSpellings(line: string, code: bool, exit: bool)
    requires 8 <= |line| <= 9 && AllDigits(line)
    ensures var digits := (if exit then "00" else "") + ((if code then CL_CODE else "") + line);
      var dialled :=
        if !code && !exit && "00" <= line then None
        else Some("+56" + (if |line| == 8 then "9" + line else line));
      ToE164(Some(digits)) == dialled && ToE164(Some("+" + digits)) == dialled
  {
    var digits := (if exit then "00" else "") + ((if code then CL_CODE else "") + line);
    assert AllDigits(digits);
    OnlyDigitsFixed(digits);
    OnlyDigitsSkips("+", digits);
    if !code && !exit && "00" <= line {
      assert digits == line;
    } else {
      PrefixStripped(code, exit, line);
      DialsLine(digits, digits, line);
      DialsLine("+" + digits, digits, line);
    }
  }

  /** Fewer than eight digits dial nothing; more than a line, with nothing to strip, dial their last nine. */
  lemma ShortAndLong(raw: Option<string>)
    ensures |DigitsOf(raw)| < 8 ==> ToE164(raw) == None
    ensures |DigitsOf(raw)| > 9 && !("00" <= DigitsOf(raw)) && !(CL_CODE <= DigitsOf(raw)) ==>
      ToE164(raw) == Some("+56" + DigitsOf(raw)[|DigitsOf(raw)| - 9..])
  {
  }

  /** The key is what the last eight digits are, of all that are written, and there is none without a digit. */
  lemma KeyIsLastEight(raw: Option<string>)
    ensures var all := DigitsOf(raw);
      MatchKey(raw) == if all == "" then None else Some(if |all| > 8 then all[|all| - 8..] else all)
  {
    var all := DigitsOf(raw);
    if WithoutCode(all) != all {
      LastOfTail(all, 2);
    }
  }

  /** Two dialable spellings are the same number exactly when what they dial agrees after the first national
      digit; in particular spellings that dial alike always match. */
  lemma SameNumberExact(x: Option<string>, y: Option<string>)
    requires ToE164(x).Some? && ToE164(y).Some?
    ensures SameNumber(x, y) <==> ToE164(x).value[4..] == ToE164(y).value[4..]
  {
    DialsTheSame(x);
    DialsTheSame(y);
  }

  /** Any two texts are the same number exactly when both have a digit and their last eight digits agree. */
  lemma SameNumberMeans(x: Option<string>, y: Option<string>)
    ensures var a, b := DigitsOf(x), DigitsOf(y);
      SameNumber(x, y) <==>
        && a != "" && b != ""
        && (if |a| > 8 then a[|a| - 8..] else a) == (if |b| > 8 then b[|b| - 8..] else b)
  {
    KeyIsLastEight(x);
    KeyIsLastEight(y);
  }

  /** On spellings with a digit in them, being the same number is an equivalence; without one, never. */
  lemma SameNumberEquivalence(x: Option<string>, y: Option<string>, z: Option<string>)
    ensures SameNumber(x, x) <==> DigitsOf(x) != ""
    ensures SameNumber(x, y) ==> SameNumber(y, x)
    ensures SameNumber(x, y) && SameNumber(y, z) ==> SameNumber(x, z)
  {
  }
}
