/** The start-index resolution of slider.js: `_setStart` (the `start`
    option in almost any form) and `_parseN` (the clamp applied to short
    texts), together with the parts of JavaScript's `parseInt(s, 10)` and
    `Number.prototype.toString()` they rely on. */
module StartIndex {
  import opened Opt

  /** The `start` option as `_setStart` sees it: a string, an integral
      number, or anything else. Every other value — `undefined` (the option
      has no default), a boolean, an object, and also a non-integral number,
      NaN or an infinity, whose text is always at least three characters
      long and never "last" or "end" — lands in `StartOther`. */
  datatype StartValue = StartText(text: string) | StartNumber(value: int) | StartOther

  // ---------------------------------------------------------------------
  // parseInt(s, 10)
  // ---------------------------------------------------------------------

  /** White space that `parseInt` skips before the number (ECMAScript 5.1,
      sections 7.2, 7.3 and 15.1.2.2). */
  predicate IsJsSpace(c: char) {
    c == '\t' || c == '\n' || c == '\U{0B}' || c == '\U{0C}' || c == '\r' || c == ' '
    || c == '\U{A0}' || c == '\U{1680}' || ('\U{2000}' <= c <= '\U{200A}')
    || c == '\U{2028}' || c == '\U{2029}' || c == '\U{202F}' || c == '\U{205F}'
    || c == '\U{3000}' || c == '\U{FEFF}'
  }

  predicate IsDigit(c: char) {
    '0' <= c <= '9'
  }

  predicate AllDigits(d: string) {
    forall i :: 0 <= i < |d| ==> IsDigit(d[i])
  }

  function DigitValue(c: char): (v: nat)
    requires IsDigit(c)
    ensures v < 10
  {
    c as int - '0' as int
  }

  function DigitChar(k: nat): (c: char)
    requires k < 10
    ensures IsDigit(c) && DigitValue(c) == k
  {
    ('0' as int + k) as char
  }

  /** `s` with its leading white space removed. */
  function TrimStart(s: string): (t: string)
    ensures |t| <= |s| && t == s[|s| - |t|..]
    ensures forall i :: 0 <= i < |s| - |t| ==> IsJsSpace(s[i])
    ensures |t| > 0 ==> !IsJsSpace(t[0])
  {
    if |s| > 0 && IsJsSpace(s[0]) then TrimStart(s[1..]) else s
  }

  /** The longest prefix of `s` made of decimal digits. */
  function LeadingDigits(s: string): (d: string)
    ensures |d| <= |s| && d == s[..|d|]
    ensures AllDigits(d)
    ensures |d| < |s| ==> !IsDigit(s[|d|])
  {
    if |s| > 0 && IsDigit(s[0]) then [s[0]] + LeadingDigits(s[1..]) else []
  }

  /** The value of a string of decimal digits, most significant first. */
  function DigitsValue(d: string): nat
    requires AllDigits(d)
  {
    if |d| == 0 then 0 else DigitsValue(d[..|d| - 1]) * 10 + DigitValue(d[|d| - 1])
  }

  /** `parseInt(s, 10)`; `None` is NaN. Leading white space and one sign are
      skipped, then the longest run of digits is read; no digit means NaN. */
  function ParseInt(s: string): Option<int> {
    var t := TrimStart(s);
    var negative := |t| > 0 && t[0] == '-';
    var body := if |t| > 0 && (t[0] == '-' || t[0] == '+') then t[1..] else t;
    var digits := LeadingDigits(body);
    if |digits| == 0 then None
    else
      var magnitude: int := DigitsValue(digits);
      Some(if negative then -magnitude else magnitude)
  }

  // ---------------------------------------------------------------------
  // Number.prototype.toString() on an integral value
  // ---------------------------------------------------------------------

  /** Decimal digits of `k`, no leading zeros. */
  function NatToString(k: nat): (s: string)
    ensures |s| >= 1 && AllDigits(s)
    ensures |s| == 1 <==> k < 10
  {
    if k < 10 then [DigitChar(k)] else NatToString(k / 10) + [DigitChar(k % 10)]
  }

  /** The text of an integral number: a minus sign, then its digits. (From
      10^21 on JavaScript switches to exponent notation; either text is far
      longer than two characters, which is all `_setStart` looks at.) */
  function IntToString(v: int): (s: string)
    ensures forall i :: 0 <= i < |s| ==> s[i] == '-' || IsDigit(s[i])
    ensures Utf16Length(s) == |s|
  {
    if v < 0 then "-" + NatToString(-v) else NatToString(v)
  }

  // ---------------------------------------------------------------------
  // String.prototype.length
  // ---------------------------------------------------------------------

  /** A character outside the Basic Multilingual Plane, which JavaScript
      stores as a surrogate pair of two UTF-16 code units. */
  predicate IsAstral(c: char) {
    '\U{10000}' <= c
  }

  /** JavaScript's `length` of a text: its number of UTF-16 code units. */
  function Utf16Length(s: string): (r: nat)
    ensures |s| <= r <= 2 * |s|
    ensures r == |s| <==> forall i :: 0 <= i < |s| ==> !IsAstral(s[i])
  {
    if |s| == 0 then 0
    else (if IsAstral(s[0]) then 2 else 1) + Utf16Length(s[1..])
  }

  /** A string of digits is its own longest digit prefix. */
  lemma {:induction false} LeadingDigitsOfDigits(d: string)
    requires AllDigits(d)
    ensures LeadingDigits(d) == d
  {
    if |d| > 0 {
      LeadingDigitsOfDigits(d[1..]);
    }
  }

  lemma {:induction false} DigitsValueOfNatToString(k: nat)
    ensures DigitsValue(NatToString(k)) == k
  {
    if k >= 10 {
      var s := NatToString(k);
      var prefix := NatToString(k / 10);
      assert s[..|s| - 1] == prefix;
      DigitsValueOfNatToString(k / 10);
    }
  }

  /** Decimal text has at most two characters exactly for -9 .. 99. */
  lemma {:induction false} IntToStringShort(v: int)
    ensures |IntToString(v)| <= 2 <==> -9 <= v <= 99
  {
    if v >= 10 {
      assert |NatToString(v / 10)| >= 1;
      assert |NatToString(v / 10)| == 1 <==> v <= 99;
    } else if v <= -10 {
      assert |NatToString(-v)| >= 2;
    }
  }

  /** `parseInt` reads back the text of every integral number. */
  lemma ParseIntOfIntToString(v: int)
    ensures ParseInt(IntToString(v)) == Some(v)
  {
    var s := IntToString(v);
    var k: nat := if v < 0 then -v else v;
    var digits := NatToString(k);
    assert !IsJsSpace(s[0]);
    assert TrimStart(s) == s;
    if v < 0 {
      assert s[1..] == digits;
    }
    LeadingDigitsOfDigits(digits);
    DigitsValueOfNatToString(k);
  }

  // ---------------------------------------------------------------------
  // _parseN and _setStart
  // ---------------------------------------------------------------------

  /** The clamp `_parseN` applies to an already parsed integer. */
  function Clamp(v: int, size: nat): int {
    if v > size then size - 1 else if v < 0 then 0 else v
  }

  /** `_parseN`: `parseInt(n, 10) || 0`, then a value above `size` becomes
      `size - 1` and a negative one becomes 0. A value equal to `size` is
      kept, one past the last slide. */
  function ParseN(text: string, size: nat): (r: int)
    ensures ParseInt(text).None? ==> r == 0
    ensures ParseInt(text).Some? && ParseInt(text).value < 0 ==> r == 0
    ensures ParseInt(text).Some? && ParseInt(text).value > size ==> r == size - 1
    ensures ParseInt(text).Some? && 0 <= ParseInt(text).value <= size ==> r == ParseInt(text).value
    ensures size >= 1 ==> 0 <= r <= size
  {
    Clamp(ParseInt(text).GetOr(0), size)
  }

  /** `_setStart`: strings and numbers are turned into text; a text of at most
      two UTF-16 code units goes through `_parseN`, "last" and "end" name the last
      slide, and everything else starts at slide 0. */
  function SetStart(start: StartValue, size: nat): (r: int)
    ensures size >= 1 ==> 0 <= r <= size
    ensures start.StartOther? ==> r == 0
    ensures start.StartText? && (start.text == "last" || start.text == "end") ==> r == size - 1
    ensures start.StartText? && Utf16Length(start.text) <= 2 ==> r == ParseN(start.text, size)
    ensures start.StartText? && Utf16Length(start.text) > 2 && start.text != "last" && start.text != "end" ==> r == 0
  {
    var text := match start
      case StartText(t) => Some(t)
      case StartNumber(v) => Some(IntToString(v))
      case StartOther => None;
    match text
    case None => 0
    case Some(t) =>
      if Utf16Length(t) <= 2 then ParseN(t, size)
      else if t == "last" || t == "end" then size - 1
      else 0
  }

  /** A numeric `start` is clamped only when its text is at most two
      characters long (-9 .. 99); any other number starts at slide 0. */
  lemma SetStartNumber(v: int, size: nat)
    ensures -9 <= v <= 99 ==> SetStart(StartNumber(v), size) == Clamp(v, size)
    ensures (v < -9 || v > 99) ==> SetStart(StartNumber(v), size) == 0
  {
    var t := IntToString(v);
    IntToStringShort(v);
    assert t[0] == '-' || IsDigit(t[0]);
    assert t != "last" && t != "end";
    if |t| <= 2 {
      ParseIntOfIntToString(v);
      assert SetStart(StartNumber(v), size) == ParseN(t, size);
    } else {
      assert SetStart(StartNumber(v), size) == 0;
    }
  }

  /** The boundary the clamp misses: with 1 to 99 slides, `start` equal to the
      slide count, as a number or as its text, resolves to an index one past
      the last slide. */
  lemma SizeIsReturnedUnclamped(size: nat)
    requires 1 <= size <= 99
    ensures SetStart(StartNumber(size), size) == size
    ensures SetStart(StartText(IntToString(size)), size) == size
  {
    SetStartNumber(size, size);
    IntToStringShort(size);
    ParseIntOfIntToString(size);
  }

  /** Every start value the slider can be configured with resolves inside
      `[0, size)` unless it parses to exactly `size`. */
  lemma SetStartInRangeUnlessSize(start: StartValue, size: nat)
    requires size >= 1
    ensures var r := SetStart(start, size);
      0 <= r < size || (r == size && start.StartText? && ParseInt(start.text) == Some(size))
                    || (r == size && start.StartNumber? && start.value == size)
  {
    if start.StartNumber? {
      SetStartNumber(start.value, size);
    }
  }

  /** The length test counts UTF-16 code units: "1" followed by an emoji has
      two characters but three units, so it skips `_parseN` and, being
      neither "last" nor "end", starts at slide 0 rather than slide 1. */
  lemma AstralTextIsLong(size: nat)
    requires size >= 2
    ensures SetStart(StartText("1\U{1F600}"), size) == 0
    ensures ParseN("1\U{1F600}", size) == 1
  {
    var t := "1\U{1F600}";
    assert Utf16Length(t) == 3 by {
      assert t[1..][1..] == [];
    }
    assert LeadingDigits(t) == "1" by {
      assert LeadingDigits(t[1..]) == [];
    }
    assert TrimStart(t) == t;
    assert DigitsValue("1") == 1 by {
      assert "1"[..0] == [];
    }
    assert ParseInt(t) == Some(1);
  }
}
