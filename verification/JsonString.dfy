/** String literals: `print_string_ptr`, `parse_string`, `parse_hex4` and
    `utf16_literal_to_utf8` of cJSON. */
module JsonString {
  import opened Wrappers
  import opened JsonTree

  const QUOTE: char := '\"'
  const BACKSLASH: char := '\\'
  const BACKSPACE: char := '\U{8}'
  const FORM_FEED: char := '\U{c}'

  /** `s` stands in `content` at index `i`. */
  predicate At(content: string, i: nat, s: string) {
    i + |s| <= |content| && content[i..i + |s|] == s
  }

  lemma AtSplit(content: string, i: nat, a: string, b: string)
    requires At(content, i, a + b)
    ensures At(content, i, a) && At(content, i + |a|, b)
  {
    assert (a + b)[..|a|] == a && (a + b)[|a|..] == b;
    assert content[i..i + |a|] == content[i..i + |a + b|][..|a|];
    assert content[i + |a|..i + |a| + |b|] == content[i..i + |a + b|][|a|..];
  }

  lemma AtIndex(content: string, i: nat, s: string, k: nat)
    requires At(content, i, s) && k < |s|
    ensures i + k < |content| && content[i + k] == s[k]
  {
    assert content[i..i + |s|][k] == content[i + k];
  }

  // ---------------------------------------------------------------- printing

  function HexChar(d: nat): char
    requires d < 16
  {
    if d < 10 then '0' + d as char else 'a' + (d - 10) as char
  }

  predicate NeedsShortEscape(c: char) {
    c == QUOTE || c == BACKSLASH || c == BACKSPACE || c == FORM_FEED || c == '\n' || c == '\r' || c == '\t'
  }

  /** The text one input byte becomes. */
  function EscapeByte(c: char): string {
    if c == QUOTE then "\\\""
    else if c == BACKSLASH then "\\\\"
    else if c == BACKSPACE then "\\b"
    else if c == FORM_FEED then "\\f"
    else if c == '\n' then "\\n"
    else if c == '\r' then "\\r"
    else if c == '\t' then "\\t"
    else if c as int < 32 then "\\u00" + [HexChar(c as int / 16), HexChar(c as int % 16)]
    else [c]
  }

  function Escape(s: string): string {
    if s == "" then "" else EscapeByte(s[0]) + Escape(s[1..])
  }

  function Quote(s: string): string { [QUOTE] + Escape(s) + [QUOTE] }

  // ---------------------------------------------------------------- UTF-8

  predicate IsScalar(cp: nat) { cp <= 0x10FFFF && !(0xD800 <= cp <= 0xDFFF) }

  /** The UTF-8 form of a code point (section 3 of RFC 3629). */
  function Utf8(cp: nat): (r: string)
    requires cp <= 0x10FFFF
    ensures 1 <= |r| <= 4
    ensures cp < 0x10000 ==> |r| <= 3
  {
    if cp < 0x80 then [cp as char]
    else if cp < 0x800 then [(0xC0 + cp / 0x40) as char, (0x80 + cp % 0x40) as char]
    else if cp < 0x10000 then
      [(0xE0 + cp / 0x1000) as char, (0x80 + cp / 0x40 % 0x40) as char, (0x80 + cp % 0x40) as char]
    else
      [(0xF0 + cp / 0x40000) as char, (0x80 + cp / 0x1000 % 0x40) as char,
       (0x80 + cp / 0x40 % 0x40) as char, (0x80 + cp % 0x40) as char]
  }

  // ---------------------------------------------------------------- decoding

  function HexValue(c: char): Option<nat> {
    if '0' <= c <= '9' then Some(c as int - '0' as int)
    else if 'A' <= c <= 'F' then Some(10 + c as int - 'A' as int)
    else if 'a' <= c <= 'f' then Some(10 + c as int - 'a' as int)
    else None
  }

  /** `parse_hex4`: zero when any of the four characters is not a hex digit. */
  function Hex4(content: string, p: nat): (h: nat)
    requires p + 4 <= |content|
    ensures h < 0x10000
  {
    match (HexValue(content[p]), HexValue(content[p + 1]), HexValue(content[p + 2]), HexValue(content[p + 3]))
    case (Some(a), Some(b), Some(c), Some(d)) => ((a * 16 + b) * 16 + c) * 16 + d
    case _ => 0
  }

  /** The code point of the `\u` literal at `p` and the length of the literal. */
  function Utf16Literal(content: string, p: nat, end: nat): (r: Option<(nat, nat)>)
    requires p <= end < |content|
    ensures r.Some? ==> r.value.0 <= 0x10FFFF && p + r.value.1 <= end
    ensures r.Some? ==> (r.value.1 == 6 && r.value.0 < 0x10000) || r.value.1 == 12
  {
    if end - p < 6 then None
    else
      var first := Hex4(content, p + 2);
      if 0xDC00 <= first <= 0xDFFF then None
      else if 0xD800 <= first <= 0xDBFF then
        if end - (p + 6) < 6 then None
        else if content[p + 6] != BACKSLASH || content[p + 7] != 'u' then None
        else
          var second := Hex4(content, p + 8);
          if second < 0xDC00 || second > 0xDFFF then None
          else Some((0x10000 + first % 0x400 * 0x400 + second % 0x400, 12))
      else Some((first, 6))
  }

  /** What a one-letter escape stands for. */
  function ShortEscape(c: char): Option<char> {
    if c == 'b' then Some(BACKSPACE)
    else if c == 'f' then Some(FORM_FEED)
    else if c == 'n' then Some('\n')
    else if c == 'r' then Some('\r')
    else if c == 't' then Some('\t')
    else if c == QUOTE || c == BACKSLASH || c == '/' then Some(c)
    else None
  }

  /** The bytes of the escape sequence at `p` and the length it is skipped by. */
  function EscapeAt(content: string, p: nat, end: nat): (r: Option<(string, nat)>)
    requires p < end < |content|
    ensures r.Some? ==> 0 < r.value.1 && p + r.value.1 <= end + 1
  {
    if content[p + 1] == 'u' then
      match Utf16Literal(content, p, end)
      case Some((cp, length)) => Some((Utf8(cp), length))
      case None => None
    else
      match ShortEscape(content[p + 1])
      case Some(c) => Some(([c], 2))
      case None => None
  }

  /** One round of the second scan: a plain byte or an escape sequence. */
  function UnitAt(content: string, p: nat, end: nat): (r: Option<(string, nat)>)
    requires p < end < |content|
    ensures r.Some? ==> 0 < r.value.1 && p + r.value.1 <= end + 1
  {
    if content[p] == BACKSLASH then EscapeAt(content, p, end) else Some(([content[p]], 1))
  }

  /** Index of the closing quote found by the first scan of `parse_string`. */
  function StringEnd(content: string, p: nat): (r: Option<nat>)
    requires p <= |content|
    ensures r.Some? ==> p <= r.value < |content| && content[r.value] == QUOTE
    decreases |content| - p
  {
    if p == |content| then None
    else if content[p] == QUOTE then Some(p)
    else if content[p] == BACKSLASH then
      if p + 1 == |content| then None else StringEnd(content, p + 2)
    else StringEnd(content, p + 1)
  }

  /** The bytes written by the second scan, from `p` up to the closing quote.
      The last escape may swallow the quote itself, hence `end + 1`. */
  function Unescape(content: string, p: nat, end: nat): Option<string>
    requires p <= end + 1 && end < |content|
    decreases end + 1 - p
  {
    if p >= end then Some("")
    else
      match UnitAt(content, p, end)
      case Some((bytes, length)) => Prepend(bytes, Unescape(content, p + length, end))
      case None => None
  }

  function Prepend(s: string, r: Option<string>): Option<string> {
    match r
    case Some(t) => Some(s + t)
    case None => None
  }

  // ---------------------------------------------------------------- results

  /** One printed byte decodes back to itself, whatever follows it. */
  lemma EscapeByteDecodes(content: string, p: nat, end: nat, c: char)
    requires c != NUL && c < 256 as char
    requires At(content, p, EscapeByte(c)) && p + |EscapeByte(c)| <= end < |content|
    ensures Unescape(content, p, end) == Prepend([c], Unescape(content, p + |EscapeByte(c)|, end))
    ensures StringEnd(content, p) == StringEnd(content, p + |EscapeByte(c)|)
  {
    var e := EscapeByte(c);
    AtIndex(content, p, e, 0);
    if e != [c] {
      AtIndex(content, p, e, 1);
      if c as int < 32 && !NeedsShortEscape(c) {
        ControlByteDecodes(content, p, end, c);
      }
    }
  }

  lemma ControlByteDecodes(content: string, p: nat, end: nat, c: char)
    requires c != NUL && c as int < 32 && !NeedsShortEscape(c)
    requires At(content, p, EscapeByte(c)) && p + 6 <= end < |content|
    ensures UnitAt(content, p, end) == Some(([c], 6))
    ensures StringEnd(content, p) == StringEnd(content, p + 6)
  {
    var e := EscapeByte(c);
    AtIndex(content, p, e, 0);
    AtIndex(content, p, e, 1);
    AtIndex(content, p, e, 2);
    AtIndex(content, p, e, 3);
    AtIndex(content, p, e, 4);
    AtIndex(content, p, e, 5);
    assert Hex4(content, p + 2) == c as int;
    assert StringEnd(content, p + 2) == StringEnd(content, p + 3) == StringEnd(content, p + 4)
      == StringEnd(content, p + 5);
  }

  lemma EscapeByteExtends(content: string, p: nat, end: nat, c: char, rest: string)
    requires c != NUL && c < 256 as char
    requires At(content, p, EscapeByte(c)) && p + |EscapeByte(c)| <= end < |content|
    requires StringEnd(content, p + |EscapeByte(c)|) == Some(end)
    requires Unescape(content, p + |EscapeByte(c)|, end) == Some(rest)
    ensures StringEnd(content, p) == Some(end)
    ensures Unescape(content, p, end) == Some([c] + rest)
  {
    EscapeByteDecodes(content, p, end, c);
  }

  /** Both scans undo `Escape` on every NUL-free byte string. */
  lemma {:induction false} EscapeDecodes(content: string, p: nat, s: string)
    requires IsCString(s) && At(content, p, Escape(s) + [QUOTE])
    ensures StringEnd(content, p) == Some(p + |Escape(s)|)
    ensures Unescape(content, p, p + |Escape(s)|) == Some(s)
    decreases |s|
  {
    hide UnitAt, EscapeByte, At;
    AtIndex(content, p, Escape(s) + [QUOTE], |Escape(s)|);
    if s != "" {
      var c, rest := s[0], s[1..];
      var e := EscapeByte(c);
      assert Escape(s) + [QUOTE] == e + (Escape(rest) + [QUOTE]);
      AtSplit(content, p, e, Escape(rest) + [QUOTE]);
      EscapeDecodes(content, p + |e|, rest);
      EscapeByteExtends(content, p, p + |Escape(s)|, c, rest);
      assert [c] + rest == s;
    }
  }

  const LOWER := "0123456789abcdef"
  const UPPER := "0123456789ABCDEF"

  /** A hexadecimal digit in either case. */
  predicate IsDigitOf(c: char, d: nat) { d < 16 && (c == LOWER[d] || c == UPPER[d]) }

  lemma HexIs(c: char, d: nat)
    ensures HexValue(c) == Some(d) <==> IsDigitOf(c, d)
  {
  }

  /** `\uXXXX` at `p`, every digit in any case. */
  predicate IsUnitLiteral(content: string, p: nat, unit: nat) {
    && p + 6 <= |content| && unit < 0x10000
    && content[p] == BACKSLASH && content[p + 1] == 'u'
    && IsDigitOf(content[p + 2], unit / 0x1000) && IsDigitOf(content[p + 3], unit / 0x100 % 0x10)
    && IsDigitOf(content[p + 4], unit / 0x10 % 0x10) && IsDigitOf(content[p + 5], unit % 0x10)
  }

  lemma DigitsOf(unit: nat)
    ensures ((unit / 0x1000 * 16 + unit / 0x100 % 0x10) * 16 + unit / 0x10 % 0x10) * 16 + unit % 0x10 == unit
  {
    var a, b := unit / 0x10, unit / 0x100;
    assert a / 16 == b && b / 16 == unit / 0x1000;
    assert a * 16 + unit % 16 == unit && b * 16 + a % 16 == a && b / 16 * 16 + b % 16 == b;
  }

  lemma UnitReads(content: string, p: nat, unit: nat)
    requires IsUnitLiteral(content, p, unit)
    ensures Hex4(content, p + 2) == unit
  {
    hide HexValue, IsDigitOf;
    DigitsOf(unit);
    HexIs(content[p + 2], unit / 0x1000);
    HexIs(content[p + 3], unit / 0x100 % 0x10);
    HexIs(content[p + 4], unit / 0x10 % 0x10);
    HexIs(content[p + 5], unit % 0x10);
  }

  /** The escapes of a scalar value: one unit, or a surrogate pair above 0xFFFF. */
  predicate IsScalarLiteral(content: string, p: nat, cp: nat)
    requires IsScalar(cp)
  {
    if cp < 0x10000 then IsUnitLiteral(content, p, cp)
    else
      && IsUnitLiteral(content, p, 0xD800 + (cp - 0x10000) / 0x400)
      && IsUnitLiteral(content, p + 6, 0xDC00 + (cp - 0x10000) % 0x400)
  }

  lemma SurrogatePair(content: string, p: nat, end: nat, high: nat, low: nat)
    requires high < 0x400 && low < 0x400 && p + 12 <= end < |content|
    requires Hex4(content, p + 2) == 0xD800 + high && Hex4(content, p + 8) == 0xDC00 + low
    requires content[p + 6] == BACKSLASH && content[p + 7] == 'u'
    ensures Utf16Literal(content, p, end) == Some((0x10000 + high * 0x400 + low, 12))
  {
    hide Hex4;
  }

  /** The `\u` escapes of every Unicode scalar value, in any case, decode to its UTF-8 form. */
  lemma ScalarLiteralDecodes(content: string, p: nat, end: nat, cp: nat)
    requires IsScalar(cp) && end < |content|
    requires p + (if cp < 0x10000 then 6 else 12) <= end
    requires IsScalarLiteral(content, p, cp)
    ensures EscapeAt(content, p, end) == Some((Utf8(cp), if cp < 0x10000 then 6 else 12))
  {
    hide Hex4, IsDigitOf;
    if cp < 0x10000 {
      UnitReads(content, p, cp);
    } else {
      var high, low := (cp - 0x10000) / 0x400, (cp - 0x10000) % 0x400;
      UnitReads(content, p, 0xD800 + high);
      UnitReads(content, p + 6, 0xDC00 + low);
      SurrogatePair(content, p, end, high, low);
    }
  }

  ghost predicate NoLowSurrogate(content: string, p: nat) {
    forall low :: 0xDC00 <= low <= 0xDFFF ==> !IsUnitLiteral(content, p, low)
  }

  /** A lone or misordered surrogate is refused. */
  lemma BrokenSurrogateRefused(content: string, p: nat, end: nat, unit: nat)
    requires p + 6 <= end < |content| && IsUnitLiteral(content, p, unit) && 0xD800 <= unit <= 0xDFFF
    requires unit <= 0xDBFF ==>
      p + 12 > end || NoLowSurrogate(content, p + 6)
    ensures EscapeAt(content, p, end) == None
  {
    hide Hex4, IsDigitOf;
    UnitReads(content, p, unit);
    if unit <= 0xDBFF && p + 12 <= end && content[p + 6] == BACKSLASH && content[p + 7] == 'u' {
      var low := Hex4(content, p + 8);
      if 0xDC00 <= low <= 0xDFFF {
        ReadsUnit(content, p + 6, low);
      }
    }
  }

  /** Four characters that read as a number other than zero are its digits. */
  lemma ReadsUnit(content: string, p: nat, unit: nat)
    requires p + 6 <= |content| && content[p] == BACKSLASH && content[p + 1] == 'u'
    requires Hex4(content, p + 2) == unit && unit != 0
    ensures IsUnitLiteral(content, p, unit)
  {
    hide HexValue, IsDigitOf;
    var a, b := HexValue(content[p + 2]).value, HexValue(content[p + 3]).value;
    var c, d := HexValue(content[p + 4]).value, HexValue(content[p + 5]).value;
    HexIs(content[p + 2], a);
    HexIs(content[p + 3], b);
    HexIs(content[p + 4], c);
    HexIs(content[p + 5], d);
    DigitBound(content[p + 2], a);
    DigitBound(content[p + 3], b);
    DigitBound(content[p + 4], c);
    DigitBound(content[p + 5], d);
    FourDigits(a, b, c, d);
  }

  lemma DigitBound(c: char, d: nat)
    ensures IsDigitOf(c, d) ==> d < 16
  {
  }

  lemma FourDigits(a: nat, b: nat, c: nat, d: nat)
    requires a < 16 && b < 16 && c < 16 && d < 16
    ensures var n := ((a * 16 + b) * 16 + c) * 16 + d;
      n / 0x1000 == a && n / 0x100 % 0x10 == b && n / 0x10 % 0x10 == c && n % 0x10 == d
  {
  }

  ghost predicate NoDigit(c: char) { forall d :: !IsDigitOf(c, d) }

  /** Four characters that are not all hexadecimal digits stand for NUL. */
  lemma BadHexIsNul(content: string, p: nat, end: nat, k: nat)
    requires p + 6 <= end < |content| && content[p] == BACKSLASH && content[p + 1] == 'u'
    requires 2 <= k < 6 && NoDigit(content[p + k])
    ensures UnitAt(content, p, end) == Some(([NUL], 6))
  {
    hide HexValue, IsDigitOf;
    if HexValue(content[p + k]).Some? {
      HexIs(content[p + k], HexValue(content[p + k]).value);
    }
    assert Hex4(content, p + 2) == 0;
    assert Utf8(0) == [NUL];
  }

  /** The letters of the short escapes, and what they stand for. */
  const LETTERS := ['b', 'f', 'n', 'r', 't', '\"', '\\', '/']
  const MEANINGS := [8 as char, 12 as char, 10 as char, 13 as char, 9 as char, '\"', '\\', '/']

  lemma ShortEscapesAre(c: char, m: char)
    ensures ShortEscape(c) == Some(m) <==> exists i :: 0 <= i < 8 && c == LETTERS[i] && m == MEANINGS[i]
  {
    if ShortEscape(c) == Some(m) {
      var i := if c == 'b' then 0 else if c == 'f' then 1 else if c == 'n' then 2 else if c == 'r' then 3
        else if c == 't' then 4 else if c == QUOTE then 5 else if c == BACKSLASH then 6 else 7;
      assert c == LETTERS[i] && m == MEANINGS[i];
    }
  }

  // ---------------------------------------------------------------- any spelling

  /** One way to write some bytes of a string: themselves, a short escape, or the escape of
      a scalar value with its digits in any case. */
  datatype Unit = Plain(c: char) | Short(i: nat) | Scalar(cp: nat, text: string)

  predicate IsUnit(u: Unit) {
    match u
    case Plain(c) => c != QUOTE && c != BACKSLASH
    case Short(i) => i < 8
    case Scalar(cp, text) =>
      IsScalar(cp) && |text| == (if cp < 0x10000 then 6 else 12) && IsScalarLiteral(text, 0, cp)
  }

  function UnitText(u: Unit): string
    requires IsUnit(u)
  {
    match u
    case Plain(c) => [c]
    case Short(i) => [BACKSLASH, LETTERS[i]]
    case Scalar(_, text) => text
  }

  function UnitBytes(u: Unit): string
    requires IsUnit(u)
  {
    match u
    case Plain(c) => [c]
    case Short(i) => [MEANINGS[i]]
    case Scalar(cp, _) => Utf8(cp)
  }

  predicate AllUnits(units: seq<Unit>) { forall i :: 0 <= i < |units| ==> IsUnit(units[i]) }

  function Spelling(units: seq<Unit>): string
    requires AllUnits(units)
  {
    if units == [] then "" else UnitText(units[0]) + Spelling(units[1..])
  }

  function Bytes(units: seq<Unit>): string
    requires AllUnits(units)
  {
    if units == [] then "" else UnitBytes(units[0]) + Bytes(units[1..])
  }

  lemma UnitSpells(content: string, p: nat, end: nat, u: Unit)
    requires IsUnit(u) && At(content, p, UnitText(u)) && p + |UnitText(u)| <= end < |content|
    ensures UnitAt(content, p, end) == Some((UnitBytes(u), |UnitText(u)|))
    ensures StringEnd(content, p) == StringEnd(content, p + |UnitText(u)|)
  {
    hide EscapeAt, IsScalarLiteral, StringEnd, ShortEscape, At;
    var text := UnitText(u);
    AtIndex(content, p, text, 0);
    match u {
      case Plain(c) => StringEndStep(content, p);
      case Short(i) =>
        AtIndex(content, p, text, 1);
        ShortEscapesAre(LETTERS[i], MEANINGS[i]);
        ShortSpells(content, p, end, i);
        StringEndStep(content, p);
      case Scalar(cp, _) =>
        LiteralMoves(content, p, text, cp);
        ScalarLiteralDecodes(content, p, end, cp);
        LiteralSkipped(content, p, cp);
    }
  }

  lemma ShortSpells(content: string, p: nat, end: nat, i: nat)
    requires i < 8 && p + 2 <= end < |content| && content[p + 1] == LETTERS[i]
    requires ShortEscape(LETTERS[i]) == Some(MEANINGS[i])
    ensures EscapeAt(content, p, end) == Some(([MEANINGS[i]], 2))
  {
  }

  lemma StringEndStep(content: string, p: nat)
    requires p < |content| && content[p] != QUOTE
    ensures content[p] != BACKSLASH ==> StringEnd(content, p) == StringEnd(content, p + 1)
    ensures content[p] == BACKSLASH && p + 1 < |content| ==> StringEnd(content, p) == StringEnd(content, p + 2)
  {
  }

  lemma LiteralMoves(content: string, p: nat, text: string, cp: nat)
    requires IsScalar(cp) && |text| == (if cp < 0x10000 then 6 else 12) && IsScalarLiteral(text, 0, cp)
    requires At(content, p, text)
    ensures IsScalarLiteral(content, p, cp) && content[p] == BACKSLASH
  {
    hide At, IsDigitOf;
    forall k | 0 <= k < |text|
      ensures p + k < |content| && content[p + k] == text[k]
    {
      AtIndex(content, p, text, k);
    }
  }

  lemma DigitIsPlain(c: char, d: nat)
    requires IsDigitOf(c, d)
    ensures c != QUOTE && c != BACKSLASH
  {
  }

  lemma UnitSkipped(content: string, p: nat, unit: nat)
    requires IsUnitLiteral(content, p, unit)
    ensures StringEnd(content, p) == StringEnd(content, p + 6)
  {
    hide IsDigitOf, StringEnd;
    DigitIsPlain(content[p + 2], unit / 0x1000);
    DigitIsPlain(content[p + 3], unit / 0x100 % 0x10);
    DigitIsPlain(content[p + 4], unit / 0x10 % 0x10);
    DigitIsPlain(content[p + 5], unit % 0x10);
    StringEndStep(content, p);
    StringEndStep(content, p + 2);
    StringEndStep(content, p + 3);
    StringEndStep(content, p + 4);
    StringEndStep(content, p + 5);
  }

  lemma LiteralSkipped(content: string, p: nat, cp: nat)
    requires IsScalar(cp) && IsScalarLiteral(content, p, cp)
    ensures StringEnd(content, p) == StringEnd(content, p + if cp < 0x10000 then 6 else 12)
  {
    hide IsUnitLiteral, StringEnd;
    if cp < 0x10000 {
      UnitSkipped(content, p, cp);
    } else {
      UnitSkipped(content, p, 0xD800 + (cp - 0x10000) / 0x400);
      UnitSkipped(content, p + 6, 0xDC00 + (cp - 0x10000) % 0x400);
    }
  }

  /** However a string is spelled, both scans read the bytes meant and end at its quote. */
  lemma {:induction false} SpellingDecodes(content: string, p: nat, units: seq<Unit>)
    requires AllUnits(units) && At(content, p, Spelling(units) + [QUOTE])
    ensures StringEnd(content, p) == Some(p + |Spelling(units)|)
    ensures Unescape(content, p, p + |Spelling(units)|) == Some(Bytes(units))
    decreases |units|
  {
    hide UnitAt, UnitText, UnitBytes, At, IsUnit;
    AtIndex(content, p, Spelling(units) + [QUOTE], |Spelling(units)|);
    if units != [] {
      var u, rest := units[0], units[1..];
      var text := UnitText(u);
      assert Spelling(units) + [QUOTE] == text + (Spelling(rest) + [QUOTE]);
      AtSplit(content, p, text, Spelling(rest) + [QUOTE]);
      SpellingDecodes(content, p + |text|, rest);
      UnitSpells(content, p, p + |Spelling(units)|, u);
    }
  }

  /** The two scans may part: in `\uabc\\"` the first takes the last two backslashes for
      one escape and ends at the quote, the second takes the first of them for a digit and
      the quote for escaped. */
  lemma SwallowedQuote(content: string)
    requires content == [BACKSLASH, 'u', 'a', 'b', 'c', BACKSLASH, BACKSLASH, QUOTE, NUL]
    ensures StringEnd(content, 0) == Some(7) && Unescape(content, 0, 7) == Some([NUL, QUOTE])
  {
    assert StringEnd(content, 7) == Some(7) && StringEnd(content, 5) == StringEnd(content, 7);
    assert StringEnd(content, 3) == StringEnd(content, 4) == StringEnd(content, 5);
    assert StringEnd(content, 0) == StringEnd(content, 2) == StringEnd(content, 3);
    BadHexIsNul(content, 0, 7, 5);
    assert UnitAt(content, 6, 7) == Some(([QUOTE], 2));
    assert Unescape(content, 8, 7) == Some("");
    assert [QUOTE] + "" == [QUOTE] && [NUL] + [QUOTE] == [NUL, QUOTE];
    assert Unescape(content, 6, 7) == Prepend([QUOTE], Unescape(content, 8, 7));
    assert Unescape(content, 0, 7) == Prepend([NUL], Unescape(content, 6, 7));
  }

  // ---------------------------------------------------------------- output size

  /** Backslashes counted by the first scan from `p` at positions below `q`. */
  function Skips(content: string, p: nat, q: nat): (n: nat)
    requires q <= |content|
    decreases |content| - p
  {
    if p >= q then 0
    else if content[p] == BACKSLASH then 1 + Skips(content, p + 2, q)
    else Skips(content, p + 1, q)
  }

  /** Moving on by one character adds at most one counted backslash, and none
      unless the character is a backslash; by two characters, still at most one. */
  lemma {:induction false} SkipsStep(content: string, p: nat, q: nat)
    requires p <= q < |content|
    ensures Skips(content, p, q) <= Skips(content, p, q + 1) <= Skips(content, p, q) + 1
    ensures content[q] != BACKSLASH ==> Skips(content, p, q + 1) == Skips(content, p, q)
    ensures q + 2 <= |content| ==> Skips(content, p, q + 2) <= Skips(content, p, q) + 1
    decreases q - p
  {
    if p == q {
      assert Skips(content, p + 1, q + 1) == 0;
      if q + 2 <= |content| {
        assert Skips(content, p + 2, q + 2) == Skips(content, p + 3, q + 2) == 0;
      }
    } else if content[p] == BACKSLASH {
      if p + 2 <= q {
        SkipsStep(content, p + 2, q);
      } else if q + 2 <= |content| {
        assert Skips(content, p + 3, q + 2) == Skips(content, p + 4, q + 2) == 0;
      }
    } else {
      SkipsStep(content, p + 1, q);
    }
  }

  /** The output budget left by the first scan: never shrinks as the scan goes on. */
  lemma {:induction false} BudgetMonotone(content: string, p: nat, q: nat, r: nat)
    requires p <= q <= r <= |content|
    ensures q - Skips(content, p, q) <= r - Skips(content, p, r)
    decreases r - q
  {
    if q < r {
      SkipsStep(content, p, q);
      BudgetMonotone(content, p, q + 1, r);
    }
  }

  /** How much one round reads and writes. */
  lemma UnitShape(content: string, q: nat, end: nat)
    requires q < end < |content| && UnitAt(content, q, end).Some?
    ensures
      var (bytes, length) := UnitAt(content, q, end).value;
      || (length == 1 && |bytes| == 1 && content[q] != BACKSLASH)
      || (length == 2 && |bytes| == 1)
      || (length == 6 && |bytes| <= 3)
      || (length == 12 && |bytes| <= 4)
  {
    hide Hex4;
  }

  /** What one round of the second scan writes fits the budget it uses up. */
  lemma BudgetOfUnit(content: string, p: nat, q: nat, end: nat)
    requires p <= q < end < |content|
    requires UnitAt(content, q, end).Some?
    ensures
      var (bytes, length) := UnitAt(content, q, end).value;
      && q - Skips(content, p, q) + |bytes| <= q + length - Skips(content, p, q + length)
      && q + length - Skips(content, p, q + length) <= end + 1 - Skips(content, p, end)
  {
    hide UnitAt, Skips;
    var (bytes, length) := UnitAt(content, q, end).value;
    UnitShape(content, q, end);
    SkipsStep(content, p, q);
    if length >= 6 {
      SkipsStep(content, p, q + 2);
      SkipsStep(content, p, q + 4);
      if length == 12 {
        SkipsStep(content, p, q + 6);
        SkipsStep(content, p, q + 8);
        SkipsStep(content, p, q + 10);
      }
    }
    if q + length <= end {
      BudgetMonotone(content, p, q + length, end);
    } else {
      SkipsStep(content, p, end);
    }
  }
}
