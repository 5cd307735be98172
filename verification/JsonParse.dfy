/** The recursive-descent parser of cJSON: what it accepts, as functions of the
    text, and the parser itself over a moving offset. */
module JsonParse {
  import opened Wrappers
  import opened JsonTree
  import opened JsonNumber
  import opened JsonString
  import opened Bits

  const NESTING_LIMIT := 1000

  datatype Parsed<+T> = Failed | Parsed(value: T, next: nat)

  /** The text with its terminating NUL, which the parser can see. */
  predicate Terminated(content: string) {
    |content| > 0 && content[|content| - 1] == NUL
  }

  // ------------------------------------------------------- the accepted language

  /** Whitespace is every byte up to 32, NUL included; at the end of the buffer
      the offset steps back onto the last byte. */
  function SkipWhitespace(content: string, i: nat): (j: nat)
    requires i < |content|
    ensures i <= j < |content|
    ensures j < |content| - 1 ==> content[j] as int > 32
    ensures content[i] as int > 32 ==> j == i
    decreases |content| - i
  {
    if content[i] as int > 32 || i + 1 == |content| then i else SkipWhitespace(content, i + 1)
  }

  function ParseString(content: string, i: nat): (r: Parsed<string>)
    requires Terminated(content) && i < |content|
    ensures r.Parsed? ==> i < r.next < |content|
  {
    if content[i] != QUOTE then Failed
    else
      match StringEnd(content, i + 1)
      case None => Failed
      case Some(end) =>
        match Unescape(content, i + 1, end)
        case None => Failed
        case Some(s) => Parsed(UpToNul(s), end + 1)
  }

  /** How many characters from `i` on go into the number buffer, which already
      holds `taken` of them. */
  function RunLength(content: string, i: nat, taken: nat): (n: nat)
    requires i <= |content|
    ensures i + n <= |content| && (n > 0 ==> IsNumberChar(content[i + n - 1]))
    decreases |content| - i
  {
    if taken >= NUMBER_BUFFER - 1 || i == |content| || !IsNumberChar(content[i]) then 0
    else 1 + RunLength(content, i + 1, taken + 1)
  }

  /** At most 63 characters, all that belong to numbers and no more. */
  lemma {:induction false} RunLengthIs(content: string, i: nat, taken: nat)
    requires i <= |content| && taken <= 63
    ensures
      var n := RunLength(content, i, taken);
      && n <= 63 - taken
      && (forall k :: i <= k < i + n ==> IsNumberChar(content[k]))
      && (n == 63 - taken || i + n == |content| || !IsNumberChar(content[i + n]))
    decreases |content| - i
  {
    hide IsNumberChar;
    if i < |content| && taken < 63 {
      RunLengthIs(content, i + 1, taken + 1);
    }
  }

  function ParseNumber(c: NumberCodec, content: string, i: nat): (r: Parsed<Json>)
    requires Terminated(content) && i < |content|
    ensures r.Parsed? ==> i < r.next < |content|
  {
    var n := RunLength(content, i, 0);
    var scanned := Scan(c, content[i..i + n]);
    if scanned.None? then Failed else Parsed(Number(scanned.value.0), i + scanned.value.1)
  }

  predicate StartsNumber(ch: char) { ch == '-' || IsDigit(ch) }

  /** `parse_value` with `depth` levels open. The parser counts from 0; a negative depth
      leaves room for so many levels more. */
  function ParseValue(c: NumberCodec, content: string, i: nat, depth: int): (r: Parsed<Json>)
    requires Terminated(content) && i < |content|
    ensures r.Parsed? ==> i < r.next < |content|
    decreases |content| - i, 3
  {
    if At(content, i, "null") then AtEnd(content, i, "null"); Parsed(Null, i + 4)
    else if At(content, i, "false") then AtEnd(content, i, "false"); Parsed(Bool(false), i + 5)
    else if At(content, i, "true") then AtEnd(content, i, "true"); Parsed(Bool(true), i + 4)
    else if content[i] == QUOTE then
      match ParseString(content, i)
      case Failed => Failed
      case Parsed(s, next) => Parsed(Text(s), next)
    else if StartsNumber(content[i]) then ParseNumber(c, content, i)
    else if content[i] == '[' then ParseArray(c, content, i, depth)
    else if content[i] == '{' then ParseObject(c, content, i, depth)
    else Failed
  }

  /** What a value can start with. */
  lemma ValueStarts(c: NumberCodec, content: string, i: nat, depth: int)
    requires Terminated(content) && i < |content| && ParseValue(c, content, i, depth).Parsed?
    ensures content[i] in "ntf\"-0123456789[{"
  {
    hide ParseArray, ParseObject, ParseNumber, ParseString, At;
    if At(content, i, "null") {
      AtIndex(content, i, "null", 0);
    } else if At(content, i, "false") {
      AtIndex(content, i, "false", 0);
    } else if At(content, i, "true") {
      AtIndex(content, i, "true", 0);
    }
  }

  lemma AtEnd(content: string, i: nat, s: string)
    requires Terminated(content) && At(content, i, s) && s != "" && s[|s| - 1] != NUL
    ensures i + |s| < |content|
  {
    AtIndex(content, i, s, |s| - 1);
  }

  function ParseArray(c: NumberCodec, content: string, i: nat, depth: int): (r: Parsed<Json>)
    requires Terminated(content) && i < |content| && content[i] == '['
    ensures r.Parsed? ==> i < r.next < |content|
    decreases |content| - i, 2
  {
    if depth >= NESTING_LIMIT then Failed
    else
      var j := SkipWhitespace(content, i + 1);
      if content[j] == ']' then Parsed(Array([]), j + 1)
      else
        match ParseElements(c, content, j - 1, depth + 1)
        case Failed => Failed
        case Parsed(items, next) => Parsed(Array(items), next)
  }

  /** What is read behind `front`. */
  function Before<T>(front: seq<T>, r: Parsed<seq<T>>): Parsed<seq<T>> {
    match r
    case Failed => Failed
    case Parsed(rest, next) => Parsed(front + rest, next)
  }

  /** The elements after the bracket or comma at `at`, and the closing bracket. */
  function ParseElements(c: NumberCodec, content: string, at: nat, depth: int): (r: Parsed<seq<Json>>)
    requires Terminated(content) && at + 1 < |content|
    ensures r.Parsed? ==> at < r.next < |content|
    decreases |content| - at, 1
  {
    match NextElement(c, content, at, depth)
    case Failed => Failed
    case Parsed(v, k) =>
      if content[k] == ',' then Before([v], ParseElements(c, content, k, depth))
      else if content[k] == ']' then Parsed([v], k + 1)
      else Failed
  }

  /** The element after the bracket or comma at `at`, up to what follows it. */
  function NextElement(c: NumberCodec, content: string, at: nat, depth: int): (r: Parsed<Json>)
    requires Terminated(content) && at + 1 < |content|
    ensures r.Parsed? ==> at < r.next < |content|
    decreases |content| - at, 0
  {
    hide *;
    match ParseValue(c, content, SkipWhitespace(content, at + 1), depth)
    case Failed => Failed
    case Parsed(v, next) => Parsed(v, SkipWhitespace(content, next))
  }

  function ParseObject(c: NumberCodec, content: string, i: nat, depth: int): (r: Parsed<Json>)
    requires Terminated(content) && i < |content| && content[i] == '{'
    ensures r.Parsed? ==> i < r.next < |content|
    decreases |content| - i, 2
  {
    if depth >= NESTING_LIMIT then Failed
    else
      var j := SkipWhitespace(content, i + 1);
      if content[j] == '}' then Parsed(Object([]), j + 1)
      else
        match ParseMembers(c, content, j - 1, depth + 1)
        case Failed => Failed
        case Parsed(members, next) => Parsed(Object(members), next)
  }

  function ParseMembers(c: NumberCodec, content: string, at: nat, depth: int): (r: Parsed<seq<Member>>)
    requires Terminated(content) && at + 1 < |content|
    ensures r.Parsed? ==> at < r.next < |content|
    decreases |content| - at, 1
  {
    match NextMember(c, content, at, depth)
    case Failed => Failed
    case Parsed(m, k) =>
      if content[k] == ',' then Before([m], ParseMembers(c, content, k, depth))
      else if content[k] == '}' then Parsed([m], k + 1)
      else Failed
  }

  /** The member after the brace or comma at `at`, up to what follows it. */
  function NextMember(c: NumberCodec, content: string, at: nat, depth: int): (r: Parsed<Member>)
    requires Terminated(content) && at + 1 < |content|
    ensures r.Parsed? ==> at < r.next < |content|
    decreases |content| - at, 0
  {
    hide *;
    match ParseMember(c, content, SkipWhitespace(content, at + 1), depth)
    case Failed => Failed
    case Parsed(m, next) => Parsed(m, SkipWhitespace(content, next))
  }

  function ParseMember(c: NumberCodec, content: string, i: nat, depth: int): (r: Parsed<Member>)
    requires Terminated(content) && i < |content|
    ensures r.Parsed? ==> i < r.next < |content|
    decreases |content| - i, 0
  {
    match ParseString(content, i)
    case Failed => Failed
    case Parsed(key, afterKey) =>
      var colon := SkipWhitespace(content, afterKey);
      if content[colon] != ':' then Failed
      else
        match ParseValue(c, content, SkipWhitespace(content, colon + 1), depth)
        case Failed => Failed
        case Parsed(v, next) => Parsed(Member(key, v), next)
  }

  const BOM := ['\U{ef}', '\U{bb}', '\U{bf}']

  function SkipBom(content: string): (i: nat)
    ensures i == 0 || (i == 3 && |content| > 4)
  {
    if |content| > 4 && At(content, 0, BOM) then 3 else 0
  }

  /** `cJSON_ParseWithOpts` on a C string; `toEnd` refuses trailing text. */
  function ParseText(c: NumberCodec, text: string, toEnd: bool): Option<Json>
  {
    var content := UpToNul(text) + [NUL];
    match ParseValue(c, content, SkipWhitespace(content, SkipBom(content)), 0)
    case Failed => None
    case Parsed(v, next) =>
      if toEnd && content[SkipWhitespace(content, next)] != NUL then None else Some(v)
  }

  // ------------------------------------------------------- the parser itself

  /** A byte alone, and the lead bytes of longer sequences. */
  lemma LeadBytes(x: nat)
    ensures x < 0x80 ==> And(x, 0x7F) == x
    ensures x < 0x20 ==> And(Or(x, 0xC0), 0xFF) == 0xC0 + x
    ensures x < 0x10 ==> And(Or(x, 0xE0), 0xFF) == 0xE0 + x
    ensures x < 0x08 ==> And(Or(x, 0xF0), 0xFF) == 0xF0 + x
  {
    hide And, Or;
    assert Power(7) == 0x80 && Power(5) == 0x20 && Power(4) == 0x10 && Power(3) == 0x08;
    AndMask(x, 7);
    if x < 0x20 { LeadByte(x, 0xC0, 6, 5); }
    if x < 0x10 { LeadByte(x, 0xE0, 14, 4); }
    if x < 0x08 { LeadByte(x, 0xF0, 30, 3); }
  }

  lemma NoSkips(content: string, i: nat)
    ensures i <= |content| ==> Skips(content, i, i) == 0
  {
  }

  class ParseBuffer {
    const codec: NumberCodec
    const content: string
    var offset: nat
    var depth: nat

    constructor (codec: NumberCodec, text: string)
      ensures this.codec == codec && content == UpToNul(text) + [NUL]
      ensures Valid() && offset == 0 && depth == 0
    {
      this.codec := codec;
      content := UpToNul(text) + [NUL];
      offset, depth := 0, 0;
    }

    predicate Valid()
      reads this
    {
      Terminated(content) && offset < |content|
    }

    method SkipSpace()
      requires Valid()
      modifies this`offset
      ensures Valid() && offset == SkipWhitespace(content, old(offset))
    {
      while offset < |content| && content[offset] as int <= 32
        invariant old(offset) <= offset <= |content|
        invariant forall k :: old(offset) <= k < offset ==> content[k] as int <= 32
        invariant SkipWhitespace(content, old(offset)) ==
                  if offset < |content| then SkipWhitespace(content, offset) else |content| - 1
      {
        offset := offset + 1;
      }
      if offset == |content| {
        offset := offset - 1;
      }
    }

    method ReadHex4(p: nat) returns (h: nat)
      requires p + 4 <= |content|
      ensures h == Hex4(content, p)
    {
      h := 0;
      for i := 0 to 4
        invariant forall k :: p <= k < p + i ==> HexValue(content[k]).Some?
        invariant i == 0 ==> h == 0
        invariant i == 1 ==> h == HexValue(content[p]).value * 16
        invariant i == 2 ==> h == (HexValue(content[p]).value * 16 + HexValue(content[p + 1]).value) * 16
        invariant i == 3 ==> h == ((HexValue(content[p]).value * 16 + HexValue(content[p + 1]).value) * 16
                                   + HexValue(content[p + 2]).value) * 16
        invariant i == 4 ==> h == Hex4(content, p)
      {
        match HexValue(content[p + i])
        case None => return 0;
        case Some(d) =>
          h := h + d;
          if i < 3 {
            h := h * 16;
          }
      }
    }

    /** The code point of the literal at `p`; a zero length reports failure. */
    method ReadUtf16Literal(p: nat, end: nat) returns (codepoint: nat, length: nat)
      requires p <= end < |content|
      ensures Utf16Literal(content, p, end) == if length == 0 then None else Some((codepoint, length))
    {
      hide Hex4, And, Or;
      codepoint, length := 0, 0;
      if end - p < 6 { return; }
      var first := ReadHex4(p + 2);
      if 0xDC00 <= first <= 0xDFFF { return; }
      if 0xD800 <= first <= 0xDBFF {
        if end - (p + 6) < 6 { return; }
        if content[p + 6] != BACKSLASH || content[p + 7] != 'u' { return; }
        var second := ReadHex4(p + 8);
        if second < 0xDC00 || second > 0xDFFF { return; }
        SurrogateBits(first, second);
        codepoint, length := 0x10000 + Or(And(first, 0x3FF) * 0x400, And(second, 0x3FF)), 12;
      } else {
        codepoint, length := first, 6;
      }
    }

    /** The encoding loop: continuation bytes from the back, then the lead byte. */
    static method EncodeUtf8(codepoint: nat, output: array<char>, at: nat) returns (length: nat)
      requires codepoint <= 0x10FFFF && at + |Utf8(codepoint)| <= output.Length
      modifies output
      ensures length == |Utf8(codepoint)| && output[at..at + length] == Utf8(codepoint)
      ensures forall k :: 0 <= k < at ==> output[k] == old(output[k])
    {
      hide And, Or, Power;
      ghost var bytes := Utf8(codepoint);
      var mark := 0;
      if codepoint < 0x80 { length := 1; }
      else if codepoint < 0x800 { length, mark := 2, 0xC0; }
      else if codepoint < 0x10000 { length, mark := 3, 0xE0; }
      else { length, mark := 4, 0xF0; }
      var rest := codepoint;
      var position := length - 1;
      while position > 0
        invariant 0 <= position < length == |bytes|
        invariant position == length - 1 ==> rest == codepoint
        invariant position == length - 2 ==> rest == codepoint / 0x40
        invariant position == length - 3 ==> rest == codepoint / 0x1000
        invariant position == length - 4 ==> rest == codepoint / 0x40000
        invariant forall k :: position < k < length ==> output[at + k] == bytes[k]
        invariant forall k :: 0 <= k < at ==> output[k] == old(output[k])
      {
        ContinuationByte(rest);
        output[at + position] := And(Or(rest, 0x80), 0xBF) as char;
        rest := rest / 0x40;
        position := position - 1;
      }
      LeadBytes(rest);
      if length > 1 {
        output[at] := And(Or(rest, mark), 0xFF) as char;
      } else {
        output[at] := And(rest, 0x7F) as char;
      }
      assert output[at] == bytes[0];
    }

    /** First scan of `parse_string`: the closing quote and the escapes passed. */
    method ScanString(start: nat) returns (ok: bool, end: nat, skipped: nat)
      requires start <= |content|
      ensures StringEnd(content, start) == if ok then Some(end) else None
      ensures ok ==> start <= end < |content| && skipped == Skips(content, start, end)
    {
      end, skipped := start, 0;
      while end < |content| && content[end] != QUOTE
        invariant start <= end <= |content|
        invariant StringEnd(content, start) == StringEnd(content, end)
        invariant forall r :: end <= r <= |content| ==> Skips(content, start, r) == skipped + Skips(content, end, r)
      {
        if content[end] == BACKSLASH {
          if end + 1 >= |content| { return false, end, skipped; }
          skipped := skipped + 1;
          end := end + 1;
        }
        end := end + 1;
      }
      ok := end < |content|;
    }

    /** Second scan: `output` was sized by the first one, and every write stays
        inside it, the terminating NUL included. */
    method DecodeString(start: nat, end: nat, output: array<char>) returns (ok: bool, k: nat)
      requires start <= end < |content|
      requires output.Length == end - start + 1 - Skips(content, start, end) + 1
      modifies output
      ensures ok ==> k < output.Length && output[k] == NUL
      ensures Unescape(content, start, end) == if ok then Some(output[..k]) else None
    {
      hide UnitAt, Skips, Prepend, Unescape;
      var p := start;
      k := 0;
      NoSkips(content, start);
      ghost var all := Unescape(content, start, end);
      EmptyPrepend(output[..0], all);
      BudgetMonotone(content, start, start, end);
      while p < end
        invariant start <= p <= end + 1
        invariant k + start <= p - Skips(content, start, p)
        invariant k < output.Length
        invariant all == Prepend(output[..k], Unescape(content, p, end))
        decreases end + 1 - p
      {
        ghost var before := output[..k];
        UnescapeUnit(content, p, end);
        if UnitAt(content, p, end).Some? {
          BudgetOfUnit(content, start, p, end);
        } else {
          PrependNone(before);
        }
        var decoded, length, written := DecodeUnit(p, end, output, k);
        if !decoded { return false, k; }
        assert output[..k] == before;
        assert output[..k + written] == before + output[k..k + written];
        PrependTwice(before, output[k..k + written], Unescape(content, p + length, end));
        p, k := p + length, k + written;
      }
      PrependEmpty(output[..k]);
      assert Unescape(content, p, end) == Some("") by { UnescapeDone(content, p, end); }
      output[k] := NUL;
      ok := true;
    }

    /** One round of the second scan. */
    method DecodeUnit(p: nat, end: nat, output: array<char>, at: nat) returns (ok: bool, length: nat, written: nat)
      requires p < end < |content|
      requires UnitAt(content, p, end).Some? ==> at + |UnitAt(content, p, end).value.0| < output.Length
      modifies output
      ensures ok ==> at + written < output.Length
      ensures UnitAt(content, p, end) == if ok then Some((output[at..at + written], length)) else None
      ensures forall k :: 0 <= k < at && k < output.Length ==> output[k] == old(output[k])
    {
      if content[p] != BACKSLASH {
        output[at] := content[p];
        length, written := 1, 1;
        assert output[at..at + 1] == [content[p]];
      } else if content[p + 1] == 'u' {
        var codepoint;
        codepoint, length := ReadUtf16Literal(p, end);
        if length == 0 { return false, 0, 0; }
        written := EncodeUtf8(codepoint, output, at);
      } else {
        match ShortEscape(content[p + 1])
        case None => return false, 0, 0;
        case Some(c) =>
          output[at] := c;
          length, written := 2, 1;
          assert output[at..at + 1] == [c];
      }
      ok := true;
    }

    /** `parse_string`. */
    method ParseStringAt() returns (ok: bool, s: string)
      requires Valid()
      modifies this`offset
      ensures ok == ParseString(content, old(offset)).Parsed?
      ensures ok ==> s == ParseString(content, old(offset)).value
      ensures ok ==> Valid() && offset == ParseString(content, old(offset)).next
    {
      s := "";
      if content[offset] != QUOTE { return false, s; }
      var scanned, end, skipped := ScanString(offset + 1);
      if !scanned { return false, s; }
      var allocationLength := end - offset - skipped;
      BudgetMonotone(content, offset + 1, offset + 1, end);
      var output := new char[allocationLength + 1];
      var k;
      ok, k := DecodeString(offset + 1, end, output);
      if ok {
        s := UpToNul(output[..k]);
        offset := end + 1;
      }
    }

    /** Copies the characters of a number into a block of its own. */
    method CopyNumber() returns (text: string)
      requires Valid()
      ensures text == content[offset..offset + RunLength(content, offset, 0)]
    {
      hide IsNumberChar;
      var buffer := new char[NUMBER_BUFFER];
      var i := 0;
      while i < NUMBER_BUFFER - 1 && offset + i < |content| && IsNumberChar(content[offset + i])
        invariant 0 <= i <= NUMBER_BUFFER - 1 && offset + i <= |content|
        invariant forall k :: 0 <= k < i ==> buffer[k] == content[offset + k]
        invariant RunLength(content, offset, 0) == i + RunLength(content, offset + i, i)
      {
        buffer[i] := content[offset + i];
        i := i + 1;
      }
      assert RunLength(content, offset, 0) == i;
      hide RunLength;
      buffer[i] := NUL;
      text := buffer[..i];
    }

    /** `parse_number`. */
    method ParseNumberAt() returns (ok: bool, item: Json)
      requires Valid()
      modifies this`offset
      ensures ok == ParseNumber(codec, content, old(offset)).Parsed?
      ensures ok ==> item == ParseNumber(codec, content, old(offset)).value
      ensures ok ==> Valid() && offset == ParseNumber(codec, content, old(offset)).next
    {
      item := Null;
      var text := CopyNumber();
      var scanned := Scan(codec, text);
      ok := scanned.Some?;
      if ok {
        item := Number(scanned.value.0);
        offset := offset + scanned.value.1;
      }
    }

    /** `parse_value`. */
    method ParseValueAt() returns (ok: bool, item: Json)
      requires Valid()
      modifies this
      ensures ok == ParseValue(codec, content, old(offset), old(depth)).Parsed?
      ensures ok ==> item == ParseValue(codec, content, old(offset), old(depth)).value
      ensures ok ==> Valid() && depth == old(depth)
      ensures ok ==> offset == ParseValue(codec, content, old(offset), old(depth)).next
      decreases |content| - offset, 3
    {
      ok, item := true, Null;
      if At(content, offset, "null") {
        AtEnd(content, offset, "null");
        offset := offset + 4;
      } else if At(content, offset, "false") {
        AtEnd(content, offset, "false");
        item := Bool(false);
        offset := offset + 5;
      } else if At(content, offset, "true") {
        AtEnd(content, offset, "true");
        item := Bool(true);
        offset := offset + 4;
      } else if content[offset] == QUOTE {
        var s;
        ok, s := ParseStringAt();
        item := Text(s);
      } else if StartsNumber(content[offset]) {
        ok, item := ParseNumberAt();
      } else if content[offset] == '[' {
        ok, item := ParseArrayAt();
      } else if content[offset] == '{' {
        ok, item := ParseObjectAt();
      } else {
        ok := false;
      }
    }

    /** `parse_array`. */
    method ParseArrayAt() returns (ok: bool, item: Json)
      requires Valid() && content[offset] == '['
      modifies this
      ensures ok == ParseArray(codec, content, old(offset), old(depth)).Parsed?
      ensures ok ==> item == ParseArray(codec, content, old(offset), old(depth)).value
      ensures ok ==> Valid() && depth == old(depth)
      ensures ok ==> offset == ParseArray(codec, content, old(offset), old(depth)).next
      decreases |content| - offset, 2
    {
      item := Null;
      if depth >= NESTING_LIMIT { return false, item; }
      depth := depth + 1;
      offset := offset + 1;
      SkipSpace();
      var items := [];
      ok := true;
      if content[offset] == ']' {
        offset := offset + 1;
      } else {
        offset := offset - 1;
        ok, items := ParseElementsAt();
      }
      if !ok { return; }
      depth := depth - 1;
      item := Array(items);
    }

    /** The loop of `parse_array`, from the character before the first element
        to behind the closing bracket. */
    method ParseElementsAt() returns (ok: bool, items: seq<Json>)
      requires Terminated(content) && offset + 1 < |content|
      modifies this
      ensures ok == ParseElements(codec, content, old(offset), old(depth)).Parsed?
      ensures ok ==> items == ParseElements(codec, content, old(offset), old(depth)).value
      ensures ok ==> Valid() && offset == ParseElements(codec, content, old(offset), old(depth)).next
      ensures ok ==> depth == old(depth)
      decreases |content| - offset, 1
    {
      hide ParseValue, ParseMember, SkipWhitespace, ParseElements;
      items := [];
      ghost var all := ParseElements(codec, content, offset, depth);
      assert all.Parsed? ==> items + all.value == all.value;
      var more := true;
      while more
        invariant Terminated(content) && depth == old(depth) && old(offset) <= offset < |content|
        invariant more ==> offset + 1 < |content|
        invariant more ==> all == Before(items, ParseElements(codec, content, offset, depth))
        invariant !more && content[offset] == ']' ==> all == Parsed(items, offset + 1)
        invariant !more && content[offset] != ']' ==> all == Failed
        decreases more, |content| - offset
      {
        ghost var front := items;
        ElementsStep(codec, content, offset, depth);
        offset := offset + 1;
        SkipSpace();
        var parsed, v := ParseValueAt();
        if !parsed { return false, items; }
        SkipSpace();
        more := content[offset] == ',';
        items := items + [v];
        if more {
          BeforeTwice(front, [v], ParseElements(codec, content, offset, depth));
        }
      }
      ok := content[offset] == ']';
      offset := if ok then offset + 1 else offset;
    }

    /** `parse_object`. */
    method ParseObjectAt() returns (ok: bool, item: Json)
      requires Valid() && content[offset] == '{'
      modifies this
      ensures ok == ParseObject(codec, content, old(offset), old(depth)).Parsed?
      ensures ok ==> item == ParseObject(codec, content, old(offset), old(depth)).value
      ensures ok ==> Valid() && depth == old(depth)
      ensures ok ==> offset == ParseObject(codec, content, old(offset), old(depth)).next
      decreases |content| - offset, 2
    {
      item := Null;
      if depth >= NESTING_LIMIT { return false, item; }
      depth := depth + 1;
      offset := offset + 1;
      SkipSpace();
      var members := [];
      ok := true;
      if content[offset] == '}' {
        offset := offset + 1;
      } else {
        offset := offset - 1;
        ok, members := ParseMembersAt();
      }
      if !ok { return; }
      depth := depth - 1;
      item := Object(members);
    }

    /** A key, a colon and a value. */
    method ParseMemberAt() returns (ok: bool, m: Member)
      requires Valid()
      modifies this
      ensures ok == ParseMember(codec, content, old(offset), old(depth)).Parsed?
      ensures ok ==> m == ParseMember(codec, content, old(offset), old(depth)).value
      ensures ok ==> Valid() && depth == old(depth)
      ensures ok ==> offset == ParseMember(codec, content, old(offset), old(depth)).next
      decreases |content| - offset, 0
    {
      hide ParseValue, ParseString, SkipWhitespace;
      var key, value;
      ok, key := ParseStringAt();
      m := Member(key, Null);
      if !ok { return; }
      SkipSpace();
      if content[offset] != ':' { return false, m; }
      offset := offset + 1;
      SkipSpace();
      ok, value := ParseValueAt();
      m := Member(key, value);
    }

    /** The loop of `parse_object`, from the character before the first member
        to behind the closing bracket. */
    method ParseMembersAt() returns (ok: bool, members: seq<Member>)
      requires Terminated(content) && offset + 1 < |content|
      modifies this
      ensures ok == ParseMembers(codec, content, old(offset), old(depth)).Parsed?
      ensures ok ==> members == ParseMembers(codec, content, old(offset), old(depth)).value
      ensures ok ==> Valid() && offset == ParseMembers(codec, content, old(offset), old(depth)).next
      ensures ok ==> depth == old(depth)
      decreases |content| - offset, 1
    {
      hide ParseValue, ParseMember, SkipWhitespace, ParseMembers;
      members := [];
      ghost var all := ParseMembers(codec, content, offset, depth);
      assert all.Parsed? ==> members + all.value == all.value;
      var more := true;
      while more
        invariant Terminated(content) && depth == old(depth) && old(offset) <= offset < |content|
        invariant more ==> offset + 1 < |content|
        invariant more ==> all == Before(members, ParseMembers(codec, content, offset, depth))
        invariant !more && content[offset] == '}' ==> all == Parsed(members, offset + 1)
        invariant !more && content[offset] != '}' ==> all == Failed
        decreases more, |content| - offset
      {
        ghost var front := members;
        MembersStep(codec, content, offset, depth);
        offset := offset + 1;
        SkipSpace();
        var parsed, v := ParseMemberAt();
        if !parsed { return false, members; }
        SkipSpace();
        more := content[offset] == ',';
        members := members + [v];
        if more {
          BeforeTwice(front, [v], ParseMembers(codec, content, offset, depth));
        }
      }
      ok := content[offset] == '}';
      offset := if ok then offset + 1 else offset;
    }
  }

  /** `cJSON_ParseWithOpts`. */
  method Parse(codec: NumberCodec, text: string, toEnd: bool) returns (r: Option<Json>)
    ensures r == ParseText(codec, text, toEnd)
  {
    var buffer := new ParseBuffer(codec, text);
    buffer.offset := SkipBom(buffer.content);
    buffer.SkipSpace();
    var ok, v := buffer.ParseValueAt();
    if !ok { return None; }
    if toEnd {
      buffer.SkipSpace();
      if buffer.content[buffer.offset] != NUL { return None; }
    }
    return Some(v);
  }

  lemma ElementsStep(c: NumberCodec, content: string, at: nat, d: int)
    requires Terminated(content) && at + 1 < |content|
    ensures
      var r := ParseElements(c, content, at, d);
      match NextElement(c, content, at, d)
      case Failed => r == Failed
      case Parsed(v, k) =>
        if content[k] == ',' then r == Before([v], ParseElements(c, content, k, d))
        else r == if content[k] == ']' then Parsed([v], k + 1) else Failed
  {
    hide NextElement;
  }

  lemma MembersStep(c: NumberCodec, content: string, at: nat, d: int)
    requires Terminated(content) && at + 1 < |content|
    ensures
      var r := ParseMembers(c, content, at, d);
      match NextMember(c, content, at, d)
      case Failed => r == Failed
      case Parsed(m, k) =>
        if content[k] == ',' then r == Before([m], ParseMembers(c, content, k, d))
        else r == if content[k] == '}' then Parsed([m], k + 1) else Failed
  {
    hide NextMember;
  }

  lemma BeforeTwice<T>(a: seq<T>, b: seq<T>, r: Parsed<seq<T>>)
    ensures Before(a, Before(b, r)) == Before(a + b, r)
  {
    if r.Parsed? {
      assert a + (b + r.value) == a + b + r.value;
    }
  }

  lemma PrependEmpty(a: string)
    ensures Prepend(a, Some("")) == Some(a)
  {
    assert a + "" == a;
  }

  lemma EmptyPrepend(a: string, r: Option<string>)
    requires a == ""
    ensures Prepend(a, r) == r
  {
    assert r.Some? ==> a + r.value == r.value;
  }

  lemma PrependNone(a: string)
    ensures Prepend(a, None) == None
  {
  }

  lemma UnescapeUnit(content: string, p: nat, end: nat)
    requires p < end < |content|
    ensures UnitAt(content, p, end) == None ==> Unescape(content, p, end) == None
    ensures UnitAt(content, p, end).Some? ==>
              var (bytes, length) := UnitAt(content, p, end).value;
              Unescape(content, p, end) == Prepend(bytes, Unescape(content, p + length, end))
  {
  }

  lemma UnescapeDone(content: string, p: nat, end: nat)
    requires end <= p <= end + 1 && end < |content|
    ensures Unescape(content, p, end) == Some("")
  {
  }

  lemma PrependTwice(a: string, b: string, r: Option<string>)
    ensures Prepend(a, Prepend(b, r)) == Prepend(a + b, r)
  {
    if r.Some? {
      assert a + (b + r.value) == a + b + r.value;
    }
  }
}
