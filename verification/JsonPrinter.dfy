/** The printer of cJSON over its growing buffer, proved to write `JsonText.Print`. */
module JsonPrinter {
  import opened JsonTree
  import opened JsonNumber
  import opened JsonString
  import opened JsonText

  const INT_MAX := 0x7FFF_FFFF

  class PrintBuffer {
    const codec: NumberCodec
    const noalloc: bool
    const format: bool
    var buffer: array<char>
    var offset: nat
    var depth: nat

    constructor (codec: NumberCodec, format: bool, length: nat)
      requires length <= INT_MAX
      ensures Valid()
      ensures this.codec == codec && this.format == format && !noalloc
      ensures fresh(buffer) && buffer.Length == length && offset == 0 && depth == 0
    {
      this.codec, this.format, noalloc := codec, format, false;
      buffer := new char[length];
      offset, depth := 0, 0;
    }

    /** Fixed-size printing into the caller's block. */
    constructor Preallocated(codec: NumberCodec, format: bool, buffer: array<char>)
      requires buffer.Length <= INT_MAX
      ensures Valid()
      ensures this.codec == codec && this.format == format && noalloc
      ensures this.buffer == buffer && offset == 0 && depth == 0
    {
      this.codec, this.format, noalloc := codec, format, true;
      this.buffer := buffer;
      offset, depth := 0, 0;
    }

    /** The offset stays inside the block, or the block is still empty. */
    predicate Valid()
      reads this
    {
      buffer.Length <= INT_MAX && (offset < buffer.Length || (buffer.Length == 0 && offset == 0))
    }

    /** Whether a request ending in `end` bytes of text can be served. */
    predicate Room(end: nat)
      reads this
    {
      if noalloc then end + 2 <= buffer.Length else end + 2 <= INT_MAX
    }

    /** What a printing step leaves behind: the earlier text, the new text and a
        NUL. The offset may still stand anywhere in the new text. */
    ghost predicate Printed(before: string, text: string)
      reads this`buffer, this`offset, buffer
    {
      && |before| + |text| < buffer.Length
      && buffer[..|before|] == before
      && buffer[|before|..|before| + |text|] == text
      && buffer[|before| + |text|] == NUL
      && |before| <= offset <= |before| + |text|
    }

    /** `ensure`: room for `needed` more bytes and a NUL, growing the block. Only
        what lies before the offset is sure to survive a move. */
    method Ensure(needed: nat) returns (ok: bool)
      requires Valid()
      modifies this`buffer
      ensures offset + needed + 1 <= (if noalloc then buffer.Length else INT_MAX) ==> ok
      ensures ok ==> offset + needed + 1 <= buffer.Length && buffer[..offset] == old(buffer[..offset])
      ensures buffer == old(buffer) || fresh(buffer)
      ensures Valid() && (noalloc ==> buffer == old(buffer))
    {
      if buffer.Length > 0 && offset >= buffer.Length { return false; }
      if needed > INT_MAX { return false; }
      var total := needed + offset + 1;
      if total <= buffer.Length { return true; }
      if noalloc { return false; }
      var newSize := total * 2;
      if total > INT_MAX / 2 {
        if total > INT_MAX { return false; }
        newSize := INT_MAX;
      }
      var moved := new char[newSize];
      forall k | 0 <= k < offset {
        moved[k] := buffer[k];
      }
      assert moved[..offset] == buffer[..offset];
      buffer := moved;
      ok := true;
    }

    /** `update_offset`: to the first NUL at or behind the offset. */
    method UpdateOffset(ghost before: string, ghost text: string)
      requires Printed(before, text) && IsCString(text)
      modifies this`offset
      ensures Printed(before, text) && offset == |before| + |text|
    {
      ghost var start := |before|;
      assert forall k :: start <= k < start + |text| ==> buffer[k] == buffer[start..start + |text|][k - start];
      while buffer[offset] != NUL
        invariant start <= offset <= start + |text|
        decreases start + |text| - offset
      {
        offset := offset + 1;
      }
    }

    /** `strcpy`/`memcpy` of a text at a position of the block. */
    method Put(at: nat, text: string)
      requires at + |text| <= buffer.Length
      modifies buffer
      ensures buffer[..at] == old(buffer[..at])
      ensures buffer[at..at + |text|] == text
    {
      for k := 0 to |text|
        invariant buffer[..at] == old(buffer[..at])
        invariant forall m :: 0 <= m < k ==> buffer[at + m] == text[m]
      {
        buffer[at + k] := text[k];
      }
    }

    /** Writes a text and its NUL at the offset. */
    method Emit(text: string)
      requires offset + |text| < buffer.Length
      modifies buffer
      ensures Printed(old(buffer[..offset]), text)
    {
      Put(offset, text + [NUL]);
      assert buffer[offset..offset + |text|] == (text + [NUL])[..|text|];
      assert buffer[offset..offset + |text + [NUL]|][|text|] == buffer[offset + |text|];
    }

    /** `print_number`. */
    method PrintNumber(x: real) returns (ok: bool)
      requires Valid() && codec.isDouble(x)
      modifies this, buffer
      ensures (buffer == old(buffer) || fresh(buffer)) && (noalloc ==> buffer == old(buffer))
      ensures ok ==> Valid() && Printed(old(buffer[..offset]), NumberText(codec, x)) && depth == old(depth)
      ensures Room(old(offset) + |NumberText(codec, x)|) ==> ok
    {
      var text := NumberText(codec, x);
      ok := Ensure(|text| + 1);
      if !ok { return; }
      Emit(text);
      offset := offset + |text|;
    }

    /** How many extra characters escaping costs. */
    static function Extra(s: string): (n: nat)
      ensures |Escape(s)| == |s| + n
    {
      if s == "" then 0
      else (if NeedsShortEscape(s[0]) then 1 else if s[0] as int < 32 then 5 else 0) + Extra(s[1..])
    }

    /** `print_string_ptr`. */
    method PrintString(s: string) returns (ok: bool)
      requires Valid()
      modifies this, buffer
      ensures (buffer == old(buffer) || fresh(buffer)) && (noalloc ==> buffer == old(buffer))
      ensures ok ==> Valid() && Printed(old(buffer[..offset]), Quote(s)) && depth == old(depth)
      ensures Room(old(offset) + |Quote(s)|) ==> ok
    {
      var escapes := 0;
      for i := 0 to |s|
        invariant escapes + Extra(s[i..]) == Extra(s)
      {
        assert s[i..][1..] == s[i + 1..];
        if NeedsShortEscape(s[i]) {
          escapes := escapes + 1;
        } else if s[i] as int < 32 {
          escapes := escapes + 5;
        }
      }
      assert s[|s|..] == "" && escapes == Extra(s);
      var length := |s| + escapes;
      ok := Ensure(length + 3);
      if !ok { return; }
      if escapes == 0 {
        NothingEscaped(s);
        Emit([QUOTE] + s + [QUOTE]);
      } else {
        WriteEscaped(s);
      }
    }

    /** The escaping loop of `print_string_ptr`. */
    method WriteEscaped(s: string)
      requires offset + |Quote(s)| < buffer.Length
      modifies buffer
      ensures Printed(old(buffer[..offset]), Quote(s))
    {
      hide EscapeByte;
      ghost var before := buffer[..offset];
      buffer[offset] := QUOTE;
      var k := offset + 1;
      for i := 0 to |s|
        invariant k == offset + 1 + |Escape(s[..i])| && |Escape(s[..i])| + |Escape(s[i..])| == |Escape(s)|
        invariant buffer[..k] == before + [QUOTE] + Escape(s[..i])
      {
        EscapeNext(s, i);
        k := WriteByte(s[i], k);
      }
      assert s[..|s|] == s;
      WriteEnd(k, before + [QUOTE] + Escape(s));
      assert before + [QUOTE] + Escape(s) + [QUOTE] == before + Quote(s);
      SplitAt(buffer[..k + 1], before, Quote(s));
    }

    lemma SplitAt(all: string, before: string, text: string)
      requires all == before + text
      ensures all[..|before|] == before && all[|before|..] == text
    {
    }

    /** The closing quote and NUL. */
    method WriteEnd(k: nat, ghost head: string)
      requires k + 1 < buffer.Length && buffer[..k] == head
      modifies buffer
      ensures buffer[..k + 1] == head + [QUOTE] && buffer[k + 1] == NUL
    {
      buffer[k] := QUOTE;
      buffer[k + 1] := NUL;
      assert buffer[..k + 1] == buffer[..k] + [QUOTE];
    }

    /** One byte of the escaping loop. */
    method WriteByte(c: char, k: nat) returns (next: nat)
      requires k + |EscapeByte(c)| < buffer.Length
      modifies buffer
      ensures next == k + |EscapeByte(c)| && buffer[..next] == old(buffer[..k]) + EscapeByte(c)
    {
      hide HexChar;
      if c as int > 31 && c != QUOTE && c != BACKSLASH { next := WritePlain(c, k); }
      else if c == BACKSLASH { next := WritePair(BACKSLASH, k); }
      else if c == QUOTE { next := WritePair(QUOTE, k); }
      else if c == BACKSPACE { next := WritePair('b', k); }
      else if c == FORM_FEED { next := WritePair('f', k); }
      else if c == '\n' { next := WritePair('n', k); }
      else if c == '\r' { next := WritePair('r', k); }
      else if c == '\t' { next := WritePair('t', k); }
      else { next := WriteHex(c, k); }
    }

    method WritePlain(c: char, k: nat) returns (next: nat)
      requires k < buffer.Length
      modifies buffer
      ensures next == k + 1 && buffer[..next] == old(buffer[..k]) + [c]
    {
      buffer[k] := c;
      next := k + 1;
    }

    /** An escape of two characters. */
    method WritePair(c: char, k: nat) returns (next: nat)
      requires k + 1 < buffer.Length
      modifies buffer
      ensures next == k + 2 && buffer[..next] == old(buffer[..k]) + [BACKSLASH, c]
    {
      buffer[k] := BACKSLASH;
      buffer[k + 1] := c;
      next := k + 2;
    }

    /** An escape by number, whose `sprintf` also writes a NUL. */
    method WriteHex(c: char, k: nat) returns (next: nat)
      requires c as int < 32 && k + 6 < buffer.Length
      modifies buffer
      ensures next == k + 6
      ensures buffer[..next] == old(buffer[..k])
        + [BACKSLASH, 'u', '0', '0', HexChar(c as int / 16), HexChar(c as int % 16)]
    {
      buffer[k] := BACKSLASH;
      buffer[k + 1], buffer[k + 2], buffer[k + 3] := 'u', '0', '0';
      buffer[k + 4], buffer[k + 5], buffer[k + 6] := HexChar(c as int / 16), HexChar(c as int % 16), NUL;
      next := k + 6;
    }

    /** Punctuation: writes `text` and moves on; `needed` counts a NUL or not. */
    method Append(text: string, needed: nat) returns (ok: bool)
      requires Valid() && |text| <= needed <= |text| + 1
      modifies this`buffer, this`offset, buffer
      ensures (buffer == old(buffer) || fresh(buffer)) && (noalloc ==> buffer == old(buffer))
      ensures ok ==> Valid() && buffer[..offset] == old(buffer[..offset]) + text
      ensures Room(old(offset) + |text|) ==> ok
    {
      ghost var before := buffer[..offset];
      ok := Ensure(needed);
      if !ok { return; }
      ghost var o := offset;
      if needed > |text| {
        Emit(text);
        assert buffer[..o] == before;
      } else {
        Put(offset, text);
      }
      offset := offset + |text|;
      assert buffer[..offset] == buffer[..o] + buffer[o..offset];
    }

    /** Closing text: written with its NUL, the offset left in front of it. */
    method Close(text: string) returns (ok: bool)
      requires Valid()
      modifies this`buffer, buffer
      ensures (buffer == old(buffer) || fresh(buffer)) && (noalloc ==> buffer == old(buffer))
      ensures ok ==> Valid() && Printed(old(buffer[..offset]), text)
      ensures Room(offset + |text|) ==> ok
    {
      ok := Ensure(|text| + 1);
      if !ok { return; }
      Emit(text);
    }

    /** Closing text behind what it closes. */
    method CloseBehind(text: string, ghost before: string, ghost open: string, ghost inner: string) returns (ok: bool)
      requires Valid() && buffer[..offset] == before + open + inner
      modifies this`buffer, buffer
      ensures (buffer == old(buffer) || fresh(buffer)) && (noalloc ==> buffer == old(buffer))
      ensures ok ==> Valid() && Printed(before, open + (inner + text))
      ensures Room(offset + |text|) ==> ok
    {
      hide Printed;
      ok := Close(text);
      if ok {
        Enclose(before, open, inner, text);
      }
    }

    /** Text already passed and the closing text make up the whole. */
    lemma Gather(before: string, text: string, close: string)
      requires Printed(before + text, close)
      ensures Printed(before, text + close)
    {
      var n := |before|;
      assert buffer[..n] == buffer[..n + |text|][..n];
      assert buffer[n..n + |text| + |close|] == buffer[..n + |text|][n..] + buffer[n + |text|..n + |text| + |close|];
      assert |before + text| == n + |text| && |text + close| == |text| + |close|;
    }

    lemma Enclose(before: string, open: string, inner: string, close: string)
      requires Printed(before + open + inner, close)
      ensures Printed(before, open + (inner + close))
    {
      assert before + open + inner == before + (open + inner);
      Gather(before, open + inner, close);
      assert (open + inner) + close == open + (inner + close);
    }

    /** `print_value`. */
    method PrintValue(v: Json) returns (ok: bool)
      requires Valid() && Printable(codec, v)
      modifies this, buffer
      ensures (buffer == old(buffer) || fresh(buffer)) && (noalloc ==> buffer == old(buffer))
      ensures ok ==> Valid() && depth == old(depth)
      ensures ok ==> Printed(old(buffer[..offset]), Print(codec, v, format, old(depth)))
      ensures Room(old(offset) + |Print(codec, v, format, old(depth))|) ==> ok
      decreases v, 1
    {
      match v
      case Null => ok := Close("null");
      case Bool(b) => ok := Close(if b then "true" else "false");
      case Number(x) => ok := PrintNumber(x);
      case Text(s) => ok := PrintString(s);
      case Array(items) => ok := PrintArray(items);
      case Object(members) => ok := PrintObject(members);
    }

    /** Prints a value and catches the offset up with it. */
    method PrintAndAdvance(v: Json) returns (ok: bool)
      requires Valid() && Printable(codec, v)
      modifies this, buffer
      ensures (buffer == old(buffer) || fresh(buffer)) && (noalloc ==> buffer == old(buffer))
      ensures ok ==> Valid() && depth == old(depth)
      ensures ok ==> buffer[..offset] == old(buffer[..offset]) + Print(codec, v, format, old(depth))
      ensures Room(old(offset) + |Print(codec, v, format, old(depth))|) ==> ok
      decreases v, 2
    {
      hide Print, Printable, IsCString;
      ghost var before, text := buffer[..offset], Print(codec, v, format, depth);
      ok := PrintValue(v);
      if !ok { return; }
      PrintIsCString(codec, v, format, depth);
      UpdateOffset(before, text);
      assert buffer[..offset] == buffer[..|before|] + buffer[|before|..offset];
    }

    /** Prints a string and catches the offset up with it. */
    method PrintKey(key: string) returns (ok: bool)
      requires Valid() && IsCString(key)
      modifies this, buffer
      ensures (buffer == old(buffer) || fresh(buffer)) && (noalloc ==> buffer == old(buffer))
      ensures ok ==> Valid() && depth == old(depth) && buffer[..offset] == old(buffer[..offset]) + Quote(key)
      ensures Room(old(offset) + |Quote(key)|) ==> ok
    {
      hide Quote, IsCString;
      ghost var before := buffer[..offset];
      ok := PrintString(key);
      if !ok { return; }
      QuoteIsCString(key);
      UpdateOffset(before, Quote(key));
      assert buffer[..offset] == buffer[..|before|] + buffer[|before|..offset];
    }

    /** One round of the loop of `print_array`. */
    method PrintItem(v: Json, more: bool) returns (ok: bool)
      requires Valid() && Printable(codec, v)
      modifies this, buffer
      ensures (buffer == old(buffer) || fresh(buffer)) && (noalloc ==> buffer == old(buffer))
      ensures ok ==> Valid() && depth == old(depth)
      ensures ok ==>
        buffer[..offset] == old(buffer[..offset]) + Print(codec, v, format, old(depth)) + ItemSeparator(format, more)
      ensures Room(old(offset) + |Print(codec, v, format, old(depth))| + |ItemSeparator(format, more)|) ==> ok
      decreases v, 3
    {
      hide Print, Printable;
      ok := PrintAndAdvance(v);
      if !ok { return; }
      ghost var here := buffer[..offset];
      if more {
        ok := Append(ItemSeparator(format, true), |ItemSeparator(format, true)| + 1);
      } else {
        assert here + "" == here;
      }
    }

    /** `print_array`. */
    method PrintArray(items: seq<Json>) returns (ok: bool)
      requires Valid() && Printable(codec, Array(items))
      modifies this, buffer
      ensures (buffer == old(buffer) || fresh(buffer)) && (noalloc ==> buffer == old(buffer))
      ensures ok ==> Valid() && depth == old(depth)
      ensures ok ==> Printed(old(buffer[..offset]), "[" + (PrintItems(codec, items, format, old(depth) + 1) + "]"))
      ensures Room(old(offset) + |PrintItems(codec, items, format, old(depth) + 1)| + 2) ==> ok
      decreases items, 5
    {
      hide PrintItems, Print, Printed, Printable;
      ghost var before, inner := buffer[..offset], PrintItems(codec, items, format, depth + 1);
      depth := depth + 1;
      ok := PrintOpenAndItems(items);
      if !ok { return; }
      ok := CloseBehind("]", before, "[", inner);
      if !ok { return; }
      depth := depth - 1;
    }

    method PrintOpenAndItems(items: seq<Json>) returns (ok: bool)
      requires Valid() && Printable(codec, Array(items))
      modifies this, buffer
      ensures (buffer == old(buffer) || fresh(buffer)) && (noalloc ==> buffer == old(buffer))
      ensures ok ==> Valid() && depth == old(depth)
      ensures ok ==> buffer[..offset] == old(buffer[..offset]) + "[" + PrintItems(codec, items, format, old(depth))
      ensures Room(old(offset) + 1 + |PrintItems(codec, items, format, old(depth))|) ==> ok
      decreases items, 4
    {
      hide PrintItems, Print, Printable;
      ok := Append("[", 1);
      if !ok { return; }
      ok := PrintItemLoop(items);
    }

    /** The loop of `print_array`. */
    method PrintItemLoop(items: seq<Json>) returns (ok: bool)
      requires Valid() && Printable(codec, Array(items))
      modifies this, buffer
      ensures (buffer == old(buffer) || fresh(buffer)) && (noalloc ==> buffer == old(buffer))
      ensures ok ==> Valid() && depth == old(depth)
      ensures ok ==> buffer[..offset] == old(buffer[..offset]) + PrintItems(codec, items, format, old(depth))
      ensures Room(old(offset) + |PrintItems(codec, items, format, old(depth))|) ==> ok
      decreases items, 3
    {
      hide PrintItems, Print, ItemSeparator, Printable;
      ghost var all := buffer[..offset] + PrintItems(codec, items, format, depth);
      var i := 0;
      ok := true;
      while i < |items|
        invariant 0 <= i <= |items| && Valid() && depth == old(depth) && ok
        invariant (buffer == old(buffer) || fresh(buffer)) && (noalloc ==> buffer == old(buffer))
        invariant buffer[..offset] + PrintItems(codec, items[i..], format, depth) == all
      {
        ghost var passed := buffer[..offset];
        ItemsUnfold(codec, items[i..], format, depth);
        assert items[i..][0] == items[i] && items[i..][1..] == items[i + 1..];
        PrintableItem(codec, items, i);
        ok := PrintItem(items[i], i + 1 < |items|);
        if !ok { return; }
        Reassociate(passed, Print(codec, items[i], format, depth), ItemSeparator(format, i + 1 < |items|),
                    PrintItems(codec, items[i + 1..], format, depth));
        i := i + 1;
      }
      NoItems(codec, format, depth);
      assert items[|items|..] == [] && buffer[..offset] + "" == buffer[..offset];
    }

    /** The member of one round of `print_object`, behind its tabs. */
    method PrintMemberText(m: Member) returns (ok: bool)
      requires Valid() && IsCString(m.key) && Printable(codec, m.value)
      modifies this, buffer
      ensures (buffer == old(buffer) || fresh(buffer)) && (noalloc ==> buffer == old(buffer))
      ensures ok ==> Valid() && depth == old(depth)
      ensures ok ==> buffer[..offset] == old(buffer[..offset]) + PrintMember(codec, m, format, old(depth))
      ensures Room(old(offset) + |PrintMember(codec, m, format, old(depth))|) ==> ok
      decreases m, 3
    {
      hide Print, Printable, Quote, IsCString, Colon;
      MemberText(buffer[..offset], Quote(m.key), Colon(format), Print(codec, m.value, format, depth));
      ok := PrintKeyAndColon(m.key);
      if !ok { return; }
      ok := PrintAndAdvance(m.value);
    }

    lemma MemberText(before: string, key: string, colon: string, value: string)
      ensures before + key + colon + value == before + (key + (colon + value))
      ensures |key + (colon + value)| == |key| + |colon| + |value|
    {
    }

    method PrintKeyAndColon(key: string) returns (ok: bool)
      requires Valid() && IsCString(key)
      modifies this, buffer
      ensures (buffer == old(buffer) || fresh(buffer)) && (noalloc ==> buffer == old(buffer))
      ensures ok ==> Valid() && depth == old(depth)
      ensures ok ==> buffer[..offset] == old(buffer[..offset]) + Quote(key) + Colon(format)
      ensures Room(old(offset) + |Quote(key)| + |Colon(format)|) ==> ok
    {
      hide Quote, IsCString, Colon;
      ok := PrintKey(key);
      if !ok { return; }
      ok := Append(Colon(format), |Colon(format)|);
    }

    /** One round of the loop of `print_object`. */
    method PrintMemberLine(m: Member, more: bool) returns (ok: bool)
      requires Valid() && IsCString(m.key) && Printable(codec, m.value)
      modifies this, buffer
      ensures (buffer == old(buffer) || fresh(buffer)) && (noalloc ==> buffer == old(buffer))
      ensures ok ==> Valid() && depth == old(depth)
      ensures ok ==> buffer[..offset] == old(buffer[..offset]) + Indent(format, old(depth))
                     + PrintMember(codec, m, format, old(depth)) + MemberSeparator(format, more)
      ensures var length := |Indent(format, old(depth))| + |PrintMember(codec, m, format, old(depth))|
        + |MemberSeparator(format, more)|;
              Room(old(offset) + length) ==> ok
      decreases m, 4
    {
      hide PrintMember, Printable, IsCString, MemberSeparator;
      ghost var before := buffer[..offset];
      assert before + "" == before;
      if format {
        ok := Append(Tabs(depth), depth);
        if !ok { return; }
      }
      ok := PrintMemberText(m);
      if !ok { return; }
      ok := Append(MemberSeparator(format, more), |MemberSeparator(format, more)| + 1);
    }

    /** `print_object`. */
    method PrintObject(members: seq<Member>) returns (ok: bool)
      requires Valid() && Printable(codec, Object(members))
      modifies this, buffer
      ensures (buffer == old(buffer) || fresh(buffer)) && (noalloc ==> buffer == old(buffer))
      ensures ok ==> Valid() && depth == old(depth)
      ensures ok ==> Printed(old(buffer[..offset]), Print(codec, Object(members), format, old(depth)))
      ensures Room(old(offset) + |Print(codec, Object(members), format, old(depth))|) ==> ok
      decreases members, 6
    {
      hide PrintMembers, Print, Printed, CloseObject, OpenObject, Printable;
      ghost var before, inner := buffer[..offset], PrintMembers(codec, members, format, depth + 1);
      ObjectText(codec, members, format, depth);
      depth := depth + 1;
      ghost var open, close := OpenObject(format), CloseObject(format, depth - 1);
      ok := PrintOpenAndMembers(members);
      if !ok { return; }
      ok := CloseBehind(CloseObject(format, depth - 1), before, open, inner);
      if !ok { return; }
      depth := depth - 1;
    }

    method PrintOpenAndMembers(members: seq<Member>) returns (ok: bool)
      requires Valid() && Printable(codec, Object(members))
      modifies this, buffer
      ensures (buffer == old(buffer) || fresh(buffer)) && (noalloc ==> buffer == old(buffer))
      ensures ok ==> Valid() && depth == old(depth)
      ensures ok ==>
        buffer[..offset]
        == old(buffer[..offset]) + OpenObject(format) + PrintMembers(codec, members, format, old(depth))
      ensures Room(old(offset) + |OpenObject(format)| + |PrintMembers(codec, members, format, old(depth))|) ==> ok
      decreases members, 5
    {
      hide PrintMembers, Print, OpenObject, Printable;
      ok := Append(OpenObject(format), |OpenObject(format)| + 1);
      if !ok { return; }
      ok := PrintMemberLoop(members);
    }

    /** The loop of `print_object`. */
    method PrintMemberLoop(members: seq<Member>) returns (ok: bool)
      requires Valid() && Printable(codec, Object(members))
      modifies this, buffer
      ensures (buffer == old(buffer) || fresh(buffer)) && (noalloc ==> buffer == old(buffer))
      ensures ok ==> Valid() && depth == old(depth)
      ensures ok ==> buffer[..offset] == old(buffer[..offset]) + PrintMembers(codec, members, format, old(depth))
      ensures Room(old(offset) + |PrintMembers(codec, members, format, old(depth))|) ==> ok
      decreases members, 4
    {
      hide PrintMembers, PrintMember, Print, MemberSeparator, Indent, IsCString, Printable;
      ghost var all := buffer[..offset] + PrintMembers(codec, members, format, depth);
      var i := 0;
      ok := true;
      while i < |members|
        invariant 0 <= i <= |members| && Valid() && depth == old(depth) && ok
        invariant (buffer == old(buffer) || fresh(buffer)) && (noalloc ==> buffer == old(buffer))
        invariant buffer[..offset] + PrintMembers(codec, members[i..], format, depth) == all
      {
        ghost var passed := buffer[..offset];
        MembersUnfold(codec, members[i..], format, depth);
        assert members[i..][0] == members[i] && members[i..][1..] == members[i + 1..];
        PrintableMember(codec, members, i);
        ok := PrintMemberLine(members[i], i + 1 < |members|);
        if !ok { return; }
        Reassociate4(passed, Indent(format, depth), PrintMember(codec, members[i], format, depth),
                     MemberSeparator(format, i + 1 < |members|), PrintMembers(codec, members[i + 1..], format, depth));
        i := i + 1;
      }
      MembersUnfoldEmpty(codec, format, depth);
      assert members[|members|..] == [] && buffer[..offset] + "" == buffer[..offset];
    }
  }

  lemma PrintableItem(c: NumberCodec, items: seq<Json>, i: nat)
    requires Printable(c, Array(items)) && i < |items|
    ensures Printable(c, items[i])
  {
  }

  lemma PrintableMember(c: NumberCodec, members: seq<Member>, i: nat)
    requires Printable(c, Object(members)) && i < |members|
    ensures IsCString(members[i].key) && Printable(c, members[i].value)
  {
  }

  function OpenObject(format: bool): string { if format then "{\n" else "{" }

  lemma ObjectText(c: NumberCodec, members: seq<Member>, format: bool, pd: nat)
    ensures Print(c, Object(members), format, pd)
         == OpenObject(format) + (PrintMembers(c, members, format, pd + 1) + CloseObject(format, pd))
  {
    hide Print, PrintMembers, CloseObject;
    ObjectUnfold(c, members, format, pd);
    assert OpenObject(format) == "{" + NewLine(format);
  }

  lemma Reassociate4(passed: string, indent: string, text: string, sep: string, tail: string)
    ensures (passed + indent + text + sep) + tail == passed + (indent + (text + (sep + tail)))
  {
    Reassociate(passed + indent, text, sep, tail);
    assert (passed + indent) + (text + (sep + tail)) == passed + (indent + (text + (sep + tail)));
  }

  lemma Reassociate(passed: string, text: string, sep: string, tail: string)
    ensures (passed + text + sep) + tail == passed + (text + (sep + tail))
  {
  }

  /** `cJSON_Print` and `cJSON_PrintUnformatted`: the text of every value whose
      text leaves room for two more bytes below INT_MAX. */
  method PrintText(codec: NumberCodec, v: Json, format: bool) returns (ok: bool, text: string)
    requires Printable(codec, v)
    ensures ok ==> text == Print(codec, v, format, 0)
    ensures |Print(codec, v, format, 0)| + 2 <= 2147483647 ==> ok
  {
    text := "";
    var p := new PrintBuffer(codec, format, 256);
    ok := p.PrintAndAdvance(v);
    if ok {
      text := p.buffer[..p.offset];
    }
  }

  lemma {:induction false} NothingEscaped(s: string)
    requires PrintBuffer.Extra(s) == 0
    ensures Escape(s) == s
  {
    if s != "" {
      NothingEscaped(s[1..]);
      assert [s[0]] + s[1..] == s;
    }
  }

  lemma {:induction false} EscapeConcat(a: string, b: string)
    ensures Escape(a + b) == Escape(a) + Escape(b)
    decreases |a|
  {
    if a == "" {
      assert a + b == b;
    } else {
      assert (a + b)[0] == a[0] && (a + b)[1..] == a[1..] + b;
      EscapeConcat(a[1..], b);
    }
  }

  lemma EscapeNext(s: string, i: nat)
    requires i < |s|
    ensures Escape(s[..i + 1]) == Escape(s[..i]) + EscapeByte(s[i])
    ensures |Escape(s[..i + 1])| + |Escape(s[i + 1..])| == |Escape(s)|
  {
    assert s[..i + 1] == s[..i] + [s[i]] && Escape([s[i]]) == EscapeByte(s[i]) + Escape([s[i]][1..]);
    EscapeConcat(s[..i], [s[i]]);
    assert s == s[..i + 1] + s[i + 1..];
    EscapeConcat(s[..i + 1], s[i + 1..]);
  }
}
