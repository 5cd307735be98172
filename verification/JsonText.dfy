/** The text cJSON prints for a value, and the proof that parsing it gives the
    value back. */
module JsonText {
  import opened Wrappers
  import opened JsonTree
  import opened JsonNumber
  import opened JsonString
  import opened JsonParse

  function Tabs(n: nat): (t: string)
    ensures |t| == n && forall i :: 0 <= i < n ==> t[i] == '\t'
  {
    if n == 0 then "" else "\t" + Tabs(n - 1)
  }

  function Indent(format: bool, n: nat): string { if format then Tabs(n) else "" }

  function NewLine(format: bool): string { if format then "\n" else "" }

  function Colon(format: bool): string { if format then ":\t" else ":" }

  function ItemSeparator(format: bool, more: bool): string {
    if !more then "" else if format then ", " else ","
  }

  function MemberSeparator(format: bool, more: bool): string {
    (if more then "," else "") + NewLine(format)
  }

  /** The text of a value at nesting depth `depth`; `format` is `cJSON_Print`
      against `cJSON_PrintUnformatted`. */
  function Print(c: NumberCodec, v: Json, format: bool, depth: nat): string
    decreases v, 1
  {
    match v
    case Null => "null"
    case Bool(b) => if b then "true" else "false"
    case Number(x) => NumberText(c, x)
    case Text(s) => Quote(s)
    case Array(items) => "[" + (PrintItems(c, items, format, depth + 1) + "]")
    case Object(members) =>
      "{" + (NewLine(format) + (PrintMembers(c, members, format, depth + 1) + CloseObject(format, depth)))
  }

  function CloseObject(format: bool, depth: nat): string { Indent(format, depth) + "}" }

  function PrintItems(c: NumberCodec, items: seq<Json>, format: bool, depth: nat): string
    decreases items, 0
  {
    if items == [] then ""
    else Print(c, items[0], format, depth)
         + (ItemSeparator(format, |items| > 1) + PrintItems(c, items[1..], format, depth))
  }

  function PrintMembers(c: NumberCodec, members: seq<Member>, format: bool, depth: nat): string
    decreases members, 0
  {
    if members == [] then ""
    else Indent(format, depth)
         + (PrintMember(c, members[0], format, depth)
            + (MemberSeparator(format, |members| > 1) + PrintMembers(c, members[1..], format, depth)))
  }

  function PrintMember(c: NumberCodec, m: Member, format: bool, depth: nat): string
    decreases m, 0
  {
    Quote(m.key) + (Colon(format) + Print(c, m.value, format, depth))
  }

  /** What the printer can represent: finite doubles and NUL-free texts. */
  predicate Printable(c: NumberCodec, v: Json) {
    match v
    case Number(x) => c.isDouble(x)
    case Text(s) => IsCString(s)
    case Array(items) => forall i :: 0 <= i < |items| ==> Printable(c, items[i])
    case Object(members) => forall i :: 0 <= i < |members| ==>
      IsCString(members[i].key) && Printable(c, members[i].value)
    case _ => true
  }

  // ------------------------------------------------------------- scanning lemmas

  lemma {:induction false} SkipSpaces(content: string, i: nat, j: nat)
    requires i <= j < |content| && content[j] as int > 32
    requires forall k :: i <= k < j ==> content[k] as int <= 32
    ensures SkipWhitespace(content, i) == j
    decreases j - i
  {
    if i < j {
      SkipSpaces(content, i + 1, j);
    }
  }

  lemma {:induction false} RunLengthIs(content: string, i: nat, n: nat, taken: nat)
    requires i + n < |content| && taken + n < NUMBER_BUFFER - 1
    requires forall k :: i <= k < i + n ==> IsNumberChar(content[k])
    requires !IsNumberChar(content[i + n])
    ensures RunLength(content, i, taken) == n
    decreases n
  {
    if n > 0 {
      RunLengthIs(content, i + 1, n - 1, taken + 1);
    }
  }

  lemma AtRest(content: string, i: nat, a: string, b: string)
    requires At(content, i, a + b)
    ensures At(content, i, a) && At(content, i + |a|, b) && |a + b| == |a| + |b|
  {
    AtSplit(content, i, a, b);
  }

  /** A printed concatenation, piece by piece. */
  lemma At3(content: string, j: nat, a: string, b: string, c: string, rest: string)
    requires At(content, j, (a + (b + c)) + rest)
    ensures At(content, j, a) && At(content, j + |a|, b) && At(content, j + |a| + |b|, c + rest)
  {
    assert (a + (b + c)) + rest == a + (b + (c + rest));
    AtSplit(content, j, a, b + (c + rest));
    AtSplit(content, j + |a|, b, c + rest);
  }

  lemma At4(content: string, j: nat, a: string, b: string, c: string, d: string, rest: string)
    requires At(content, j, (a + (b + (c + d))) + rest)
    ensures At(content, j, a) && At(content, j + |a|, b) && At(content, j + |a| + |b|, c)
    ensures At(content, j + |a| + |b| + |c|, d + rest)
  {
    assert (a + (b + (c + d))) + rest == a + ((b + (c + d)) + rest);
    AtSplit(content, j, a, (b + (c + d)) + rest);
    At3(content, j + |a|, b, c, d, rest);
  }

  predicate StartsValue(ch: char) {
    ch == 'n' || ch == 'f' || ch == 't' || ch == QUOTE || ch == '[' || ch == '{' || StartsNumber(ch)
  }

  lemma FirstChar(c: NumberCodec, v: Json, format: bool, depth: nat)
    requires Printable(c, v)
    ensures |Print(c, v, format, depth)| > 0 && StartsValue(Print(c, v, format, depth)[0])
  {
  }

  /** A keyword is recognised by its first character. */
  lemma Keyword(content: string, i: nat)
    requires i < |content|
    ensures At(content, i, "null") ==> content[i] == 'n'
    ensures At(content, i, "false") ==> content[i] == 'f'
    ensures At(content, i, "true") ==> content[i] == 't'
  {
    assert At(content, i, "null") ==> content[i..i + 4][0] == content[i];
    assert At(content, i, "false") ==> content[i..i + 5][0] == content[i];
    assert At(content, i, "true") ==> content[i..i + 4][0] == content[i];
  }

  /** A printed number reads back. */
  lemma NumberParses(c: NumberCodec, x: real, content: string, i: nat)
    requires Terminated(content) && c.isDouble(x)
    requires At(content, i, NumberText(c, x)) && i + |NumberText(c, x)| < |content|
    requires !IsNumberChar(content[i + |NumberText(c, x)|])
    ensures ParseNumber(c, content, i) == Parsed(Number(x), i + |NumberText(c, x)|)
  {
    var t := NumberText(c, x);
    forall k | i <= k < i + |t|
      ensures IsNumberChar(content[k])
    {
      AtIndex(content, i, t, k - i);
    }
    RunLengthIs(content, i, |t|, 0);
    assert content[i..i + |t|] == t;
  }

  /** A printed string reads back. */
  lemma StringParses(s: string, content: string, i: nat)
    requires Terminated(content) && IsCString(s) && At(content, i, Quote(s))
    ensures content[i] == QUOTE && ParseString(content, i) == Parsed(s, i + |Quote(s)|)
  {
    hide Escape, StringEnd, Unescape, At, IsCString;
    assert Quote(s) == [QUOTE] + (Escape(s) + [QUOTE]);
    AtRest(content, i, [QUOTE], Escape(s) + [QUOTE]);
    AtIndex(content, i, [QUOTE], 0);
    EscapeDecodes(content, i + 1, s);
    UpToNulOfCString(s);
  }

  /** A quoted string in any spelling reads as the bytes meant, up to the first NUL. */
  lemma SpelledStringParses(c: NumberCodec, units: seq<Unit>, content: string, i: nat, d: int)
    requires Terminated(content) && AllUnits(units) && At(content, i, [QUOTE] + (Spelling(units) + [QUOTE]))
    ensures i + |Spelling(units)| + 2 < |content|
    ensures ParseValue(c, content, i, d) == Parsed(Text(UpToNul(Bytes(units))), i + |Spelling(units)| + 2)
  {
    hide Spelling, Bytes, StringEnd, Unescape, At, IsUnit, ParseArray, ParseObject, ParseNumber;
    AtRest(content, i, [QUOTE], Spelling(units) + [QUOTE]);
    AtIndex(content, i, [QUOTE], 0);
    SpellingDecodes(content, i + 1, units);
    AtEnd(content, i, [QUOTE] + (Spelling(units) + [QUOTE]));
    Keyword(content, i);
  }

  // ------------------------------------------------------------- layout

  function JoinWith(parts: seq<string>, separator: string): string {
    if parts == [] then "" else parts[0] + (if |parts| > 1 then separator else "") + JoinWith(parts[1..], separator)
  }

  function ItemTexts(c: NumberCodec, items: seq<Json>, format: bool, depth: nat): seq<string>
    decreases items, 0
  {
    if items == [] then [] else [Print(c, items[0], format, depth)] + ItemTexts(c, items[1..], format, depth)
  }

  function MemberTexts(c: NumberCodec, members: seq<Member>, format: bool, depth: nat): seq<string>
    decreases members, 0
  {
    if members == [] then []
    else
      var text := Quote(members[0].key) + (if format then ":\t" else ":") + Print(c, members[0].value, format, depth);
      [(if format then Tabs(depth) else "") + text] + MemberTexts(c, members[1..], format, depth)
  }

  /** Arrays stay on their line, with a space behind each comma if formatted. */
  lemma {:induction false} ItemsLayout(c: NumberCodec, items: seq<Json>, format: bool, depth: nat)
    ensures PrintItems(c, items, format, depth)
         == JoinWith(ItemTexts(c, items, format, depth), if format then ", " else ",")
    decreases |items|
  {
    hide Print;
    if items != [] {
      var texts, rest := ItemTexts(c, items, format, depth), ItemTexts(c, items[1..], format, depth);
      ItemsLayout(c, items[1..], format, depth);
      assert texts[0] == Print(c, items[0], format, depth) && texts[1..] == rest;
      assert |items| > 1 <==> |texts| > 1 by {
        assert rest == [] <==> items[1..] == [];
      }
    }
  }

  /** Members of a formatted object stand on lines of their own, a tab deeper. */
  lemma {:induction false} MembersLayout(c: NumberCodec, members: seq<Member>, format: bool, depth: nat)
    ensures PrintMembers(c, members, format, depth)
         == JoinWith(MemberTexts(c, members, format, depth), if format then ",\n" else ",")
            + (if format && members != [] then "\n" else "")
    decreases |members|
  {
    hide Print, Quote, Tabs, PrintMember, Indent, MemberSeparator;
    if members != [] {
      var texts, rest := MemberTexts(c, members, format, depth), MemberTexts(c, members[1..], format, depth);
      var separator, tail := if format then ",\n" else ",", if format then "\n" else "";
      MembersLayout(c, members[1..], format, depth);
      assert texts[1..] == rest;
      assert rest == [] <==> members[1..] == [];
      FirstLine(c, members[0], format, depth);
      Separators(format);
      if |members| > 1 {
        Regrouped(Indent(format, depth), PrintMember(c, members[0], format, depth), separator,
                  JoinWith(rest, separator), tail);
      } else {
        Regrouped(Indent(format, depth), PrintMember(c, members[0], format, depth), "", "", tail);
      }
    }
  }

  lemma Separators(format: bool)
    ensures MemberSeparator(format, true) == (if format then ",\n" else ",")
    ensures MemberSeparator(format, false) == (if format then "\n" else "")
  {
    assert "," + "\n" == ",\n" && "," + "" == "," && "" + "\n" == "\n";
  }

  lemma Regrouped(a: string, b: string, separator: string, rest: string, tail: string)
    ensures a + (b + (separator + (rest + tail))) == ((a + b) + separator + rest) + tail
    ensures a + (b + (tail + "")) == (a + b) + "" + "" + tail
  {
  }

  lemma FirstLine(c: NumberCodec, m: Member, format: bool, depth: nat)
    ensures Indent(format, depth) + PrintMember(c, m, format, depth)
         == (if format then Tabs(depth) else "")
            + (Quote(m.key) + (if format then ":\t" else ":") + Print(c, m.value, format, depth))
  {
    hide Print, Quote, Tabs;
  }

  /** The text of a value, laid out. */
  lemma LayoutIs(c: NumberCodec, v: Json, format: bool, depth: nat)
    ensures v.Array? ==>
      Print(c, v, format, depth)
      == "[" + JoinWith(ItemTexts(c, v.items, format, depth + 1), if format then ", " else ",") + "]"
    ensures v.Object? && !format ==>
      Print(c, v, format, depth) == "{" + JoinWith(MemberTexts(c, v.members, format, depth + 1), ",") + "}"
    ensures v.Object? && format ==>
      Print(c, v, format, depth)
      == "{\n" + JoinWith(MemberTexts(c, v.members, format, depth + 1), ",\n")
         + (if v.members == [] then "" else "\n") + Tabs(depth) + "}"
  {
    hide Print, JoinWith, Tabs, ItemTexts, MemberTexts;
    if v.Array? {
      ArrayLayout(c, v.items, format, depth);
    } else if v.Object? {
      if format {
        LinedLayout(c, v.members, depth);
      } else {
        FlatLayout(c, v.members, depth);
      }
    }
  }

  lemma ArrayLayout(c: NumberCodec, items: seq<Json>, format: bool, depth: nat)
    ensures Print(c, Array(items), format, depth)
         == "[" + JoinWith(ItemTexts(c, items, format, depth + 1), if format then ", " else ",") + "]"
  {
    hide Print, PrintItems, JoinWith, ItemTexts;
    var body := PrintItems(c, items, format, depth + 1);
    ArrayUnfolds(c, items, format, depth);
    ItemsLayout(c, items, format, depth + 1);
    Wrapped("[", body, "", "", "]");
  }

  lemma ArrayUnfolds(c: NumberCodec, items: seq<Json>, format: bool, depth: nat)
    ensures Print(c, Array(items), format, depth) == "[" + (PrintItems(c, items, format, depth + 1) + "]")
  {
    hide PrintItems;
  }

  lemma FlatLayout(c: NumberCodec, members: seq<Member>, depth: nat)
    ensures Print(c, Object(members), false, depth)
         == "{" + JoinWith(MemberTexts(c, members, false, depth + 1), ",") + "}"
  {
    hide Print, PrintMembers, JoinWith, MemberTexts;
    var body := JoinWith(MemberTexts(c, members, false, depth + 1), ",");
    ObjectUnfold(c, members, false, depth);
    MembersLayout(c, members, false, depth + 1);
    Wrapped("{", body, "", "", "}");
  }

  lemma LinedLayout(c: NumberCodec, members: seq<Member>, depth: nat)
    ensures Print(c, Object(members), true, depth)
         == "{\n" + JoinWith(MemberTexts(c, members, true, depth + 1), ",\n")
            + (if members == [] then "" else "\n") + Tabs(depth) + "}"
  {
    hide Print, PrintMembers, JoinWith, MemberTexts, Tabs;
    var body := JoinWith(MemberTexts(c, members, true, depth + 1), ",\n");
    var tail := if members == [] then "" else "\n";
    ObjectUnfold(c, members, true, depth);
    MembersLayout(c, members, true, depth + 1);
    Wrapped("{\n", body, tail, Tabs(depth), "}");
    Opened(body + tail + (Tabs(depth) + "}"));
  }

  lemma Wrapped(open: string, body: string, tail: string, tabs: string, close: string)
    ensures open + (body + tail + (tabs + close)) == open + body + tail + tabs + close
    ensures open + (body + close) == open + body + close
    ensures open + ("" + (body + "" + ("" + close))) == open + body + close
  {
  }

  lemma Opened(rest: string)
    ensures "{" + ("\n" + rest) == "{\n" + rest
  {
    assert "{" + "\n" == "{\n";
  }

  // ------------------------------------------------------------- round trip

  function Expected<T>(d: int, nesting: nat, v: T, next: nat): Parsed<T> {
    if d + nesting <= NESTING_LIMIT then Parsed(v, next) else Failed
  }

  /** Printed text parses to its value exactly when the nesting stays within the
      parser's limit. */
  lemma {:induction false} ValueParses(c: NumberCodec, v: Json, format: bool, pd: nat, content: string, i: nat, d: int)
    requires Printable(c, v) && Terminated(content) && d <= NESTING_LIMIT
    requires At(content, i, Print(c, v, format, pd)) && i + |Print(c, v, format, pd)| < |content|
    requires !IsNumberChar(content[i + |Print(c, v, format, pd)|])
    ensures ParseValue(c, content, i, d) == Expected(d, Nesting(v), v, i + |Print(c, v, format, pd)|)
    decreases v, 1
  {
    hide At, ParseArray, ParseObject, ParseNumber, ParseString, PrintItems, PrintMembers, NumberText, Quote;
    hide IsNumberChar, ItemsNesting, MembersNesting, CloseObject, NewLine;
    FirstChar(c, v, format, pd);
    AtIndex(content, i, Print(c, v, format, pd), 0);
    Keyword(content, i);
    match v {
      case Null =>
      case Bool(b) =>
      case Number(x) => NumberParses(c, x, content, i);
      case Text(s) => StringParses(s, content, i);
      case Array(items) => ArrayParses(c, items, format, pd, content, i, d);
      case Object(members) => ObjectParses(c, members, format, pd, content, i, d);
    }
  }

  lemma {:induction false} ArrayParses(
      c: NumberCodec, items: seq<Json>, format: bool, pd: nat, content: string, i: nat, d: int)
    requires Printable(c, Array(items)) && Terminated(content) && d <= NESTING_LIMIT
    requires At(content, i, "[" + (PrintItems(c, items, format, pd + 1) + "]"))
    ensures content[i] == '['
    ensures ParseArray(c, content, i, d)
         == Expected(d, 1 + ItemsNesting(items), Array(items), i + |PrintItems(c, items, format, pd + 1)| + 2)
    decreases items, 1
  {
    hide ParseElements, ParseValue, PrintItems, Print, Printable, At, SkipWhitespace, ItemsNesting, Nesting;
    hide ItemSeparator, IsNumberChar, StartsValue;
    var inner := PrintItems(c, items, format, pd + 1);
    AtRest(content, i, "[", inner + "]");
    AtIndex(content, i, "[", 0);
    if items == [] {
      assert inner == "" by { NoItems(c, format, pd + 1); }
      NoItemsNesting();
      AtIndex(content, i + 1, inner + "]", 0);
      SkipSpaces(content, i + 1, i + 1);
    } else {
      assert Printable(c, items[0]) by { PrintableParts(c, items); }
      ItemLayout(c, items, format, pd + 1, content, i + 1);
      FirstChar(c, items[0], format, pd + 1);
      AtIndex(content, i + 1, Print(c, items[0], format, pd + 1), 0);
      NoBracket(content[i + 1]);
      SkipSpaces(content, i + 1, i + 1);
      if d < NESTING_LIMIT {
        ItemsParse(c, items, format, pd + 1, content, i, i + 1, d + 1);
      }
    }
  }

  lemma NoItemsNesting()
    ensures ItemsNesting([]) == 0
  {
  }

  lemma NoItems(c: NumberCodec, format: bool, pd: nat)
    ensures PrintItems(c, [], format, pd) == ""
  {
  }

  lemma {:induction false} ItemsParse(
      c: NumberCodec, items: seq<Json>, format: bool, pd: nat, content: string, at: nat, j: nat, d: int)
    requires items != [] && Printable(c, Array(items)) && Terminated(content) && d <= NESTING_LIMIT
    requires at < j && forall k :: at < k < j ==> k < |content| && content[k] as int <= 32
    requires At(content, j, PrintItems(c, items, format, pd) + "]")
    ensures at + 1 < |content|
    ensures ParseElements(c, content, at, d)
         == Expected(d, ItemsNesting(items), items, j + |PrintItems(c, items, format, pd)| + 1)
    decreases items, 0
  {
    hide ParseValue, ParseElements, Printable, Print, At, SkipWhitespace, IsNumberChar, PrintItems, Nesting;
    hide ItemsNesting, ItemSeparator;
    var rest := items[1..];
    PrintableParts(c, items);
    ItemLayout(c, items, format, pd, content, j);
    SkipSpaces(content, at + 1, j);
    var next := j + |Print(c, items[0], format, pd)|;
    SkipSpaces(content, next, next);
    ValueParses(c, items[0], format, pd, content, j, d);
    ElementsStep(c, content, at, d);
    ItemsNestingStep(items);
    if rest == [] {
      assert items == [items[0]];
    } else {
      assert items == [items[0]] + rest;
      SeparatorShape(format, true);
      ItemsParse(c, rest, format, pd, content, next, next + |ItemSeparator(format, true)|, d);
    }
  }

  lemma ItemsNestingStep(items: seq<Json>)
    requires items != []
    ensures ItemsNesting(items) == Max(Nesting(items[0]), ItemsNesting(items[1..]))
    ensures |items| == 1 ==> ItemsNesting(items) == Nesting(items[0])
  {
    hide Nesting;
  }

  lemma ItemsUnfold(c: NumberCodec, items: seq<Json>, format: bool, pd: nat)
    requires items != []
    ensures PrintItems(c, items, format, pd)
         == Print(c, items[0], format, pd)
           + (ItemSeparator(format, |items| > 1) + PrintItems(c, items[1..], format, pd))
    ensures |items| == 1 ==> PrintItems(c, items[1..], format, pd) == ""
  {
    hide Print;
  }

  /** Where the pieces of a printed list stand. */
  lemma ItemLayout(c: NumberCodec, items: seq<Json>, format: bool, pd: nat, content: string, j: nat)
    requires items != [] && Printable(c, items[0]) && At(content, j, PrintItems(c, items, format, pd) + "]")
    ensures
      var text, sep := Print(c, items[0], format, pd), ItemSeparator(format, |items| > 1);
      var tail := PrintItems(c, items[1..], format, pd);
      var next := j + |text|;
      && |PrintItems(c, items, format, pd)| == |text| + |sep| + |tail|
      && (|items| == 1 ==> sep == tail == "")
      && At(content, j, text) && next + |sep| < |content| && At(content, next + |sep|, tail + "]")
      && content[j] as int > 32
      && content[next] == (if |items| > 1 then ',' else ']') && !IsNumberChar(content[next])
      && forall k :: next < k < next + |sep| ==> content[k] as int <= 32
  {
    hide Print, PrintItems, Printable, At, ItemSeparator, IsNumberChar, StartsValue;
    var text, sep := Print(c, items[0], format, pd), ItemSeparator(format, |items| > 1);
    var tail := PrintItems(c, items[1..], format, pd);
    ItemsUnfold(c, items, format, pd);
    FirstChar(c, items[0], format, pd);
    StartsAfterSpace(text[0]);
    At3(content, j, text, sep, tail, "]");
    AtIndex(content, j, text, 0);
    var next := j + |text|;
    SeparatorShape(format, |items| > 1);
    SeparatorAt(content, next, sep, tail);
  }

  lemma NoBracket(ch: char)
    requires StartsValue(ch)
    ensures ch != ']' && ch as int > 32
  {
  }

  lemma StartsAfterSpace(ch: char)
    requires StartsValue(ch)
    ensures ch as int > 32
  {
  }

  lemma SeparatorShape(format: bool, more: bool)
    ensures var sep := ItemSeparator(format, more);
      && (more <==> sep != "") && (sep != "" ==> sep[0] == ',')
      && (forall k :: 1 <= k < |sep| ==> sep[k] as int <= 32)
    ensures !IsNumberChar(',') && !IsNumberChar(']')
  {
  }

  /** What a separator, or in its absence the closing bracket, looks like in place. */
  lemma SeparatorAt(content: string, next: nat, sep: string, tail: string)
    requires At(content, next, sep) && At(content, next + |sep|, tail + "]") && (sep == "" ==> tail == "")
    requires (sep != "" ==> sep[0] == ',') && forall k :: 1 <= k < |sep| ==> sep[k] as int <= 32
    ensures next + |sep| < |content| && content[next] == (if sep != "" then ',' else ']')
    ensures forall k :: next < k < next + |sep| ==> content[k] as int <= 32
  {
    hide At;
    AtIndex(content, next + |sep|, tail + "]", 0);
    if sep != "" {
      AtIndex(content, next, sep, 0);
    }
    forall k | next < k < next + |sep|
      ensures k < |content| && content[k] as int <= 32
    {
      AtIndex(content, next, sep, k - next);
    }
  }

  lemma PrintableParts(c: NumberCodec, items: seq<Json>)
    requires items != [] && Printable(c, Array(items))
    ensures Printable(c, items[0]) && Printable(c, Array(items[1..]))
  {
  }

  lemma PrintableMemberParts(c: NumberCodec, members: seq<Member>)
    requires members != [] && Printable(c, Object(members))
    ensures IsCString(members[0].key) && Printable(c, members[0].value) && Printable(c, Object(members[1..]))
  {
  }

  lemma {:induction false} ObjectParses(
      c: NumberCodec, members: seq<Member>, format: bool, pd: nat, content: string, i: nat, d: int)
    requires Printable(c, Object(members)) && Terminated(content) && d <= NESTING_LIMIT
    requires At(content, i, Print(c, Object(members), format, pd))
    ensures content[i] == '{'
    ensures ParseObject(c, content, i, d)
         == Expected(d, 1 + MembersNesting(members), Object(members), i + |Print(c, Object(members), format, pd)|)
    decreases members, 2
  {
    hide Print, PrintMembers, PrintMember, Indent, ParseMembers, CloseObject, At, Printable, SkipWhitespace;
    hide NewLine, Nesting, MemberSeparator, MembersNesting;
    ObjectLayout(c, members, format, pd, content, i);
    var j := i + 1 + |NewLine(format)|;
    if members == [] {
      assert MembersNesting(members) == 0 by { NoMembersNesting(); }
      CloseSkipped(format, pd, content, i + 1, j);
    } else {
      MemberLayout(c, members, format, pd + 1, content, j, CloseObject(format, pd));
      SkipSpaces(content, i + 1, j + |Indent(format, pd + 1)|);
      if d < NESTING_LIMIT {
        MembersParse(c, members, format, pd + 1, content, j + |Indent(format, pd + 1)| - 1, j, d + 1);
      }
    }
  }

  lemma NoMembersNesting()
    ensures MembersNesting([]) == 0
  {
  }

  /** Where the pieces of a printed object stand. */
  lemma ObjectLayout(c: NumberCodec, members: seq<Member>, format: bool, pd: nat, content: string, i: nat)
    requires At(content, i, Print(c, Object(members), format, pd))
    ensures
      var inner, close := PrintMembers(c, members, format, pd + 1), CloseObject(format, pd);
      var j := i + 1 + |NewLine(format)|;
      && |Print(c, Object(members), format, pd)| == 1 + |NewLine(format)| + |inner| + |close|
      && i < |content| && content[i] == '{'
      && j <= |content| && (forall k :: i + 1 <= k < j ==> content[k] as int <= 32)
      && At(content, j, inner + close)
      && (members == [] ==> inner == "" && At(content, j, close))
  {
    hide Print, PrintMembers, CloseObject, At;
    var inner, close := PrintMembers(c, members, format, pd + 1), CloseObject(format, pd);
    ObjectUnfold(c, members, format, pd);
    AtRest(content, i, "{", NewLine(format) + (inner + close));
    AtIndex(content, i, "{", 0);
    AtRest(content, i + 1, NewLine(format), inner + close);
    if format {
      AtIndex(content, i + 1, NewLine(format), 0);
    }
    if members == [] {
      MembersUnfoldEmpty(c, format, pd + 1);
      assert "" + close == close;
    }
  }

  lemma ObjectUnfold(c: NumberCodec, members: seq<Member>, format: bool, pd: nat)
    ensures Print(c, Object(members), format, pd)
         == "{" + (NewLine(format) + (PrintMembers(c, members, format, pd + 1) + CloseObject(format, pd)))
  {
  }

  lemma MembersUnfoldEmpty(c: NumberCodec, format: bool, pd: nat)
    ensures PrintMembers(c, [], format, pd) == ""
  {
  }

  lemma MembersUnfold(c: NumberCodec, members: seq<Member>, format: bool, pd: nat)
    requires members != []
    ensures PrintMembers(c, members, format, pd)
         == Indent(format, pd)
            + (PrintMember(c, members[0], format, pd)
               + (MemberSeparator(format, |members| > 1) + PrintMembers(c, members[1..], format, pd)))
    ensures |PrintMember(c, members[0], format, pd)| > 0 && PrintMember(c, members[0], format, pd)[0] == QUOTE
  {
    hide Print;
  }

  /** The closing brace behind a newline and its tabs. */
  lemma CloseSkipped(format: bool, pd: nat, content: string, i: nat, j: nat)
    requires i <= j && At(content, j, CloseObject(format, pd))
    requires forall k :: i <= k < j ==> k < |content| && content[k] as int <= 32
    ensures i < |content| && SkipWhitespace(content, i) == j + |CloseObject(format, pd)| - 1
    ensures content[j + |CloseObject(format, pd)| - 1] == '}'
  {
    var tabs := Indent(format, pd);
    AtRest(content, j, tabs, "}");
    AtIndex(content, j + |tabs|, "}", 0);
    forall k | j <= k < j + |tabs|
      ensures content[k] as int <= 32
    {
      AtIndex(content, j, tabs, k - j);
    }
    SkipSpaces(content, i, j + |tabs|);
  }

  /** Where the pieces of printed members stand: tabs, member, separator, rest. */
  lemma MemberLayout(
      c: NumberCodec, members: seq<Member>, format: bool, pd: nat, content: string, j: nat, close: string)
    requires members != [] && At(content, j, PrintMembers(c, members, format, pd) + close)
    ensures
      var text, sep, tail := PrintMember(c, members[0], format, pd), MemberSeparator(format, |members| > 1),
          PrintMembers(c, members[1..], format, pd);
      var first := j + |Indent(format, pd)|;
      && |PrintMembers(c, members, format, pd)| == |Indent(format, pd)| + |text| + |sep| + |tail|
      && (forall k :: j <= k < first ==> k < |content| && content[k] as int <= 32)
      && first < |content| && content[first] == QUOTE
      && At(content, first, text) && At(content, first + |text|, sep)
      && At(content, first + |text| + |sep|, tail + close)
  {
    hide PrintMember, PrintMembers, MemberSeparator, At;
    var tabs, text, sep, tail := Indent(format, pd), PrintMember(c, members[0], format, pd),
        MemberSeparator(format, |members| > 1), PrintMembers(c, members[1..], format, pd);
    MembersUnfold(c, members, format, pd);
    At4(content, j, tabs, text, sep, tail, close);
    forall k | j <= k < j + |tabs|
      ensures k < |content| && content[k] as int <= 32
    {
      AtIndex(content, j, tabs, k - j);
    }
    AtIndex(content, j + |tabs|, text, 0);
  }

  lemma {:induction false} MemberParses(
      c: NumberCodec, m: Member, format: bool, pd: nat, content: string, i: nat, d: int)
    requires IsCString(m.key) && Printable(c, m.value) && Terminated(content) && d <= NESTING_LIMIT
    requires At(content, i, PrintMember(c, m, format, pd)) && i + |PrintMember(c, m, format, pd)| < |content|
    requires !IsNumberChar(content[i + |PrintMember(c, m, format, pd)|])
    ensures ParseMember(c, content, i, d) == Expected(d, Nesting(m.value), m, i + |PrintMember(c, m, format, pd)|)
    decreases m, 0
  {
    hide ParseValue, ParseString, Print, Quote, At, SkipWhitespace, Printable, IsNumberChar, PrintMember, Colon;
    KeyLayout(c, m, format, pd, content, i);
    var colon := i + |Quote(m.key)|;
    var start := colon + |Colon(format)|;
    StringParses(m.key, content, i);
    SkipSpaces(content, colon, colon);
    SkipSpaces(content, colon + 1, start);
    ValueParses(c, m.value, format, pd, content, start, d);
  }

  /** Where the pieces of a printed member stand. */
  lemma KeyLayout(c: NumberCodec, m: Member, format: bool, pd: nat, content: string, i: nat)
    requires Printable(c, m.value) && At(content, i, PrintMember(c, m, format, pd))
    ensures
      var value := Print(c, m.value, format, pd);
      var colon := i + |Quote(m.key)|;
      var start := colon + |Colon(format)|;
      && |PrintMember(c, m, format, pd)| == |Quote(m.key)| + |Colon(format)| + |value|
      && At(content, i, Quote(m.key)) && At(content, start, value)
      && colon < start < |content| && content[colon] == ':' && content[start] as int > 32
      && forall k :: colon < k < start ==> content[k] as int <= 32
  {
    hide Print, Quote, At, Printable;
    var value := Print(c, m.value, format, pd);
    AtRest(content, i, Quote(m.key), Colon(format) + value);
    var colon := i + |Quote(m.key)|;
    AtRest(content, colon, Colon(format), value);
    AtIndex(content, colon, Colon(format), 0);
    FirstChar(c, m.value, format, pd);
    AtIndex(content, colon + |Colon(format)|, value, 0);
    if format {
      AtIndex(content, colon, Colon(format), 1);
    }
  }

  lemma {:induction false} MembersParse(
      c: NumberCodec, members: seq<Member>, format: bool, pd: nat, content: string, at: nat, j: nat, d: int)
    requires members != [] && Printable(c, Object(members)) && Terminated(content) && d <= NESTING_LIMIT && pd > 0
    requires At(content, j, PrintMembers(c, members, format, pd) + CloseObject(format, pd - 1))
    requires at < j + |Indent(format, pd)| && forall k :: at < k < j ==> k < |content| && content[k] as int <= 32
    ensures at + 1 < |content|
    ensures ParseMembers(c, content, at, d)
         == Expected(d, MembersNesting(members), members,
                     j + |PrintMembers(c, members, format, pd)| + |CloseObject(format, pd - 1)|)
    decreases members, 1
  {
    hide ParseMember, ParseMembers, Printable, PrintMember, PrintMembers, At, SkipWhitespace, IsNumberChar;
    hide Indent, CloseObject, Nesting, MembersNesting, MemberSeparator;
    var m, rest, close := members[0], members[1..], CloseObject(format, pd - 1);
    PrintableMemberParts(c, members);
    MemberLayout(c, members, format, pd, content, j, close);
    var first := j + |Indent(format, pd)|;
    SkipSpaces(content, at + 1, first);
    var next := first + |PrintMember(c, m, format, pd)|;
    AfterMember(c, rest, format, pd, content, next);
    MemberParses(c, m, format, pd, content, first, d);
    MembersStep(c, content, at, d);
    MembersNestingStep(members);
    if rest == [] {
      assert members == [m];
    } else {
      assert members == [m] + rest;
      MemberSeparatorShape(format);
      var start := next + |MemberSeparator(format, true)|;
      MembersParse(c, rest, format, pd, content, next, start, d);
    }
  }

  lemma MemberSeparatorShape(format: bool)
    ensures MemberSeparator(format, true) != ""
  {
  }

  lemma MembersNestingStep(members: seq<Member>)
    requires members != []
    ensures MembersNesting(members) == Max(Nesting(members[0].value), MembersNesting(members[1..]))
    ensures |members| == 1 ==> MembersNesting(members) == Nesting(members[0].value)
  {
    hide Nesting;
  }

  /** Behind a member: a comma and the next member, or the closing brace. */
  lemma AfterMember(c: NumberCodec, rest: seq<Member>, format: bool, pd: nat, content: string, next: nat)
    requires pd > 0 && At(content, next, MemberSeparator(format, rest != []))
    requires
      var tail := PrintMembers(c, rest, format, pd) + CloseObject(format, pd - 1);
      At(content, next + |MemberSeparator(format, rest != [])|, tail)
    ensures next < |content| && !IsNumberChar(content[next])
    ensures rest == [] ==>
              var end := next + |MemberSeparator(format, false)| + |CloseObject(format, pd - 1)|;
              PrintMembers(c, rest, format, pd) == "" && SkipWhitespace(content, next) == end - 1
                && content[end - 1] == '}'
    ensures rest != [] ==> SkipWhitespace(content, next) == next && content[next] == ','
    ensures rest != [] ==> next + |MemberSeparator(format, true)| <= |content|
    ensures rest != [] ==> forall k :: next < k < next + |MemberSeparator(format, true)| ==> content[k] as int <= 32
  {
    hide PrintMembers, At, CloseObject, SkipWhitespace, MemberSeparator, IsNumberChar;
    if rest == [] {
      MembersUnfoldEmpty(c, format, pd);
      assert "" + CloseObject(format, pd - 1) == CloseObject(format, pd - 1);
      LastMember(format, pd - 1, content, next);
    } else {
      CommaBehind(format, content, next);
    }
  }

  /** Behind the last member: a newline if formatted, tabs and the closing brace. */
  lemma LastMember(format: bool, pd: nat, content: string, next: nat)
    requires At(content, next, MemberSeparator(format, false))
    requires At(content, next + |MemberSeparator(format, false)|, CloseObject(format, pd))
    ensures next < |content| && !IsNumberChar(content[next])
    ensures
      var end := next + |MemberSeparator(format, false)| + |CloseObject(format, pd)|;
      SkipWhitespace(content, next) == end - 1 && content[end - 1] == '}'
  {
    hide At, CloseObject, SkipWhitespace;
    var sep := MemberSeparator(format, false);
    if format {
      AtIndex(content, next, sep, 0);
    }
    CloseSkipped(format, pd, content, next, next + |sep|);
    CloseStart(format, pd, content, next + |sep|);
  }

  /** Behind any other: a comma, and a newline if formatted. */
  lemma CommaBehind(format: bool, content: string, next: nat)
    requires At(content, next, MemberSeparator(format, true))
    ensures next + |MemberSeparator(format, true)| <= |content| && next < |content|
    ensures SkipWhitespace(content, next) == next && content[next] == ',' && !IsNumberChar(content[next])
    ensures forall k :: next < k < next + |MemberSeparator(format, true)| ==> content[k] as int <= 32
  {
    hide At, SkipWhitespace;
    var sep := MemberSeparator(format, true);
    AtIndex(content, next, sep, 0);
    if format {
      AtIndex(content, next, sep, 1);
    }
    AtIndex(content, next, sep, |sep| - 1);
    SkipSpaces(content, next, next);
  }

  lemma CloseStart(format: bool, pd: nat, content: string, j: nat)
    requires At(content, j, CloseObject(format, pd))
    ensures j < |content| && !IsNumberChar(content[j])
  {
    AtIndex(content, j, CloseObject(format, pd), 0);
  }

  // ------------------------------------------------------------- whole texts

  lemma CStringConcat(a: string, b: string)
    requires IsCString(a) && IsCString(b)
    ensures IsCString(a + b)
  {
  }

  lemma {:induction false} QuoteIsCString(s: string)
    requires IsCString(s)
    ensures IsCString(Escape(s)) && IsCString(Quote(s))
  {
    if s != "" {
      QuoteIsCString(s[1..]);
      CStringConcat(EscapeByte(s[0]), Escape(s[1..]));
    }
  }

  /** Printed text carries no NUL, so `strlen` measures all of it. */
  lemma {:induction false} PrintIsCString(c: NumberCodec, v: Json, format: bool, pd: nat)
    requires Printable(c, v)
    ensures IsCString(Print(c, v, format, pd))
    decreases v, 1
  {
    hide IsCString, PrintItems, PrintMembers, CloseObject, NewLine, Quote, NumberText, Printable;
    match v
    case Text(s) =>
      PrintableText(c, s);
      QuoteIsCString(s);
    case Array(items) =>
      ItemsAreCString(c, items, format, pd + 1);
      LiteralsAreCString(format, pd);
      CStringConcat(PrintItems(c, items, format, pd + 1), "]");
      CStringConcat("[", PrintItems(c, items, format, pd + 1) + "]");
    case Object(members) =>
      MembersAreCString(c, members, format, pd + 1);
      LiteralsAreCString(format, pd);
      CStringConcat(PrintMembers(c, members, format, pd + 1), CloseObject(format, pd));
      CStringConcat(NewLine(format), PrintMembers(c, members, format, pd + 1) + CloseObject(format, pd));
      CStringConcat("{", NewLine(format) + (PrintMembers(c, members, format, pd + 1) + CloseObject(format, pd)));
    case Number(x) => NumberIsCString(c, x);
    case _ => LiteralsAreCString(format, pd);
  }

  lemma PrintableText(c: NumberCodec, s: string)
    requires Printable(c, Text(s))
    ensures IsCString(s)
  {
  }

  lemma NumberIsCString(c: NumberCodec, x: real)
    requires Printable(c, Number(x))
    ensures IsCString(NumberText(c, x))
  {
  }

  lemma LiteralsAreCString(format: bool, pd: nat)
    ensures IsCString("[") && IsCString("]") && IsCString("{") && IsCString(NewLine(format))
      && IsCString(CloseObject(format, pd))
    ensures IsCString("null") && IsCString("true") && IsCString("false")
  {
  }

  lemma {:induction false} ItemsAreCString(c: NumberCodec, items: seq<Json>, format: bool, pd: nat)
    requires Printable(c, Array(items))
    ensures IsCString(PrintItems(c, items, format, pd))
    decreases items, 0
  {
    hide Print, IsCString;
    if items == [] {
      NoItems(c, format, pd);
      assert IsCString("") by { EmptyIsCString(); }
    } else {
      PrintableParts(c, items);
      PrintIsCString(c, items[0], format, pd);
      ItemsAreCString(c, items[1..], format, pd);
      SeparatorsAreCString(format, |items| > 1, pd);
      CStringConcat(ItemSeparator(format, |items| > 1), PrintItems(c, items[1..], format, pd));
      CStringConcat(
        Print(c, items[0], format, pd), ItemSeparator(format, |items| > 1) + PrintItems(c, items[1..], format, pd));
      ItemsUnfold(c, items, format, pd);
    }
  }

  lemma EmptyIsCString()
    ensures IsCString("")
  {
  }

  lemma SeparatorsAreCString(format: bool, more: bool, pd: nat)
    ensures IsCString(ItemSeparator(format, more)) && IsCString(MemberSeparator(format, more))
    ensures IsCString(Indent(format, pd)) && IsCString(Colon(format))
  {
  }

  lemma {:induction false} MembersAreCString(c: NumberCodec, members: seq<Member>, format: bool, pd: nat)
    requires Printable(c, Object(members))
    ensures IsCString(PrintMembers(c, members, format, pd))
    decreases members, 0
  {
    hide Print, IsCString, Quote, Indent, MemberSeparator, Colon;
    if members == [] {
      MembersUnfoldEmpty(c, format, pd);
      EmptyIsCString();
    } else {
      var m, rest := members[0], members[1..];
      PrintableMemberParts(c, members);
      PrintIsCString(c, m.value, format, pd);
      MembersAreCString(c, rest, format, pd);
      SeparatorsAreCString(format, |members| > 1, pd);
      QuoteIsCString(m.key);
      CStringConcat(Colon(format), Print(c, m.value, format, pd));
      CStringConcat(Quote(m.key), Colon(format) + Print(c, m.value, format, pd));
      CStringConcat(MemberSeparator(format, |members| > 1), PrintMembers(c, rest, format, pd));
      var behind := MemberSeparator(format, |members| > 1) + PrintMembers(c, rest, format, pd);
      CStringConcat(PrintMember(c, m, format, pd), behind);
      CStringConcat(Indent(format, pd), PrintMember(c, m, format, pd) + behind);
      MembersUnfold(c, members, format, pd);
    }
  }

  /** Parsing the printed text of any tree gives the tree back, formatted or not,
      whether or not trailing text is refused; deeper nesting than the parser's
      limit is printed all the same, and then refused by the parser. */
  lemma RoundTrip(c: NumberCodec, v: Json, format: bool, toEnd: bool)
    requires Printable(c, v)
    ensures ParseText(c, Print(c, v, format, 0), toEnd) == if Nesting(v) <= 1000 then Some(v) else None
  {
    hide Printable, Print, ParseValue, IsCString;
    var text := Print(c, v, format, 0);
    var content := text + [NUL];
    PrintIsCString(c, v, format, 0);
    UpToNulOfCString(text);
    FirstChar(c, v, format, 0);
    assert content[..|text|] == text;
    NoBom(content);
    SkipSpaces(content, 0, 0);
    ValueParses(c, v, format, 0, content, 0, 0);
  }

  /** A byte order mark in front of the text is skipped. */
  lemma MarkedRoundTrip(c: NumberCodec, v: Json, format: bool, toEnd: bool)
    requires Printable(c, v)
    ensures ParseText(c, [0xEF as char, 0xBB as char, 0xBF as char] + Print(c, v, format, 0), toEnd)
         == if Nesting(v) <= 1000 then Some(v) else None
  {
    hide Printable, Print, ParseValue, IsCString, At;
    var text := Print(c, v, format, 0);
    var marked := [0xEF as char, 0xBB as char, 0xBF as char] + text;
    var content := marked + [NUL];
    PrintIsCString(c, v, format, 0);
    CStringConcat([0xEF as char, 0xBB as char, 0xBF as char], text);
    MarkIsCString();
    UpToNulOfCString(marked);
    FirstChar(c, v, format, 0);
    Marked(content, text);
    SkipSpaces(content, 3, 3);
    ValueParses(c, v, format, 0, content, 3, 0);
  }

  lemma MarkIsCString()
    ensures IsCString([0xEF as char, 0xBB as char, 0xBF as char])
  {
  }

  lemma Marked(content: string, text: string)
    requires content == [0xEF as char, 0xBB as char, 0xBF as char] + text + [NUL] && text != ""
    ensures SkipBom(content) == 3 && At(content, 3, text) && content[3] == text[0] && !IsNumberChar(NUL)
  {
    assert content[..3] == [0xEF as char, 0xBB as char, 0xBF as char];
    assert content[3..3 + |text|] == text;
  }

  lemma NoBom(content: string)
    requires content != "" && StartsValue(content[0])
    ensures SkipBom(content) == 0
  {
    if At(content, 0, BOM) {
      AtIndex(content, 0, BOM, 0);
    }
  }

  /** Two trees with the same text are the same tree, however deep they nest. */
  lemma PrintInjective(c: NumberCodec, v: Json, w: Json, format: bool)
    requires Printable(c, v) && Printable(c, w)
    requires Print(c, v, format, 0) == Print(c, w, format, 0)
    ensures v == w
  {
    hide Printable, Print, ParseValue, At;
    var text := Print(c, v, format, 0);
    var content := text + [NUL];
    AtOwn(text);
    var depth := NESTING_LIMIT - Nesting(v) - Nesting(w);
    ValueParses(c, v, format, 0, content, 0, depth);
    ValueParses(c, w, format, 0, content, 0, depth);
  }

  lemma AtOwn(text: string)
    ensures At(text + [NUL], 0, text) && Terminated(text + [NUL]) && !IsNumberChar(NUL)
  {
    assert (text + [NUL])[..|text|] == text;
  }
}
