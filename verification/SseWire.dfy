/** Streams as a server writes them: whatever the choices it has and however the network
    cuts them, the parser hands on the events written. */
module SseWire {
  import opened Wrappers
  import opened JsonTree
  import opened Sse

  /** A value behind a field name, with a space before it or without. */
  datatype Field = Field(text: string, spaced: bool)

  /** An event to be written: its name and the lines of its body. */
  datatype Event = Event(name: Field, body: seq<Field>)

  datatype Line = Comment(text: string) | Name(name: Field) | Data(data: Field) | End

  predicate NoLineFeed(s: string) { forall i :: 0 <= i < |s| ==> s[i] != '\n' }

  /** What can be written behind a field name: one line of a C string, and with a space
      before it if it starts with one. */
  predicate Writable(f: Field) {
    && NoLineFeed(f.text) && (forall i :: 0 <= i < |f.text| ==> f.text[i] != NUL)
    && (f.spaced || f.text == "" || f.text[0] != ' ')
  }

  predicate WritableEvent(e: Event) {
    Writable(e.name) && e.body != [] && forall i :: 0 <= i < |e.body| ==> Writable(e.body[i])
  }

  predicate WritableLine(l: Line) {
    match l
    case Comment(text) => NoLineFeed(text)
    case Name(f) => Writable(f)
    case Data(f) => Writable(f)
    case End => true
  }

  predicate AllWritable(lines: seq<Line>) { forall i :: 0 <= i < |lines| ==> WritableLine(lines[i]) }

  predicate AllEvents(events: seq<Event>) { forall i :: 0 <= i < |events| ==> WritableEvent(events[i]) }

  function Value(f: Field): string { (if f.spaced then " " else "") + f.text }

  function LineText(l: Line): string {
    match l
    case Comment(text) => ":" + text
    case Name(f) => "event:" + Value(f)
    case Data(f) => "data:" + Value(f)
    case End => ""
  }

  function DataLines(body: seq<Field>): seq<Line> {
    if body == [] then [] else [Data(body[0])] + DataLines(body[1..])
  }

  /** The lines of the events: name, body line by line, and an empty line for each. */
  function LinesOf(events: seq<Event>): seq<Line> {
    if events == [] then []
    else [Name(events[0].name)] + DataLines(events[0].body) + [End] + LinesOf(events[1..])
  }

  function Uncommented(lines: seq<Line>): seq<Line> {
    if lines == [] then []
    else (if lines[0].Comment? then [] else [lines[0]]) + Uncommented(lines[1..])
  }

  function StreamText(lines: seq<Line>): string {
    if lines == [] then "" else LineText(lines[0]) + "\n" + StreamText(lines[1..])
  }

  /** The body as one text. */
  function BodyText(body: seq<Field>): string
    requires body != []
  {
    if |body| == 1 then body[0].text else body[0].text + "\n" + BodyText(body[1..])
  }

  function Handed(events: seq<Event>): (r: seq<Dispatched>)
    requires AllEvents(events)
    ensures |r| == |events|
  {
    if events == [] then []
    else [Dispatched(events[0].name.text, BodyText(events[0].body))] + Handed(events[1..])
  }

  /** How many events are handed on: all, or up to and with the first refused. */
  function Taken(dispatch: Dispatch, handed: seq<Dispatched>): (n: nat)
    ensures n <= |handed|
  {
    if handed == [] then 0
    else if dispatch(handed[0].name, handed[0].body) then 1 + Taken(dispatch, handed[1..])
    else 1
  }

  ghost predicate AllTaken(dispatch: Dispatch, handed: seq<Dispatched>) {
    forall i :: 0 <= i < |handed| ==> dispatch(handed[i].name, handed[i].body)
  }

  function Texts(lines: seq<Line>): seq<string> {
    if lines == [] then [] else [LineText(lines[0])] + Texts(lines[1..])
  }

  // ------------------------------------------------------------- text and lines

  lemma LineTextHasNone(l: Line)
    requires WritableLine(l)
    ensures NoLineFeed(LineText(l))
  {
  }

  lemma {:induction false} StreamLines(lines: seq<Line>)
    requires AllWritable(lines)
    ensures Lines(StreamText(lines)) == Texts(lines) && Rest(StreamText(lines)) == ""
    decreases |lines|
  {
    hide LineText, WritableLine;
    if lines != [] {
      var text, tail := LineText(lines[0]), StreamText(lines[1..]);
      var whole := text + "\n" + tail;
      LineTextHasNone(lines[0]);
      StreamLines(lines[1..]);
      assert whole[|text|] == '\n' && forall i :: 0 <= i < |text| ==> whole[i] == text[i];
      assert LineEnd(whole) == |text|;
      assert whole[..|text|] == text && whole[|text| + 1..] == tail;
    } else {
      NothingYet();
    }
  }

  // ------------------------------------------------------------- one line

  /** The value is read back, without the space written before it. */
  lemma ValueReads(dispatch: Dispatch, p: Pending, f: Field)
    requires Writable(f)
    ensures HandleLine(dispatch, p, LineText(Name(f))) == (p.(name := Some(f.text)), true)
    ensures HandleLine(dispatch, p, LineText(Data(f)))
         == (p.(body := Some(if p.body.Some? then p.body.value + "\n" + f.text else f.text)), true)
  {
    FieldReads("event:", f);
    FieldReads("data:", f);
    var name, data := LineText(Name(f)), LineText(Data(f));
    assert name[0] == 'e' && data[0] == 'd';
    assert !("data:" <= name);
  }

  lemma FieldReads(prefix: string, f: Field)
    requires Writable(f) && forall i :: 0 <= i < |prefix| ==> prefix[i] != NUL
    ensures var line := prefix + Value(f);
      UpToNul(line) == line && prefix <= line && StripField(line, prefix) == f.text
  {
    var line := prefix + Value(f);
    assert forall i :: 0 <= i < |line| ==> line[i] != NUL;
    assert |UpToNul(line)| == |line|;
    assert line[|prefix|..] == Value(f);
    if f.spaced {
      assert Value(f)[1..] == f.text;
    }
  }

  lemma CommentReads(dispatch: Dispatch, p: Pending, text: string)
    ensures HandleLine(dispatch, p, LineText(Comment(text))) == (p, true)
  {
    var line := LineText(Comment(text));
    assert line[0] == ':';
    assert UpToNul(line)[0] == ':';
  }

  lemma EndReads(dispatch: Dispatch, p: Pending)
    requires p.name.Some? && p.body.Some?
    ensures HandleLine(dispatch, p, LineText(End))
         == (Pending(None, None, p.sent + [Dispatched(p.name.value, p.body.value)]),
             dispatch(p.name.value, p.body.value))
  {
  }

  // ------------------------------------------------------------- many lines

  lemma HandleStep(dispatch: Dispatch, p: Pending, line: string, rest: seq<string>)
    ensures
      var (next, ok) := HandleLine(dispatch, p, line);
      HandleLines(dispatch, p, [line] + rest) == if ok then HandleLines(dispatch, next, rest) else (next, false)
  {
    hide HandleLine;
    assert ([line] + rest)[1..] == rest;
  }

  /** Comments change nothing. */
  lemma {:induction false} CommentsIgnored(dispatch: Dispatch, p: Pending, lines: seq<Line>)
    ensures HandleLines(dispatch, p, Texts(lines)) == HandleLines(dispatch, p, Texts(Uncommented(lines)))
    decreases |lines|
  {
    hide HandleLine, HandleLines, LineText;
    if lines != [] {
      var l, rest := lines[0], lines[1..];
      HandleStep(dispatch, p, LineText(l), Texts(rest));
      if l.Comment? {
        CommentReads(dispatch, p, l.text);
        CommentsIgnored(dispatch, p, rest);
        assert Uncommented(lines) == Uncommented(rest);
      } else {
        HandleStep(dispatch, p, LineText(l), Texts(Uncommented(rest)));
        assert ([l] + Uncommented(rest))[1..] == Uncommented(rest);
        CommentsIgnored(dispatch, HandleLine(dispatch, p, LineText(l)).0, rest);
      }
    }
  }

  lemma {:induction false} TextsConcat(a: seq<Line>, b: seq<Line>)
    ensures Texts(a + b) == Texts(a) + Texts(b)
    decreases |a|
  {
    hide LineText;
    if a == [] {
      assert a + b == b;
    } else {
      assert (a + b)[1..] == a[1..] + b;
      TextsConcat(a[1..], b);
    }
  }

  function Grown(body: Option<string>, more: seq<Field>): Option<string> {
    if more == [] then body
    else if body.Some? then Some(body.value + "\n" + BodyText(more))
    else Some(BodyText(more))
  }

  /** The lines of a body join up. */
  lemma {:induction false} DataReads(dispatch: Dispatch, p: Pending, body: seq<Field>)
    requires forall i :: 0 <= i < |body| ==> Writable(body[i])
    ensures HandleLines(dispatch, p, Texts(DataLines(body))) == (p.(body := Grown(p.body, body)), true)
    decreases |body|
  {
    hide HandleLine, LineText, Writable;
    if body != [] {
      var f, rest := body[0], body[1..];
      HandleStep(dispatch, p, LineText(Data(f)), Texts(DataLines(rest)));
      assert DataLines(body)[1..] == DataLines(rest);
      ValueReads(dispatch, p, f);
      var next := p.(body := Some(if p.body.Some? then p.body.value + "\n" + f.text else f.text));
      DataReads(dispatch, next, rest);
      Joined(p.body, body);
    }
  }

  lemma Joined(before: Option<string>, body: seq<Field>)
    requires body != []
    ensures
      var f := body[0];
      Grown(Some(if before.Some? then before.value + "\n" + f.text else f.text), body[1..]) == Grown(before, body)
  {
    if |body| > 1 && before.Some? {
      var a, b, c := before.value, body[0].text, BodyText(body[1..]);
      assert (a + "\n" + b) + "\n" + c == a + "\n" + (b + "\n" + c);
    }
  }

  /** One event, written and read. */
  lemma EventReads(dispatch: Dispatch, sent: seq<Dispatched>, e: Event)
    requires WritableEvent(e)
    ensures
      var d := Dispatched(e.name.text, BodyText(e.body));
      HandleLines(dispatch, Pending(None, None, sent), Texts([Name(e.name)] + DataLines(e.body) + [End]))
      == (Pending(None, None, sent + [d]), dispatch(d.name, d.body))
  {
    hide HandleLine, LineText, Writable, HandleLines;
    var p := Pending(None, None, sent);
    var named := p.(name := Some(e.name.text));
    var full := named.(body := Some(BodyText(e.body)));
    TextsConcat([Name(e.name)] + DataLines(e.body), [End]);
    TextsConcat([Name(e.name)], DataLines(e.body));
    One(Name(e.name));
    One(End);
    assert Texts([Name(e.name)] + DataLines(e.body) + [End])
        == [LineText(Name(e.name))] + (Texts(DataLines(e.body)) + [LineText(End)]);
    HandleStep(dispatch, p, LineText(Name(e.name)), Texts(DataLines(e.body)) + [LineText(End)]);
    ValueReads(dispatch, p, e.name);
    HandleLinesConcat(dispatch, named, Texts(DataLines(e.body)), [LineText(End)]);
    DataReads(dispatch, named, e.body);
    EndReads(dispatch, full);
    HandleStep(dispatch, full, LineText(End), []);
    Nothing(dispatch, Pending(None, None, sent + [Dispatched(e.name.text, BodyText(e.body))]));
    assert [LineText(End)] + [] == [LineText(End)];
  }

  lemma One(l: Line)
    ensures Texts([l]) == [LineText(l)]
  {
    assert [l][1..] == [];
  }

  lemma Nothing(dispatch: Dispatch, p: Pending)
    ensures HandleLines(dispatch, p, []) == (p, true)
  {
  }

  lemma {:induction false} EventsRead(dispatch: Dispatch, sent: seq<Dispatched>, events: seq<Event>)
    requires AllEvents(events)
    ensures
      var handed := Handed(events);
      HandleLines(dispatch, Pending(None, None, sent), Texts(LinesOf(events)))
      == (Pending(None, None, sent + handed[..Taken(dispatch, handed)]), AllTaken(dispatch, handed))
    decreases |events|
  {
    hide HandleLine, HandleLines, LineText, Writable, DataLines, BodyText, Texts, Taken, AllTaken;
    var handed := Handed(events);
    if events == [] {
      Nothing(dispatch, Pending(None, None, sent));
      NoneTaken(dispatch);
      assert sent + [] == sent;
    } else {
      var e, rest := events[0], events[1..];
      var block := [Name(e.name)] + DataLines(e.body) + [End];
      var d := Dispatched(e.name.text, BodyText(e.body));
      TextsConcat(block, LinesOf(rest));
      HandleLinesConcat(dispatch, Pending(None, None, sent), Texts(block), Texts(LinesOf(rest)));
      EventReads(dispatch, sent, e);
      TakenStep(dispatch, sent, d, Handed(rest));
      if dispatch(d.name, d.body) {
        EventsRead(dispatch, sent + [d], rest);
      }
    }
  }

  lemma NoneTaken(dispatch: Dispatch)
    ensures Texts([]) == [] && Taken(dispatch, []) == 0 && AllTaken(dispatch, [])
  {
  }

  lemma TakenStep(dispatch: Dispatch, sent: seq<Dispatched>, d: Dispatched, rest: seq<Dispatched>)
    ensures
      var all, ok := [d] + rest, dispatch(d.name, d.body);
      && (AllTaken(dispatch, all) <==> ok && AllTaken(dispatch, rest))
      && sent + all[..Taken(dispatch, all)]
         == (if ok then sent + [d] + rest[..Taken(dispatch, rest)] else sent + [d])
  {
    var all := [d] + rest;
    assert all[0] == d && all[1..] == rest;
    assert forall i :: 1 <= i < |all| ==> all[i] == rest[i - 1];
    assert forall i :: 0 <= i < |rest| ==> rest[i] == all[i + 1];
    if dispatch(d.name, d.body) {
      var n := Taken(dispatch, rest);
      assert all[..n + 1] == [d] + rest[..n];
    } else {
      assert all[..1] == [d];
    }
  }

  /** A server's events come through: however values are spaced, wherever comments stand and
      however the stream is cut, the parser hands on the events written, in order, up to
      and with the first that is refused. */
  lemma WrittenIsHandedOn(dispatch: Dispatch, events: seq<Event>, lines: seq<Line>, chunks: seq<string>)
    requires AllEvents(events) && AllWritable(lines) && Uncommented(lines) == LinesOf(events)
    requires Join(chunks) == StreamText(lines)
    ensures
      var (s, ok) := ProcessAll(dispatch, INITIAL, chunks);
      var handed := Handed(events);
      && (ok <==> AllTaken(dispatch, handed))
      && s.pending == Pending(None, None, handed[..Taken(dispatch, handed)])
      && (ok ==> s.buffer == "")
  {
    hide HandleLines, ProcessAll, Rest, Lines, Join, StreamText, Texts, Taken, Handed, LinesOf, Uncommented, AllTaken;
    NothingYet();
    ChunksDoNotMatter(dispatch, INITIAL, chunks);
    assert "" + Join(chunks) == StreamText(lines);
    StreamLines(lines);
    CommentsIgnored(dispatch, FRESH, lines);
    EventsRead(dispatch, [], events);
    var handed := Handed(events);
    assert [] + handed[..Taken(dispatch, handed)] == handed[..Taken(dispatch, handed)];
  }
}
