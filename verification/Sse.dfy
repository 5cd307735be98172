/** The incremental server-sent-events parser. */
module Sse {
  import opened Wrappers
  import opened JsonTree

  datatype Dispatched = Dispatched(name: string, body: string)

  type Dispatch = (string, string) -> bool

  /** The event being assembled, and the events handed on so far. */
  datatype Pending = Pending(name: Option<string>, body: Option<string>, sent: seq<Dispatched>)

  const FRESH := Pending(None, None, [])

  // ------------------------------------------------------------- one line

  function StripField(line: string, prefix: string): string
    requires prefix <= line
  {
    var rest := line[|prefix|..];
    if rest != "" && rest[0] == ' ' then rest[1..] else rest
  }

  /** `LDi_processLine`: the handler sees the line as a C string. */
  function HandleLine(dispatch: Dispatch, p: Pending, raw: string): (Pending, bool) {
    var line := UpToNul(raw);
    if line == "" then
      if p.name.None? || p.body.None? then (p.(name := None, body := None), true)
      else
        (Pending(None, None, p.sent + [Dispatched(p.name.value, p.body.value)]), dispatch(p.name.value, p.body.value))
    else if line[0] == ':' then (p, true)
    else if "data:" <= line then
      var data := StripField(line, "data:");
      (p.(body := Some(if p.body.Some? then p.body.value + "\n" + data else data)), true)
    else if "event:" <= line then (p.(name := Some(StripField(line, "event:"))), true)
    else (p, true)
  }

  // ------------------------------------------------------------- a whole stream

  /** Index of the first line feed, or the length. */
  function LineEnd(text: string): (n: nat)
    ensures n <= |text|
    ensures n < |text| ==> text[n] == '\n'
    ensures forall i :: 0 <= i < n ==> text[i] != '\n'
  {
    if text == "" || text[0] == '\n' then 0 else 1 + LineEnd(text[1..])
  }

  /** The complete lines of a stream, and what follows the last line feed. */
  function Lines(text: string): seq<string>
    decreases |text|
  {
    var n := LineEnd(text);
    if n == |text| then [] else [text[..n]] + Lines(text[n + 1..])
  }

  function Rest(text: string): string
    decreases |text|
  {
    var n := LineEnd(text);
    if n == |text| then text else Rest(text[n + 1..])
  }

  /** Lines handled in order, up to and with the first whose dispatch fails. */
  function HandleLines(dispatch: Dispatch, p: Pending, lines: seq<string>): (Pending, bool)
    decreases |lines|
  {
    if lines == [] then (p, true)
    else
      var (next, ok) := HandleLine(dispatch, p, lines[0]);
      if ok then HandleLines(dispatch, next, lines[1..]) else (next, false)
  }

  lemma {:induction false} LinesConcat(a: string, b: string)
    ensures Lines(a + b) == Lines(a) + Lines(Rest(a) + b)
    ensures Rest(a + b) == Rest(Rest(a) + b)
    decreases |a|
  {
    hide LineEnd;
    var n := LineEnd(a);
    if n < |a| {
      LineEndConcat(a, b);
      assert (a + b)[..n] == a[..n] && (a + b)[n + 1..] == a[n + 1..] + b;
      LinesConcat(a[n + 1..], b);
    }
  }

  lemma LineEndConcat(a: string, b: string)
    requires LineEnd(a) < |a|
    ensures LineEnd(a + b) == LineEnd(a)
  {
    var n, m := LineEnd(a), LineEnd(a + b);
    assert (a + b)[n] == '\n';
    if m < n {
      assert (a + b)[m] == a[m];
    }
  }

  lemma {:induction false} HandleLinesConcat(dispatch: Dispatch, p: Pending, a: seq<string>, b: seq<string>)
    ensures
      var (q, ok) := HandleLines(dispatch, p, a);
      HandleLines(dispatch, p, a + b) == if ok then HandleLines(dispatch, q, b) else (q, false)
    decreases |a|
  {
    hide HandleLine;
    if a == [] {
      assert a + b == b;
    } else {
      var (next, ok) := HandleLine(dispatch, p, a[0]);
      assert (a + b)[0] == a[0] && (a + b)[1..] == a[1..] + b;
      HandleLinesConcat(dispatch, next, a[1..], b);
    }
  }

  // ------------------------------------------------------------- chunks

  /** The parser between two calls. */
  datatype State = State(pending: Pending, buffer: string)

  const INITIAL := State(FRESH, "")

  /** `LDSSEParserProcess` on one chunk. */
  function Process(dispatch: Dispatch, s: State, chunk: string): (State, bool) {
    if chunk == "" then (s, true)
    else
      var text := s.buffer + chunk;
      var (p, ok) := HandleLines(dispatch, s.pending, Lines(text));
      (State(p, if ok then Rest(text) else text), ok)
  }

  /** A stream cut into chunks; the network stops at the first failed call. */
  function ProcessAll(dispatch: Dispatch, s: State, chunks: seq<string>): (State, bool)
    decreases |chunks|
  {
    if chunks == [] then (s, true)
    else
      var (next, ok) := Process(dispatch, s, chunks[0]);
      if ok then ProcessAll(dispatch, next, chunks[1..]) else (next, false)
  }

  function Join(chunks: seq<string>): string {
    if chunks == [] then "" else chunks[0] + Join(chunks[1..])
  }

  lemma {:induction false} RestHasNoLine(text: string)
    ensures Lines(Rest(text)) == [] && Rest(Rest(text)) == Rest(text)
    decreases |text|
  {
    var n := LineEnd(text);
    if n < |text| {
      RestHasNoLine(text[n + 1..]);
    }
  }

  /** However a stream is cut, the events handed on, the event under way and the
      verdict are those of its lines handled one by one; as long as no dispatch
      fails, the bytes kept are those behind its last line feed. */
  lemma {:induction false} ChunksDoNotMatter(dispatch: Dispatch, s: State, chunks: seq<string>)
    requires Lines(s.buffer) == [] && Rest(s.buffer) == s.buffer
    ensures
      var whole := s.buffer + Join(chunks);
      var (end, ok) := ProcessAll(dispatch, s, chunks);
      && (end.pending, ok) == HandleLines(dispatch, s.pending, Lines(whole))
      && (ok ==> end.buffer == Rest(whole))
    decreases |chunks|
  {
    hide HandleLine;
    if chunks == [] {
      assert s.buffer + "" == s.buffer;
    } else {
      var text, tail := s.buffer + chunks[0], Join(chunks[1..]);
      assert s.buffer + Join(chunks) == text + tail;
      var (next, ok) := Process(dispatch, s, chunks[0]);
      if chunks[0] == "" {
        assert text == s.buffer;
        ChunksDoNotMatter(dispatch, s, chunks[1..]);
      } else {
        LinesConcat(text, tail);
        HandleLinesConcat(dispatch, s.pending, Lines(text), Lines(Rest(text) + tail));
        if ok {
          RestHasNoLine(text);
          ChunksDoNotMatter(dispatch, next, chunks[1..]);
        }
      }
    }
  }

  /** Two ways to cut the same stream cannot be told apart. */
  lemma ChunkIndependence(dispatch: Dispatch, one: seq<string>, other: seq<string>)
    requires Join(one) == Join(other)
    ensures
      var (s, ok) := ProcessAll(dispatch, INITIAL, one);
      var (t, okOther) := ProcessAll(dispatch, INITIAL, other);
      ok == okOther && s.pending == t.pending && (ok ==> s == t)
  {
    hide HandleLines, ProcessAll, Rest, Lines, Join;
    assert Lines("") == [] && Rest("") == "" by { NothingYet(); }
    ChunksDoNotMatter(dispatch, INITIAL, one);
    ChunksDoNotMatter(dispatch, INITIAL, other);
  }

  lemma NothingYet()
    ensures Lines("") == [] && Rest("") == ""
  {
  }

  // ------------------------------------------------------------- the parser itself

  class SseParser {
    const dispatch: Dispatch
    var buffer: string
    var bufferSize: nat
    var eventName: Option<string>
    var eventBody: Option<string>
    var sent: seq<Dispatched>

    /** `LDSSEParserInitialize`. */
    constructor (dispatch: Dispatch)
      ensures this.dispatch == dispatch && Valid() && Abstract() == INITIAL
    {
      this.dispatch := dispatch;
      buffer, bufferSize := "", 0;
      eventName, eventBody, sent := None, None, [];
    }

    predicate Valid()
      reads this
    {
      |buffer| == bufferSize
    }

    function Abstract(): State
      reads this
    {
      State(Current(), buffer)
    }

    function Current(): Pending
      reads this`eventName, this`eventBody, this`sent
    {
      Pending(eventName, eventBody, sent)
    }

    /** `LDSSEParserDestroy`: the byte count is not reset. */
    method Destroy()
      modifies this
      ensures buffer == "" && eventName == None && eventBody == None
      ensures bufferSize == old(bufferSize) && sent == old(sent)
    {
      buffer, eventName, eventBody := "", None, None;
    }

    method ProcessLine(raw: string) returns (status: bool)
      modifies this`eventName, this`eventBody, this`sent
      ensures (Current(), status) == HandleLine(dispatch, old(Current()), raw)
    {
      var line := UpToNul(raw);
      status := true;
      if line != "" && line[0] == ':' {
      } else if line == "" {
        if eventName.Some? && eventBody.Some? {
          sent := sent + [Dispatched(eventName.value, eventBody.value)];
          status := dispatch(eventName.value, eventBody.value);
        }
        eventName, eventBody := None, None;
      } else if "data:" <= line {
        line := StripField(line, "data:");
        if eventBody.Some? {
          line := eventBody.value + "\n" + line;
        }
        eventBody := Some(line);
      } else if "event:" <= line {
        eventName := Some(StripField(line, "event:"));
      }
    }

    /** `memchr` for a line feed. */
    method FindLineFeed(from: nat) returns (at: nat)
      requires from <= |buffer|
      ensures at == from + LineEnd(buffer[from..])
    {
      at := from;
      while at < |buffer| && buffer[at] != '\n'
        invariant from <= at <= |buffer|
        invariant from + LineEnd(buffer[from..]) == at + LineEnd(buffer[at..])
      {
        assert buffer[at..][1..] == buffer[at + 1..];
        at := at + 1;
      }
    }

    /** `LDSSEParserProcess`. `stale` stands for the unset bytes `realloc` returns
        in front of the chunk when the block is shorter than the byte count. */
    method ProcessChunk(chunk: string, stale: string) returns (ok: bool)
      requires |buffer| <= bufferSize && |stale| == bufferSize - |buffer|
      modifies this
      ensures (Current(), ok) == (Process(dispatch, State(old(Current()), old(buffer) + stale), chunk).0.pending,
                                  Process(dispatch, State(old(Current()), old(buffer) + stale), chunk).1)
      ensures chunk == "" ==> buffer == old(buffer) && bufferSize == old(bufferSize)
      ensures chunk != "" ==> Valid()
      ensures chunk != "" && ok ==> buffer == Rest(old(buffer) + stale + chunk)
      ensures !ok ==> bufferSize == old(bufferSize) + |chunk|
    {
      hide HandleLine, LineEnd, Lines, Rest, HandleLines, UpToNul;
      if chunk == "" { return true; }
      ghost var text := buffer + stale + chunk;
      buffer := buffer + stale + chunk;
      bufferSize := bufferSize + |chunk|;
      ghost var all := HandleLines(dispatch, Current(), Lines(text));
      var consumed := 0;
      assert text[0..] == text;
      var at := FindLineFeed(0);
      while at < bufferSize
        invariant 0 <= consumed <= at <= bufferSize == |buffer| == |text|
        invariant buffer[consumed..] == text[consumed..]
        invariant at == consumed + LineEnd(text[consumed..])
        invariant all == HandleLines(dispatch, Current(), Lines(text[consumed..]))
        invariant Rest(text) == Rest(text[consumed..])
        decreases bufferSize - consumed
      {
        FirstLine(dispatch, Current(), text, consumed, at);
        SameTails(buffer, text, consumed, at);
        var line := buffer[consumed..at];
        buffer := buffer[at := NUL];
        ok := ProcessLine(line);
        if !ok { return; }
        consumed := at + 1;
        at := FindLineFeed(consumed);
      }
      NoLineLeft(dispatch, Current(), text[consumed..]);
      if consumed > 0 {
        bufferSize := bufferSize - consumed;
        buffer := buffer[consumed..];
      }
      ok := true;
    }
  }

  /** Two texts alike from some place on are alike in a line there and behind it, whatever
      becomes of its line feed. */
  lemma SameTails(a: string, b: string, from: nat, at: nat)
    requires |a| == |b| && from <= at < |a| && a[from..] == b[from..]
    ensures a[from..at] == b[from..at] && a[at := NUL][at + 1..] == b[at + 1..]
  {
    assert a[from..at] == a[from..][..at - from] && b[from..at] == b[from..][..at - from];
    assert a[at + 1..] == a[from..][at + 1 - from..] && b[at + 1..] == b[from..][at + 1 - from..];
    assert a[at := NUL][at + 1..] == a[at + 1..];
  }

  /** What the first line of the bytes not yet consumed does. */
  lemma FirstLine(dispatch: Dispatch, p: Pending, text: string, consumed: nat, at: nat)
    requires consumed <= at < |text| && at == consumed + LineEnd(text[consumed..])
    ensures Rest(text[consumed..]) == Rest(text[at + 1..])
    ensures
      var (next, ok) := HandleLine(dispatch, p, text[consumed..at]);
      HandleLines(dispatch, p, Lines(text[consumed..])) ==
      if ok then HandleLines(dispatch, next, Lines(text[at + 1..])) else (next, false)
  {
    hide HandleLine, LineEnd;
    var rest := text[consumed..];
    assert rest[..at - consumed] == text[consumed..at] && rest[at - consumed + 1..] == text[at + 1..];
    assert Lines(rest) == [text[consumed..at]] + Lines(text[at + 1..]);
  }

  lemma NoLineLeft(dispatch: Dispatch, p: Pending, text: string)
    requires LineEnd(text) == |text|
    ensures Rest(text) == text && HandleLines(dispatch, p, Lines(text)) == (p, true)
  {
  }

  // ------------------------------------------------------------- reuse

  /** A parser fed a stream up to its end or its first failed dispatch, then destroyed. */
  method Session(dispatch: Dispatch, chunks: seq<string>) returns (parser: SseParser, ok: bool)
    ensures parser.dispatch == dispatch && parser.eventName == None && parser.eventBody == None && parser.buffer == ""
    ensures
      var (end, good) := ProcessAll(dispatch, INITIAL, chunks);
      ok == good && parser.sent == end.pending.sent && parser.bufferSize == |end.buffer|
    ensures parser.bufferSize == 0 <==> ok && Rest(Join(chunks)) == ""
  {
    hide Process, ProcessAll, Rest, Join;
    parser := new SseParser(dispatch);
    ok := true;
    var i := 0;
    assert chunks[0..] == chunks;
    while ok && i < |chunks|
      invariant 0 <= i <= |chunks| && parser.Valid() && parser.dispatch == dispatch && fresh(parser)
      invariant ok ==> ProcessAll(dispatch, INITIAL, chunks) == ProcessAll(dispatch, parser.Abstract(), chunks[i..])
      invariant !ok ==> AlikeEnds(ProcessAll(dispatch, INITIAL, chunks), parser.Abstract())
      decreases |chunks| - i, ok
    {
      ghost var s := parser.Abstract();
      OneChunk(dispatch, s, chunks, i);
      assert parser.buffer + "" == parser.buffer;
      ok := parser.ProcessChunk(chunks[i], "");
      if ok {
        i := i + 1;
      }
    }
    if ok {
      NoMoreChunks(dispatch, parser.Abstract(), chunks[i..]);
    }
    LeavesBytes(dispatch, chunks);
    parser.Destroy();
  }

  /** What one chunk of a run does. */
  lemma OneChunk(dispatch: Dispatch, s: State, chunks: seq<string>, i: nat)
    requires i < |chunks|
    ensures
      var (next, ok) := Process(dispatch, s, chunks[i]);
      && ProcessAll(dispatch, s, chunks[i..])
        == (if ok then ProcessAll(dispatch, next, chunks[i + 1..]) else (next, false))
      && (chunks[i] == "" ==> ok && next.buffer == s.buffer)
      && (chunks[i] != "" && ok ==> next.buffer == Rest(s.buffer + chunks[i]))
      && (!ok ==> |next.buffer| == |s.buffer| + |chunks[i]|)
  {
    hide HandleLines, Lines, Rest;
    assert chunks[i..][0] == chunks[i] && chunks[i..][1..] == chunks[i + 1..];
  }

  lemma NoMoreChunks(dispatch: Dispatch, s: State, chunks: seq<string>)
    requires chunks == []
    ensures ProcessAll(dispatch, s, chunks) == (s, true)
  {
  }

  /** A failed call leaves as many bytes, the line feeds it passed now NUL. */
  ghost predicate AlikeEnds(end: (State, bool), s: State) {
    !end.1 && end.0.pending == s.pending && |end.0.buffer| == |s.buffer|
  }

  /** What a run leaves: nothing exactly when every dispatch succeeded and the stream
      ended with a line feed. */
  lemma LeavesBytes(dispatch: Dispatch, chunks: seq<string>)
    ensures
      var (end, ok) := ProcessAll(dispatch, INITIAL, chunks);
      |end.buffer| == 0 <==> ok && Rest(Join(chunks)) == ""
  {
    hide HandleLines, Rest, Lines, Join, ProcessAll;
    NothingYet();
    ChunksDoNotMatter(dispatch, INITIAL, chunks);
    assert "" + Join(chunks) == Join(chunks);
    FailureKeepsBytes(dispatch, INITIAL, chunks);
  }

  lemma {:induction false} FailureKeepsBytes(dispatch: Dispatch, s: State, chunks: seq<string>)
    ensures !ProcessAll(dispatch, s, chunks).1 ==> ProcessAll(dispatch, s, chunks).0.buffer != ""
    decreases |chunks|
  {
    hide HandleLines, Rest, Lines;
    if chunks != [] {
      FailureKeepsBytes(dispatch, Process(dispatch, s, chunks[0]).0, chunks[1..]);
    }
  }

  /** Whether a destroyed parser that still counts `n` bytes hands on the same events as
      a new one, whatever stands in the bytes it never set. */
  ghost predicate ActsFresh(dispatch: Dispatch, n: nat) {
    forall stale: string, chunk: string :: |stale| == n ==>
      Process(dispatch, State(FRESH, stale), chunk).0.pending == Process(dispatch, INITIAL, chunk).0.pending
  }

  /** A parser destroyed after a run acts like a new one exactly when every dispatch of
      the run succeeded and no partial line was pending. */
  lemma ReuseIsFreshExactlyWhenDrained(dispatch: Dispatch, chunks: seq<string>)
    ensures
      var (end, ok) := ProcessAll(dispatch, INITIAL, chunks);
      ActsFresh(dispatch, |end.buffer|) <==> ok && Rest(Join(chunks)) == ""
  {
    hide ProcessAll, Rest, Join;
    LeavesBytes(dispatch, chunks);
    FreshExactlyWithoutBytes(dispatch, |ProcessAll(dispatch, INITIAL, chunks).0.buffer|);
  }

  lemma FreshExactlyWithoutBytes(dispatch: Dispatch, n: nat)
    ensures ActsFresh(dispatch, n) <==> n == 0
  {
    hide Process;
    if n == 0 {
      assert forall stale: string :: |stale| == 0 ==> stale == "";
    } else {
      var stale: string := seq(n, _ => 'x');
      ProbeTells(dispatch, stale);
    }
  }

  const PROBE := "event:a" + "\n" + ("data:b" + "\n" + ("" + "\n" + ""))

  /** An event a new parser hands on and one with stray bytes in front does not. */
  lemma ProbeTells(dispatch: Dispatch, stale: string)
    requires stale != "" && forall i :: 0 <= i < |stale| ==> stale[i] == 'x'
    ensures Process(dispatch, State(FRESH, stale), PROBE).0.pending.sent == []
    ensures Process(dispatch, INITIAL, PROBE).0.pending.sent == [Dispatched("a", "b")]
  {
    hide HandleLine, Lines, Rest;
    ProbeLines(stale);
    ProbeLines("");
    assert "" + "event:a" == "event:a" && "" + PROBE == PROBE;
    ProbeHandled(dispatch, stale);
    var named, full := Pending(Some("a"), None, []), Pending(Some("a"), Some("b"), []);
    var bare := Pending(None, Some("b"), []);
    ThreeLines(dispatch, FRESH, "event:a", "data:b", "");
    ThreeLines(dispatch, FRESH, stale + "event:a", "data:b", "");
  }

  /** A failed dispatch leaves the whole chunk counted, though no partial line is. */
  lemma FailedDispatchLeavesBytes(dispatch: Dispatch)
    requires !dispatch("a", "b")
    ensures
      var (end, ok) := Process(dispatch, INITIAL, PROBE);
      !ok && end.buffer == PROBE && Rest(PROBE) == ""
  {
    hide HandleLine, Lines, Rest;
    ProbeLines("");
    assert "" + "event:a" == "event:a" && "" + PROBE == PROBE;
    ProbeHandled(dispatch, "x");
    EmptyLineDispatches(dispatch, Pending(Some("a"), Some("b"), []));
    ThreeLines(dispatch, FRESH, "event:a", "data:b", "");
  }

  lemma EmptyLineDispatches(dispatch: Dispatch, p: Pending)
    requires p.name.Some? && p.body.Some?
    ensures HandleLine(dispatch, p, "").1 == dispatch(p.name.value, p.body.value)
  {
  }

  lemma ThreeLines(dispatch: Dispatch, p: Pending, a: string, b: string, c: string)
    ensures HandleLines(dispatch, p, [a, b, c]) ==
      var one := HandleLine(dispatch, p, a);
      if !one.1 then one
      else
        var two := HandleLine(dispatch, one.0, b);
        if !two.1 then two else HandleLine(dispatch, two.0, c)
  {
    hide HandleLine, HandleLines;
    var one := HandleLine(dispatch, p, a);
    var two := HandleLine(dispatch, one.0, b);
    OneLine(dispatch, p, [a, b, c]);
    OneLine(dispatch, one.0, [b, c]);
    OneLine(dispatch, two.0, [c]);
    assert [a, b, c][1..] == [b, c] && [b, c][1..] == [c] && [c][1..] == [];
    NoMoreLines(dispatch, HandleLine(dispatch, two.0, c).0);
  }

  lemma OneLine(dispatch: Dispatch, p: Pending, lines: seq<string>)
    requires lines != []
    ensures HandleLines(dispatch, p, lines) ==
      var one := HandleLine(dispatch, p, lines[0]);
      if !one.1 then one else HandleLines(dispatch, one.0, lines[1..])
  {
    hide HandleLine;
  }

  lemma NoMoreLines(dispatch: Dispatch, p: Pending)
    ensures HandleLines(dispatch, p, []) == (p, true)
  {
  }

  lemma ProbeHandled(dispatch: Dispatch, stale: string)
    requires stale != "" && forall i :: 0 <= i < |stale| ==> stale[i] == 'x'
    ensures HandleLine(dispatch, FRESH, stale + "event:a") == (FRESH, true)
    ensures HandleLine(dispatch, FRESH, "event:a") == (Pending(Some("a"), None, []), true)
    ensures HandleLine(dispatch, Pending(Some("a"), None, []), "data:b") == (Pending(Some("a"), Some("b"), []), true)
    ensures HandleLine(dispatch, FRESH, "data:b") == (Pending(None, Some("b"), []), true)
    ensures HandleLine(dispatch, Pending(Some("a"), Some("b"), []), "").0 == Pending(None, None, [Dispatched("a", "b")])
    ensures HandleLine(dispatch, Pending(None, Some("b"), []), "").0 == FRESH
  {
    hide UpToNul;
    var garbled := stale + "event:a";
    assert garbled[0] == 'x' && "data:"[0] == 'd' && "event:"[0] == 'e';
    PlainLine(garbled);
    PlainLine("event:a");
    PlainLine("data:b");
    PlainLine("");
    assert "event:a"[..6] == "event:" && "data:b"[..5] == "data:";
    assert "event:a"[0] != "data:"[0] && "event:a"[6..] == "a" && "data:b"[5..] == "b";
  }

  lemma PlainLine(line: string)
    requires forall i :: 0 <= i < |line| ==> line[i] != NUL && line[i] < 256 as char
    ensures UpToNul(line) == line
  {
    UpToNulOfCString(line);
  }

  lemma ProbeLines(stale: string)
    requires forall i :: 0 <= i < |stale| ==> stale[i] != '\n'
    ensures Lines(stale + PROBE) == [stale + "event:a", "data:b", ""] && Rest(stale + PROBE) == ""
  {
    hide Lines, Rest;
    LinesOfThree(stale + "event:a", "data:b", "");
    Prefixed(stale, "event:a", "data:b" + "\n" + ("" + "\n" + ""));
  }

  lemma Prefixed(stale: string, line: string, rest: string)
    ensures stale + (line + "\n" + rest) == stale + line + "\n" + rest
  {
  }

  lemma LinesOfThree(a: string, b: string, c: string)
    requires '\n' !in a && '\n' !in b && '\n' !in c
    ensures Lines(a + "\n" + (b + "\n" + (c + "\n" + ""))) == [a, b, c]
    ensures Rest(a + "\n" + (b + "\n" + (c + "\n" + ""))) == ""
  {
    hide Lines, Rest;
    LineThen(a, b + "\n" + (c + "\n" + ""));
    LineThen(b, c + "\n" + "");
    LineThen(c, "");
    NothingYet();
  }

  lemma LineThen(line: string, rest: string)
    requires forall i :: 0 <= i < |line| ==> line[i] != '\n'
    ensures Lines(line + "\n" + rest) == [line] + Lines(rest) && Rest(line + "\n" + rest) == Rest(rest)
  {
    var text := line + "\n" + rest;
    var n := LineEnd(text);
    assert text[|line|] == '\n';
    assert forall i :: 0 <= i < |line| ==> text[i] == line[i];
    assert text[..n] == line && text[n + 1..] == rest;
  }
}
