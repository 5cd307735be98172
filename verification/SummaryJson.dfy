/** The summary as JSON: how it is kept while it is gathered, and what is sent of it. */
module SummaryJson {
  import opened Wrappers
  import opened JsonTree
  import opened JsonNumber
  import opened JsonText
  import opened MemoryStore
  import opened JsonObject
  import opened EventSpec
  import opened StoreData

  // ------------------------------------------------------------- while it is gathered

  /** A line: its count, and what its first evaluation served. */
  function CounterJson(c: Counter): (r: Json)
    ensures r.Object?
  {
    Object(Members([
      Slot("count", Some(Number(c.count as real))), Slot("value", c.value), Slot("version", c.version),
      Slot("variation", c.variation), Slot("unknown", Mark(c.unknown))]))
  }

  /** A flag: its fallback and its lines, by name while gathered and as a list when sent. */
  function FlagJson(fallback: Option<Json>, counters: Json): Json {
    Object(Members([Slot("default", fallback), Slot("counters", Some(counters))]))
  }

  lemma FlagMembers(fallback: Option<Json>, counters: Json)
    ensures FlagJson(fallback, counters) == Object(Entry(Slot("default", fallback)) + [Member("counters", counters)])
    ensures Lookup(FlagJson(fallback, counters), "counters") == Some(counters)
    ensures FirstIndex(FlagJson(fallback, counters).members, "counters") == |Entry(Slot("default", fallback))|
  {
    var slots := [Slot("default", fallback), Slot("counters", Some(counters))];
    assert slots[1..] == [Slot("counters", Some(counters))] && slots[1..][1..] == [];
    assert Members(slots[1..]) == [Member("counters", counters)];
    assert |"default"| != |"counters"|;
    var members := FlagJson(fallback, counters).members;
    assert members == Entry(slots[0]) + [Member("counters", counters)];
    assert members[|Entry(slots[0])|] == Member("counters", counters);
  }

  lemma CounterMembers(c: Counter)
    ensures CounterJson(c).members != [] && CounterJson(c).members[0] == Member("count", Number(c.count as real))
    ensures forall n: nat :: CounterJson(c.(count := n)).members
                          == [Member("count", Number(n as real))] + CounterJson(c).members[1..]
  {
    var rest := [Slot("value", c.value), Slot("version", c.version), Slot("variation", c.variation),
                 Slot("unknown", Mark(c.unknown))];
    forall n: nat
      ensures CounterJson(c.(count := n)).members == [Member("count", Number(n as real))] + Members(rest)
    {
      var slots := [Slot("count", Some(Number(n as real)))] + rest;
      assert slots[1..] == rest;
    }
    assert c.(count := c.count) == c;
  }

  /** Raises the count of a line in place. */
  function Raised(line: Json): Json {
    match Lookup(line, "count")
    case Some(Number(n)) =>
      var i := FirstIndex(line.members, "count");
      Object(line.members[i := Member("count", Number(n + 1.0))])
    case _ => line
  }

  lemma RaisedCounter(c: Counter)
    ensures Raised(CounterJson(c)) == CounterJson(c.(count := c.count + 1))
  {
    hide CounterJson;
    CounterMembers(c);
    var members := CounterJson(c).members;
    assert FirstIndex(members, "count") == 0;
    assert members[0 := Member("count", Number(c.count as real + 1.0))]
        == [Member("count", Number((c.count + 1) as real))] + members[1..];
  }

  /** The lines of a flag hold its counters. */
  ghost predicate Lines(t: seq<Member>, counters: map<string, Counter>) {
    && Distinct(t)
    && (forall i :: 0 <= i < |t| ==> t[i].key in counters && t[i].value == CounterJson(counters[t[i].key]))
    && (forall line :: line in counters ==> FirstIndex(t, line) < |t|)
  }

  ghost predicate Holds(v: Json, f: FlagSummary) {
    exists lines :: Lines(lines, f.counters) && v == FlagJson(f.fallback, Object(lines))
  }

  /** The JSON kept holds the summary. */
  ghost predicate Keeps(t: seq<Member>, s: Summary) {
    && Distinct(t)
    && (forall i :: 0 <= i < |t| ==> t[i].key in s && Holds(t[i].value, s[t[i].key]))
    && (forall flag :: flag in s ==> FirstIndex(t, flag) < |t|)
  }

  function AddLine(lines: seq<Member>, e: Seen): seq<Member> {
    var k := FirstIndex(lines, e.line);
    Placed(lines, e.line, if k < |lines| then Raised(lines[k].value) else CounterJson(e.first))
  }

  /** Setting the entry of a key, in its place or at the end. */
  function Placed(t: seq<Member>, key: string, v: Json): seq<Member> {
    var k := FirstIndex(t, key);
    if k < |t| then t[k := Member(key, v)] else t + [Member(key, v)]
  }

  lemma PlacedDistinct(t: seq<Member>, key: string, v: Json)
    requires Distinct(t)
    ensures Distinct(Placed(t, key, v))
    ensures forall i :: 0 <= i < |Placed(t, key, v)| ==>
      var m := Placed(t, key, v)[i];
      if m.key == key then m.value == v else i < |t| && m == t[i]
    ensures forall other :: FirstIndex(Placed(t, key, v), other) < |Placed(t, key, v)|
                       <==> other == key || FirstIndex(t, other) < |t|
  {
    var r, k := Placed(t, key, v), FirstIndex(t, key);
    forall other
      ensures FirstIndex(r, other) < |r| <==> other == key || FirstIndex(t, other) < |t|
    {
      var at := FirstIndex(t, other);
      assert at < |t| ==> r[at].key == other;
      assert other == key && k == |t| ==> r[|t|].key == other;
      assert FirstIndex(r, other) < |t| && FirstIndex(r, other) < |r| ==> t[FirstIndex(r, other)].key == other;
    }
  }

  lemma AddLineKeeps(lines: seq<Member>, counters: map<string, Counter>, e: Seen)
    requires Lines(lines, counters)
    ensures
      var counter :=
        if e.line in counters then counters[e.line].(count := counters[e.line].count + 1) else e.first;
      Lines(AddLine(lines, e), counters[e.line := counter])
  {
    hide CounterJson, Raised, FirstIndex, Placed;
    var k := FirstIndex(lines, e.line);
    if k < |lines| {
      RaisedCounter(counters[e.line]);
      PlacedDistinct(lines, e.line, Raised(lines[k].value));
    } else {
      PlacedDistinct(lines, e.line, CounterJson(e.first));
    }
  }

  /** The lines of a flag as kept. */
  function LinesOf(flag: Json): seq<Member> {
    match Lookup(flag, "counters")
    case Some(Object(lines)) => lines
    case _ => []
  }

  /** Replaces the lines of a flag in place. */
  function WithLines(flag: Json, lines: seq<Member>): Json {
    if flag.Object? then Object(Placed(flag.members, "counters", Object(lines))) else flag
  }

  /** `LDi_summarizeEvent` on the JSON kept. */
  function AddSeen(t: seq<Member>, e: Seen): seq<Member> {
    var k := FirstIndex(t, e.flag);
    var flag := if k < |t| then t[k].value else FlagJson(e.fallback, Object([]));
    Placed(t, e.flag, WithLines(flag, AddLine(LinesOf(flag), e)))
  }

  lemma WithLinesFlag(fallback: Option<Json>, old_: seq<Member>, lines: seq<Member>)
    ensures LinesOf(FlagJson(fallback, Object(old_))) == old_
    ensures WithLines(FlagJson(fallback, Object(old_)), lines) == FlagJson(fallback, Object(lines))
  {
    hide FlagJson, FirstIndex, Lookup;
    FlagMembers(fallback, Object(old_));
    FlagMembers(fallback, Object(lines));
    var front := Entry(Slot("default", fallback));
    assert (front + [Member("counters", Object(old_))])[|front| := Member("counters", Object(lines))]
        == front + [Member("counters", Object(lines))];
  }

  /** Counting one more evaluation in the JSON keeps it in step with the summary. */
  lemma AddSeenKeeps(t: seq<Member>, s: Summary, e: Seen)
    requires Keeps(t, s)
    ensures Keeps(AddSeen(t, e), Summarize(s, e))
  {
    hide Keeps, FlagJson, Lines, AddLine, LinesOf, WithLines, FirstIndex, Placed;
    var flag, f := FlagFor(t, s, e);
    var lines :| Lines(lines, f.counters) && flag == FlagJson(f.fallback, Object(lines));
    AddLineKeeps(lines, f.counters, e);
    WithLinesFlag(f.fallback, lines, AddLine(lines, e));
    var updated := WithLines(flag, AddLine(LinesOf(flag), e));
    assert Holds(updated, Summarize(s, e)[e.flag]);
    PlacedKeeps(t, s, e.flag, updated, Summarize(s, e)[e.flag]);
  }

  /** The flag an evaluation is counted under, as kept and as meant. */
  lemma FlagFor(t: seq<Member>, s: Summary, e: Seen) returns (flag: Json, f: FlagSummary)
    requires Keeps(t, s)
    ensures
      var k := FirstIndex(t, e.flag);
      flag == if k < |t| then t[k].value else FlagJson(e.fallback, Object([]))
    ensures f == if e.flag in s then s[e.flag] else FlagSummary(e.fallback, map[])
    ensures Holds(flag, f)
  {
    hide FlagJson, Lines, FirstIndex;
    var k := FirstIndex(t, e.flag);
    flag := if k < |t| then t[k].value else FlagJson(e.fallback, Object([]));
    f := if e.flag in s then s[e.flag] else FlagSummary(e.fallback, map[]);
    NoLines();
  }

  lemma PlacedKeeps(t: seq<Member>, s: Summary, key: string, v: Json, f: FlagSummary)
    requires Keeps(t, s) && Holds(v, f)
    ensures Keeps(Placed(t, key, v), s[key := f])
  {
    hide Holds, FirstIndex, Placed;
    PlacedDistinct(t, key, v);
  }

  lemma NoLines()
    ensures Lines([], map[])
  {
  }

  // ------------------------------------------------------------- what is sent

  /** A flag with its lines as a list. */
  function Flattened(flag: Json): Json {
    Put(flag, "counters", Array(MemberValues(LinesOf(flag))))
  }

  function Features(t: seq<Member>): (r: seq<Member>)
    ensures |r| == |t| && forall i :: 0 <= i < |r| ==> r[i] == Member(t[i].key, Flattened(t[i].value))
  {
    hide *;
    if t == [] then [] else [Member(t[0].key, Flattened(t[0].value))] + Features(t[1..])
  }

  /** `LDi_prepareSummaryEvent`. */
  function SummaryEvent(start: real, end: real, t: seq<Member>): Json {
    Object([Member("kind", Text("summary")), Member("startDate", Number(start)), Member("endDate", Number(end)),
            Member("features", Object(Features(t)))])
  }

  // ------------------------------------------------------------- what the receiver reads

  function CountIn(line: Json): nat {
    match Lookup(line, "count")
    case Some(Number(n)) => if n < 0.0 then 0 else n.Floor
    case _ => 0
  }

  /** The counts of a list for one variation and version, as their line is named. */
  function TallyIn(codec: NumberCodec, list: seq<Json>, line: string): nat {
    if list == [] then 0
    else (if LineOf(codec, list[0]) == line then CountIn(list[0]) else 0) + TallyIn(codec, list[1..], line)
  }

  /** The list sent for a flag. */
  function ListFor(event: Json, flag: string): seq<Json> {
    match Lookup(event, "features")
    case Some(features) =>
      (match Lookup(features, flag)
       case Some(f) => (match Lookup(f, "counters") case Some(Array(list)) => list case _ => [])
       case None => [])
    case None => []
  }

  function Tally(codec: NumberCodec, event: Json, flag: string, line: string): nat {
    TallyIn(codec, ListFor(event, flag), line)
  }

  /** The fields of a line say what its counter holds, and nothing else. */
  ghost predicate Spells(line: Json, c: Counter) {
    && Lookup(line, "count") == Some(Number(c.count as real)) && Lookup(line, "value") == c.value
    && Lookup(line, "version") == c.version && Lookup(line, "variation") == c.variation
    && Lookup(line, "unknown") == (if c.unknown then Some(Bool(true)) else None)
    && forall name :: name !in {"count", "value", "version", "variation", "unknown"} ==> Lookup(line, name) == None
  }

  function CounterSlots(c: Counter): seq<Slot> {
    [ Slot("count", Some(Number(c.count as real))), Slot("value", c.value), Slot("version", c.version),
      Slot("variation", c.variation), Slot("unknown", Mark(c.unknown)) ]
  }

  lemma CounterSlotsApart(c: Counter)
    ensures Apart(CounterSlots(c))
  {
    var slots := CounterSlots(c);
    assert slots[0].name[0] != slots[1].name[0] && slots[2].name[0] != slots[4].name[0];
    assert |slots[0].name| == |slots[1].name| == 5 && |slots[2].name| == |slots[4].name| == 7 && |slots[3].name| == 9;
  }

  lemma CounterSpells(c: Counter)
    ensures Spells(CounterJson(c), c)
  {
    hide Members, Lookup, Apart;
    var slots := CounterSlots(c);
    CounterSlotsApart(c);
    SlotReads(slots, 0);
    SlotReads(slots, 1);
    SlotReads(slots, 2);
    SlotReads(slots, 3);
    SlotReads(slots, 4);
    forall name | name !in {"count", "value", "version", "variation", "unknown"}
      ensures Lookup(CounterJson(c), name) == None
    {
      LackedReads(slots, name);
    }
  }

  /** A counter is filed under the name of its variation and version. */
  ghost predicate Named(codec: NumberCodec, c: Counter, line: string) {
    && c.variation != Some(Null) && c.version != Some(Null)
    && line == Print(codec, LineObject(c.variation, c.version), false, 0)
  }

  ghost predicate AllNamed(codec: NumberCodec, seen: seq<Seen>) {
    forall i :: 0 <= i < |seen| ==> Named(codec, seen[i].first, seen[i].line)
  }

  /** What was seen of an event is named after it. */
  lemma SeenIsNamed(codec: NumberCodec, event: Json, unknown: bool)
    requires HasKey(event)
    ensures Named(codec, SeenOf(codec, event, unknown).first, SeenOf(codec, event, unknown).line)
  {
    hide Print, LineObject, Lookup;
  }

  /** A line read back has its name and its count. */
  lemma CounterReads(codec: NumberCodec, c: Counter, line: string)
    requires Named(codec, c, line)
    ensures LineOf(codec, CounterJson(c)) == line && CountIn(CounterJson(c)) == c.count
  {
    hide Print, LineObject, Lookup, CounterJson;
    CounterSpells(c);
  }

  ghost predicate Part(codec: NumberCodec, t: seq<Member>, counters: map<string, Counter>) {
    && Distinct(t)
    && forall i :: 0 <= i < |t| ==>
         && t[i].key in counters && t[i].value == CounterJson(counters[t[i].key])
         && Named(codec, counters[t[i].key], t[i].key)
  }

  lemma {:induction false} TallyLines(codec: NumberCodec, t: seq<Member>, counters: map<string, Counter>, line: string)
    requires Part(codec, t, counters)
    ensures TallyIn(codec, MemberValues(t), line)
         == if FirstIndex(t, line) < |t| then counters[line].count else 0
    decreases |t|
  {
    hide CounterJson, Named, LineOf, CountIn;
    if t != [] {
      var values := MemberValues(t);
      assert values[0] == t[0].value && values[1..] == MemberValues(t[1..]);
      CounterReads(codec, counters[t[0].key], t[0].key);
      TallyLines(codec, t[1..], counters, line);
      assert t[0].key == line ==> forall i :: 0 <= i < |t[1..]| ==> t[1..][i].key != line;
    }
  }

  lemma FlattenedFlag(fallback: Option<Json>, lines: seq<Member>)
    ensures Flattened(FlagJson(fallback, Object(lines))) == FlagJson(fallback, Array(MemberValues(lines)))
  {
    hide FlagJson, FirstIndex, Lookup, Without, MemberValues, Entry;
    FlagMembers(fallback, Object(lines));
    FlagMembers(fallback, Array(MemberValues(lines)));
    WithoutLast(Entry(Slot("default", fallback)), Member("counters", Object(lines)));
  }

  lemma WithoutLast(front: seq<Member>, m: Member)
    requires FirstIndex(front + [m], m.key) == |front|
    ensures Without(front + [m], m.key) == front
  {
    hide FirstIndex;
    var all := front + [m];
    assert all[..|front|] == front && all[|front| + 1..] == [];
  }

  lemma FeaturesFind(t: seq<Member>, flag: string)
    ensures
      var i := FirstIndex(t, flag);
      Lookup(Object(Features(t)), flag) == if i < |t| then Some(Flattened(t[i].value)) else None
  {
    hide Flattened, Features, FirstIndex;
    var r, i := Features(t), FirstIndex(t, flag);
    var j := FirstIndex(r, flag);
    if i < |t| {
      assert r[i].key == flag;
    }
    if j < |r| {
      assert t[j].key == flag;
    }
    assert i == j;
  }

  lemma SummaryReads(start: real, end: real, t: seq<Member>)
    ensures Lookup(SummaryEvent(start, end, t), "features") == Some(Object(Features(t)))
    ensures Lookup(SummaryEvent(start, end, t), "kind") == Some(Text("summary"))
  {
    hide Features;
    var members := SummaryEvent(start, end, t).members;
    assert |members[0].key| == 4 && |members[1].key| == 9 && |members[2].key| == 7 && |members[3].key| == 8;
    assert forall k :: 0 <= k < 3 ==> members[k].key != "features";
    assert FirstIndex(members, "features") == 3;
  }

  /** The list sent for a flag has its lines, one each. */
  lemma SentList(start: real, end: real, t: seq<Member>, s: Summary, flag: string) returns (lines: seq<Member>)
    requires Keeps(t, s)
    ensures flag !in s ==> lines == []
    ensures flag in s ==> Lines(lines, s[flag].counters)
    ensures ListFor(SummaryEvent(start, end, t), flag) == MemberValues(lines)
  {
    hide FlagJson, Flattened, SummaryEvent, FirstIndex, Lines, Features;
    SummaryReads(start, end, t);
    FeaturesFind(t, flag);
    lines := [];
    if flag in s {
      var i := FirstIndex(t, flag);
      assert Holds(t[i].value, s[flag]);
      lines :| Lines(lines, s[flag].counters) && t[i].value == FlagJson(s[flag].fallback, Object(lines));
      FlattenedFlag(s[flag].fallback, lines);
      FlagMembers(s[flag].fallback, Array(MemberValues(lines)));
    }
  }

  lemma SummariesNamed(codec: NumberCodec, seen: seq<Seen>, flag: string, line: string)
    requires AllNamed(codec, seen)
    requires flag in Summaries(seen) && line in Summaries(seen)[flag].counters
    ensures Named(codec, Summaries(seen)[flag].counters[line], line)
  {
    hide Summaries, Print, LineObject;
    var i := SummaryDescribesFirst(seen, flag, line);
  }

  /** The summary sent counts, for every flag, variation and version, exactly the
      evaluations that were seen. */
  lemma SummaryTells(
      codec: NumberCodec, start: real, end: real, t: seq<Member>, seen: seq<Seen>, flag: string, line: string)
    requires Keeps(t, Summaries(seen)) && AllNamed(codec, seen) && AllCount(seen)
    ensures Tally(codec, SummaryEvent(start, end, t), flag, line) == Occurrences(seen, flag, line)
  {
    hide Keeps, Summaries, SummaryEvent, ListFor, Named, AllNamed, AllCount, Occurrences, CounterJson;
    hide TallyIn, FirstIndex;
    hide Distinct;
    var s := Summaries(seen);
    var lines := SentList(start, end, t, s, flag);
    SummaryCounts(seen, flag, line);
    if flag in s {
      forall i | 0 <= i < |lines|
        ensures Named(codec, s[flag].counters[lines[i].key], lines[i].key)
      {
        SummariesNamed(codec, seen, flag, lines[i].key);
      }
      TallyLines(codec, lines, s[flag].counters, line);
    } else {
      TallyNone(codec, line);
    }
  }

  lemma TallyNone(codec: NumberCodec, line: string)
    ensures TallyIn(codec, MemberValues([]), line) == 0
  {
  }

  /** Every line sent describes the first evaluation it counts, and counts them all. */
  lemma LineTells(codec: NumberCodec, start: real, end: real, t: seq<Member>, seen: seq<Seen>, flag: string, k: nat)
    returns (i: nat)
    requires Keeps(t, Summaries(seen)) && AllCount(seen)
    requires k < |ListFor(SummaryEvent(start, end, t), flag)|
    ensures i < |seen| && FirstOf(seen, i, flag, seen[i].line)
    ensures Spells(ListFor(SummaryEvent(start, end, t), flag)[k],
                   seen[i].first.(count := Occurrences(seen, flag, seen[i].line)))
  {
    hide Keeps, Summaries, SummaryEvent, ListFor, AllCount, Occurrences, CounterJson, Spells;
    var s := Summaries(seen);
    var lines := SentList(start, end, t, s, flag);
    var line := lines[k].key;
    i := SummaryDescribesFirst(seen, flag, line);
    SummaryCounts(seen, flag, line);
    CounterSpells(s[flag].counters[line]);
  }

  /** What is sent of a flag besides its lines. */
  function FeatureFor(event: Json, flag: string): Option<Json> {
    match Lookup(event, "features")
    case Some(features) => Lookup(features, flag)
    case None => None
  }

  /** A flag is sent exactly when it was evaluated, with the fallback of its first
      evaluation. */
  lemma DefaultTells(start: real, end: real, t: seq<Member>, seen: seq<Seen>, flag: string)
    requires Keeps(t, Summaries(seen))
    ensures
      var sent := FeatureFor(SummaryEvent(start, end, t), flag);
      && (sent.Some? <==> exists i: nat :: FirstOfFlag(seen, i, flag))
      && (forall i: nat :: FirstOfFlag(seen, i, flag) ==>
            sent.Some? && Lookup(sent.value, "default") == seen[i].fallback)
  {
    hide Summaries, SummaryEvent, Flattened, FlagJson, FirstIndex, Lines, Lookup, Features, FirstOfFlag;
    SummaryReads(start, end, t);
    FeaturesFind(t, flag);
    SummaryNotesFirst(seen, flag);
    var s := Summaries(seen);
    if flag in s {
      var i := FirstIndex(t, flag);
      assert Holds(t[i].value, s[flag]);
      var lines :| Lines(lines, s[flag].counters) && t[i].value == FlagJson(s[flag].fallback, Object(lines));
      FlattenedFlag(s[flag].fallback, lines);
      FlagDefault(s[flag].fallback, Array(MemberValues(lines)));
    }
  }

  lemma FlagDefault(fallback: Option<Json>, counters: Json)
    ensures Lookup(FlagJson(fallback, counters), "default") == fallback
  {
    hide Members, Lookup;
    var slots := [Slot("default", fallback), Slot("counters", Some(counters))];
    assert |slots[0].name| != |slots[1].name|;
    SlotReads(slots, 0);
  }
}
