/** What a summary of evaluations counts. */
module EventSpec {
  import opened Wrappers
  import opened JsonTree
  import opened JsonNumber
  import opened JsonText
  import opened StoreData

  /** One line of a summary: how often, and what the first such evaluation was. */
  datatype Counter = Counter(
    count: nat, value: Option<Json>, version: Option<Json>, variation: Option<Json>, unknown: bool)

  datatype FlagSummary = FlagSummary(fallback: Option<Json>, counters: map<string, Counter>)

  type Summary = map<string, FlagSummary>

  /** What the summary reads of an evaluation: its flag, its line, the line it would
      open and the fallback it would note. */
  datatype Seen = Seen(flag: string, line: string, fallback: Option<Json>, first: Counter)

  /** A field that is there and not null. */
  function Field(event: Json, name: string): Option<Json> {
    match Lookup(event, name)
    case Some(v) => if v == Null then None else Some(v)
    case None => None
  }

  lemma FieldIs(event: Json, name: string, v: Json)
    ensures Field(event, name) == Some(v) <==> Lookup(event, name) == Some(v) && v != Null
  {
  }

  /** The object a line is named after. */
  function LineObject(variation: Option<Json>, version: Option<Json>): Json {
    Object(
      (if variation.Some? then [Member("variation", variation.value)] else []) +
      (if version.Some? then [Member("version", version.value)] else []))
  }

  /** `LDi_makeSummaryKey`. */
  function LineOf(codec: NumberCodec, event: Json): string {
    Print(codec, LineObject(Field(event, "variation"), Field(event, "version")), false, 0)
  }

  /** Variation and version, where given, are numbers a double can hold. */
  predicate Countable(codec: NumberCodec, v: Option<Json>) {
    v.Some? ==> v.value.Number? && codec.isDouble(v.value.n)
  }

  predicate IsFeatureEvent(codec: NumberCodec, event: Json) {
    HasKey(event) && Countable(codec, Field(event, "variation")) && Countable(codec, Field(event, "version"))
  }

  function SeenOf(codec: NumberCodec, event: Json, unknown: bool): (r: Seen)
    requires HasKey(event)
    ensures Counts(r)
  {
    Seen(DataKey(event), LineOf(codec, event), Field(event, "default"),
         Counter(1, Field(event, "value"), Field(event, "version"), Field(event, "variation"), unknown))
  }

  /** Evaluations share a line exactly when variation and version agree. */
  lemma LinesDiffer(codec: NumberCodec, a: Json, b: Json)
    requires IsFeatureEvent(codec, a) && IsFeatureEvent(codec, b)
    ensures LineOf(codec, a) == LineOf(codec, b)
       <==> Field(a, "variation") == Field(b, "variation") && Field(a, "version") == Field(b, "version")
  {
    hide Print, Field, HasKey, LineObject;
    LineNamesDiffer(codec, Field(a, "variation"), Field(a, "version"), Field(b, "variation"), Field(b, "version"));
  }

  lemma LineNamesDiffer(codec: NumberCodec, a: Option<Json>, b: Option<Json>, c: Option<Json>, d: Option<Json>)
    requires Countable(codec, a) && Countable(codec, b) && Countable(codec, c) && Countable(codec, d)
    ensures Print(codec, LineObject(a, b), false, 0) == Print(codec, LineObject(c, d), false, 0)
       <==> a == c && b == d
  {
    hide Print, LineObject;
    LineObjectPrints(codec, a, b);
    LineObjectPrints(codec, c, d);
    LineObjectTells(a, b, c, d);
    if Print(codec, LineObject(a, b), false, 0) == Print(codec, LineObject(c, d), false, 0) {
      PrintInjective(codec, LineObject(a, b), LineObject(c, d), false);
    }
  }

  lemma LineObjectPrints(codec: NumberCodec, variation: Option<Json>, version: Option<Json>)
    requires Countable(codec, variation) && Countable(codec, version)
    ensures Printable(codec, LineObject(variation, version))
  {
    hide IsCString;
    WordsAreCStrings();
    var members := LineObject(variation, version).members;
    assert forall i :: 0 <= i < |members| ==> members[i].value.Number? && codec.isDouble(members[i].value.n);
    assert forall i :: 0 <= i < |members| ==> IsCString(members[i].key);
  }

  lemma WordsAreCStrings()
    ensures IsCString("variation") && IsCString("version")
  {
  }

  lemma LineObjectTells(a: Option<Json>, b: Option<Json>, c: Option<Json>, d: Option<Json>)
    ensures LineObject(a, b) == LineObject(c, d) <==> a == c && b == d
  {
    var x, y := LineObject(a, b).members, LineObject(c, d).members;
    assert "variation" != "version" by { assert |"variation"| != |"version"|; }
    if x == y {
      assert |x| == |y|;
      assert a.Some? ==> x[0] == Member("variation", a.value);
      assert c.Some? ==> y[0] == Member("variation", c.value);
      assert b.Some? ==> x[|x| - 1] == Member("version", b.value);
      assert d.Some? ==> y[|y| - 1] == Member("version", d.value);
    }
  }

  /** `LDi_summarizeEvent`. */
  function Summarize(s: Summary, e: Seen): Summary {
    var flag := if e.flag in s then s[e.flag] else FlagSummary(e.fallback, map[]);
    var counter :=
      if e.line in flag.counters then flag.counters[e.line].(count := flag.counters[e.line].count + 1)
      else e.first;
    s[e.flag := flag.(counters := flag.counters[e.line := counter])]
  }

  function Summaries(seen: seq<Seen>): Summary {
    if seen == [] then map[] else Summarize(Summaries(seen[..|seen| - 1]), seen[|seen| - 1])
  }

  /** The count of one line of one flag. */
  function CountOf(s: Summary, flag: string, line: string): nat {
    if flag in s && line in s[flag].counters then s[flag].counters[line].count else 0
  }

  /** How many evaluations belong to one line of one flag. */
  function Occurrences(seen: seq<Seen>, flag: string, line: string): nat {
    if seen == [] then 0
    else
      var n := |seen| - 1;
      Occurrences(seen[..n], flag, line) + (if seen[n].flag == flag && seen[n].line == line then 1 else 0)
  }

  predicate Counts(e: Seen) { e.first.count == 1 }

  predicate AllCount(seen: seq<Seen>) {
    forall i :: 0 <= i < |seen| ==> Counts(seen[i])
  }

  /** Each line counts its evaluations. */
  lemma {:induction false} SummaryCounts(seen: seq<Seen>, flag: string, line: string)
    requires AllCount(seen)
    ensures CountOf(Summaries(seen), flag, line) == Occurrences(seen, flag, line)
    ensures Summaries(seen) == map[] <==> seen == []
    decreases |seen|
  {
    if seen != [] {
      var n := |seen| - 1;
      SummaryCounts(seen[..n], flag, line);
      SummarizeCounts(Summaries(seen[..n]), seen[n], flag, line);
      assert seen[n].flag in Summaries(seen);
    }
  }

  lemma SummarizeCounts(s: Summary, e: Seen, flag: string, line: string)
    requires Counts(e)
    ensures CountOf(Summarize(s, e), flag, line)
      == CountOf(s, flag, line) + (if e.flag == flag && e.line == line then 1 else 0)
  {
  }

  /** The first evaluation of a line, which the line describes. */
  ghost predicate FirstOf(seen: seq<Seen>, i: nat, flag: string, line: string) {
    && i < |seen| && seen[i].flag == flag && seen[i].line == line
    && forall j :: 0 <= j < i ==> !(seen[j].flag == flag && seen[j].line == line)
  }

  lemma {:induction false} SummaryDescribesFirst(seen: seq<Seen>, flag: string, line: string) returns (i: nat)
    requires flag in Summaries(seen) && line in Summaries(seen)[flag].counters
    ensures FirstOf(seen, i, flag, line)
    ensures Summaries(seen)[flag].counters[line] == seen[i].first.(count := Summaries(seen)[flag].counters[line].count)
    decreases |seen|
  {
    var n := |seen| - 1;
    var before := Summaries(seen[..n]);
    if flag in before && line in before[flag].counters {
      i := SummaryDescribesFirst(seen[..n], flag, line);
    } else {
      NotYet(seen[..n], flag, line);
      i := n;
    }
  }

  ghost predicate FirstOfFlag(seen: seq<Seen>, i: nat, flag: string) {
    i < |seen| && seen[i].flag == flag && forall j :: 0 <= j < i ==> seen[j].flag != flag
  }

  /** A flag notes the fallback of its first evaluation, and only flags evaluated are there. */
  lemma {:induction false} SummaryNotesFirst(seen: seq<Seen>, flag: string)
    ensures flag in Summaries(seen) <==> exists i: nat :: FirstOfFlag(seen, i, flag)
    ensures forall i: nat :: FirstOfFlag(seen, i, flag) ==>
      flag in Summaries(seen) && Summaries(seen)[flag].fallback == seen[i].fallback
    decreases |seen|
  {
    if seen != [] {
      var n := |seen| - 1;
      var front := seen[..n];
      SummaryNotesFirst(front, flag);
      forall i: nat
        ensures i < n ==> (FirstOfFlag(front, i, flag) <==> FirstOfFlag(seen, i, flag))
      {
        assert i < n ==> front[i] == seen[i] && forall j :: 0 <= j < i ==> front[j] == seen[j];
      }
      if flag in Summaries(front) {
        var i: nat :| FirstOfFlag(front, i, flag);
        assert FirstOfFlag(seen, i, flag);
        assert forall k: nat :: FirstOfFlag(seen, k, flag) ==> k == i;
      } else {
        NoneBefore(front, flag);
        assert seen[n].flag == flag ==> FirstOfFlag(seen, n, flag);
        assert forall k: nat :: FirstOfFlag(seen, k, flag) ==> k == n;
      }
    }
  }

  lemma {:induction false} NoneBefore(seen: seq<Seen>, flag: string)
    requires flag !in Summaries(seen)
    ensures forall j :: 0 <= j < |seen| ==> seen[j].flag != flag
    decreases |seen|
  {
    if seen != [] {
      NoneBefore(seen[..|seen| - 1], flag);
    }
  }

  lemma {:induction false} NotYet(seen: seq<Seen>, flag: string, line: string)
    requires !(flag in Summaries(seen) && line in Summaries(seen)[flag].counters)
    ensures forall j :: 0 <= j < |seen| ==> !(seen[j].flag == flag && seen[j].line == line)
    decreases |seen|
  {
    if seen != [] {
      NotYet(seen[..|seen| - 1], flag, line);
    }
  }

  lemma {:induction false} OccurrencesAdd(a: seq<Seen>, b: seq<Seen>, flag: string, line: string)
    ensures Occurrences(a + b, flag, line) == Occurrences(a, flag, line) + Occurrences(b, flag, line)
    decreases |b|
  {
    if b == [] {
      assert a + b == a;
    } else {
      var n := |b| - 1;
      OccurrencesAdd(a, b[..n], flag, line);
      assert (a + b)[..|a + b| - 1] == a + b[..n];
    }
  }
}
