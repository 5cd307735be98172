/** The event processor: a bounded queue of full events, a summary of everything
    evaluated, and the users already announced. */
module EventProcessor {
  import opened Wrappers
  import opened JsonTree
  import opened JsonNumber
  import opened StoreData
  import opened JsonObject
  import opened EventSpec
  import opened FeatureEvents
  import opened SummaryJson
  import opened LruSpec

  datatype Config = Config(
    eventsCapacity: nat, inlineUsers: bool, userKeysCapacity: nat, userKeysFlushInterval: real, codec: NumberCodec)

  /** Events queued as far as there is room. */
  function Queued(capacity: nat, events: seq<Json>, more: seq<Json>): (r: seq<Json>)
    ensures events <= r && |r| <= |events| + |more|
    ensures |events| <= capacity ==> |r| <= capacity
    ensures |events| + |more| <= capacity ==> r == events + more
    ensures |events| <= capacity < |events| + |more| ==> |r| == capacity && r == events + more[..capacity - |events|]
  {
    if |events| >= capacity then events
    else if |events| + |more| <= capacity then events + more
    else events + more[..capacity - |events|]
  }

  lemma QueuedOne(capacity: nat, events: seq<Json>, more: seq<Json>, event: Json)
    requires |events| <= capacity
    ensures Queued(capacity, Queued(capacity, events, more), [event]) == Queued(capacity, events, more + [event])
  {
    var all := more + [event];
    if capacity - |events| <= |more| {
      assert all[..capacity - |events|] == more[..capacity - |events|];
    } else {
      assert events + more + [event] == events + all;
    }
  }

  /** An evaluation whose event was made, and when. */
  datatype Made = Made(e: Evaluation, created: real)

  /** The events are those made for these evaluations. */
  ghost predicate EventsOf(inline: bool, events: seq<Json>, made: seq<Made>) {
    && |events| == |made|
    && forall i :: 0 <= i < |made| ==> FeatureEvent(inline, made[i].e, made[i].created) == Some(events[i])
  }

  /** What the summary keeps of them. */
  function AllShown(codec: NumberCodec, made: seq<Made>): (r: seq<Seen>)
    ensures |r| == |made|
    ensures forall i :: 0 <= i < |r| ==> r[i] == Shown(codec, made[i].e, false)
  {
    seq(|made|, i requires 0 <= i < |made| => Shown(codec, made[i].e, false))
  }

  lemma NoneShown(codec: NumberCodec, made: seq<Made>)
    ensures AllShown(codec, made[..0]) == []
  {
  }

  lemma OneMoreShown(codec: NumberCodec, made: seq<Made>, i: nat)
    requires i < |made|
    ensures AllShown(codec, made[..i + 1]) == AllShown(codec, made[..i]) + [Shown(codec, made[i].e, false)]
  {
    hide Shown;
  }

  predicate IsSummary(event: Json) { Lookup(event, "kind") == Some(Text("summary")) }

  ghost predicate NoSummaries(events: seq<Json>) {
    forall i :: 0 <= i < |events| ==> !IsSummary(events[i])
  }

  /** What `LDi_newFeatureEvent` makes of the result of a prerequisite or a flag. */
  ghost predicate IsFeature(event: Json) {
    Plain(event) && HasKey(event) && Lookup(event, "kind") == Some(Text("feature"))
  }

  ghost predicate AllFeatures(events: seq<Json>) {
    forall i :: 0 <= i < |events| ==> IsFeature(events[i])
  }

  /** Fewer than `capacity` other keys were inserted since the key last was. */
  ghost predicate Recently(capacity: nat, history: seq<string>, key: string) {
    exists j: nat :: LastAt(history, key, j) && |Elements(history[j + 1..])| < capacity
  }

  /** The event that announces a user. */
  function IndexEvent(user: Json, now: real): Json {
    Object([Member("creationDate", Number(now)), Member("kind", Text("index")), Member("user", user)])
  }

  /** What is told of a result: the value served, or the fallback where that is null. */
  function Told(e: Evaluation): Evaluation {
    e.(value := if e.value.Some? && e.value.value != Null then e.value else e.fallback, prereqOf := None)
  }

  function FullOfAll(events: seq<Json>, detailed: bool, user: Json, now: real, serverTime: real): seq<Json> {
    if events == [] then []
    else
      var n := |events| - 1;
      FullOfAll(events[..n], detailed, user, now, serverTime) + Full(events[n], detailed, user, now, serverTime)
  }

  /** The JSON kept is the summary of what was seen. */
  ghost predicate Gathered(codec: NumberCodec, counters: seq<Member>, seen: seq<Seen>) {
    AllCount(seen) && AllNamed(codec, seen) && Keeps(counters, Summaries(seen))
  }

  class Processor {
    const config: Config
    var events: seq<Json>
    /** The members of the summary object. */
    var counters: seq<Member>
    var summaryStart: real
    /** Keys of users announced, newest first. */
    var userKeys: seq<string>
    var lastUserKeyFlush: real
    var lastServerTime: real
    /** What was summarised since the last drain, and users inserted since the last flush. */
    ghost var seen: seq<Seen>
    ghost var users: seq<string>

    constructor (config: Config, now: real)
      ensures Valid() && seen == [] && events == [] && users == [] && this.config == config
    {
      this.config, events, counters, summaryStart := config, [], [], 0.0;
      userKeys, lastUserKeyFlush, lastServerTime, seen, users := [], now, 0.0, [], [];
    }

    ghost predicate Valid()
      reads this
    {
      && |events| <= config.eventsCapacity && NoSummaries(events)
      && Gathered(config.codec, counters, seen)
      && userKeys == Held(config.userKeysCapacity, users)
    }

    /** `LDi_addEvent`: an event that finds the queue full is dropped. */
    method AddEvent(event: Json)
      requires Valid() && !IsSummary(event)
      modifies this`events
      ensures Valid() && events == Queued(config.eventsCapacity, old(events), [event])
    {
      hide Gathered, Held, IsSummary;
      if |events| < config.eventsCapacity {
        events := events + [event];
      }
    }

    /** `LDi_maybeMakeIndexEvent`: a user is announced unless carried by every event or
        among the keys most recently inserted since the last flush of keys. */
    method MaybeMakeIndexEvent(user: string, now: real) returns (announce: bool)
      requires Valid()
      modifies this`userKeys, this`lastUserKeyFlush, this`users
      ensures Valid()
      ensures config.inlineUsers ==> !announce && users == old(users)
      ensures !config.inlineUsers ==>
        var since := if now - old(lastUserKeyFlush) > config.userKeysFlushInterval then [] else old(users);
        && users == since + [user]
        && (announce <==> !Recently(config.userKeysCapacity, since, user))
    {
      hide Gathered;
      if config.inlineUsers {
        return false;
      }
      if now - lastUserKeyFlush > config.userKeysFlushInterval {
        userKeys, users, lastUserKeyFlush := [], [], now;
      }
      ExistedExactlyWhenRecent(config.userKeysCapacity, users, user);
      var (keys, status) := Insert(config.userKeysCapacity, userKeys, user);
      assert (users + [user])[..|users|] == users;
      userKeys, users := keys, users + [user];
      announce := status == New;
    }

    /** `LDEventProcessor_SetLastServerTime`. */
    method SetServerTime(seconds: nat)
      requires Valid()
      modifies this`lastServerTime
      ensures Valid() && lastServerTime == 1000.0 * seconds as real
    {
      lastServerTime := 1000.0 * seconds as real;
    }

    /** `LDi_summarizeEvent`. */
    method SummarizeEvent(event: Json, unknown: bool, now: real)
      requires Valid() && HasKey(event)
      modifies this`counters, this`summaryStart, this`seen
      ensures Valid() && seen == old(seen) + [SeenOf(config.codec, event, unknown)]
      ensures summaryStart == if old(summaryStart) == 0.0 then now else old(summaryStart)
    {
      hide HasKey, SeenOf, Gathered, Held, Named, NoSummaries;
      if summaryStart == 0.0 {
        summaryStart := now;
      }
      SeenIsNamed(config.codec, event, unknown);
      Count(SeenOf(config.codec, event, unknown));
    }

    /** Raises the counter of a line, opening flag and line where they are new. */
    method Count(e: Seen)
      requires Valid() && Counts(e) && Named(config.codec, e.first, e.line)
      modifies this`counters, this`seen
      ensures Valid() && seen == old(seen) + [e] && counters == AddSeen(old(counters), e)
    {
      hide Gathered, Held, Named, NoSummaries, FlagJson, CounterJson, LinesOf, WithLines, Placed, Raised, FirstIndex;
      GatheredGrows(config.codec, counters, seen, e);
      var k := FirstIndex(counters, e.flag);
      var flag := FlagJson(e.fallback, Object([]));
      if k < |counters| {
        flag := counters[k].value;
      }
      var lines := LinesOf(flag);
      var i := FirstIndex(lines, e.line);
      var line := CounterJson(e.first);
      if i < |lines| {
        line := Raised(lines[i].value);
      }
      lines := Placed(lines, e.line, line);
      counters := Placed(counters, e.flag, WithLines(flag, lines));
      seen := seen + [e];
    }

    /** `LDi_possiblyQueueEvent`: marks are taken off one by one and decide what is queued. */
    method PossiblyQueue(event: Json, detailed: bool, user: Json, now: real)
      requires Valid() && IsFeature(event)
      modifies this`events
      ensures Valid()
      ensures events
           == Queued(config.eventsCapacity, old(events), Full(event, detailed, user, now, lastServerTime))
    {
      hide Gathered, Held, NoSummaries, Queued, Lookup, Plain, Debug, Drop, Field, IsSummary, HasKey;
      MarksStay(event, detailed);
      FieldTrue(event, "trackEvents");
      var track := false;
      var reason := Lookup(event, "reason");
      if reason.Some? {
        track := SaysTrue(reason.value, "inExperiment");
      }
      var rest := event;
      var always := Field(event, "shouldAlwaysTrackDetails");
      if always.Some? {
        if always.value != Bool(true) {
          rest := Drop(rest, "reason");
        }
        rest := Drop(rest, "shouldAlwaysTrackDetails");
      } else if !detailed {
        rest := Drop(rest, "reason");
      }
      assert rest == Unmarked(Kept(event, detailed), "shouldAlwaysTrackDetails");
      var mark := Field(rest, "trackEvents");
      if mark.Some? {
        if !track {
          track := mark.value == Bool(true);
        }
        rest := Drop(rest, "trackEvents");
      }
      assert track == Tracked(event);
      var until := Field(rest, "debugEventsUntilDate");
      var debug := false;
      if until.Some? {
        rest := Drop(rest, "debugEventsUntilDate");
        debug := until.value.Number? && now < until.value.n && lastServerTime < until.value.n;
      }
      assert rest == Trimmed(event, detailed) && debug == DebugDue(event, now, lastServerTime);
      QueueDecided(event, rest, detailed, user, track, debug, now);
    }

    /** Queues the debug event and the full one, as decided. */
    method QueueDecided(
        ghost event: Json, rest: Json, ghost detailed: bool, user: Json, track: bool, debug: bool, ghost now: real)
      requires Valid() && IsFeature(event) && rest == Trimmed(event, detailed)
      requires track == Tracked(event) && debug == DebugDue(event, now, lastServerTime)
      modifies this`events
      ensures Valid()
      ensures events
           == Queued(config.eventsCapacity, old(events), Full(event, detailed, user, now, lastServerTime))
    {
      hide Gathered, Held, NoSummaries, Queued, Tracked, DebugDue, Trimmed, Debug, IsFeature, IsSummary;
      SentAreNoSummaries(event, detailed, user);
      QueuedNone(config.eventsCapacity, events);
      ghost var first := if debug then [Debug(rest, user)] else [];
      if debug {
        AddEvent(Debug(rest, user));
      }
      if track {
        AddEvent(rest);
        QueuedTwice(config.eventsCapacity, old(events), first, [rest]);
      } else {
        assert first + [] == first;
      }
    }

    /** `LDEventProcessor_ProcessEvaluation`: unless its event cannot be made, the evaluation
        and those of its prerequisites, whose events are `sub`, are summarised once each; the
        user is announced where new, and full and debug events are queued as asked. */
    method ProcessEvaluation(e: Evaluation, sub: seq<Json>, detailed: bool, now: real, ghost made: seq<Made>)
      returns (ok: bool, announced: bool)
      requires Valid() && EventsOf(config.inlineUsers, sub, made)
      modifies this
      ensures Valid() && lastServerTime == old(lastServerTime)
      ensures ok == FeatureEvent(config.inlineUsers, Told(e), now).Some?
      ensures !ok ==> !announced && seen == old(seen) && events == old(events) && users == old(users)
      ensures ok ==>
        && seen == old(seen) + [Shown(config.codec, Told(e), e.flag.None?)] + AllShown(config.codec, made)
        && events == Queued(config.eventsCapacity, old(events),
             (if announced then [IndexEvent(e.userJson, now)] else [])
             + (if e.flag.Some? then
                  Full(FeatureEvent(config.inlineUsers, Told(e), now).value, detailed, e.userJson, now, lastServerTime)
                else [])
             + FullOfAll(sub, detailed, e.userJson, now, lastServerTime))
      ensures ok && !config.inlineUsers ==>
        var since := if now - old(lastUserKeyFlush) > config.userKeysFlushInterval then [] else old(users);
        && users == since + [e.user.key]
        && (announced <==> !Recently(config.userKeysCapacity, since, e.user.key))
      ensures config.inlineUsers ==> !announced
    {
      hide HasKey, SeenOf, AllShown, Gathered, Held, Queued, NoSummaries, Full, FullOfAll, FeatureEvent, Told, Shown;
      hide IsFeature, IsSummary, EventsOf, AllFeatures, Recently, Field, Lookup, Named, IndexEvent;
      announced := false;
      var event := FeatureEvent(config.inlineUsers, Told(e), now);
      ok := event.Some?;
      if !ok {
        return;
      }
      MadeIsFeature(config.inlineUsers, Told(e), now);
      EventsAreFeatures(config.inlineUsers, sub, made);
      SeenIs(config.codec, config.inlineUsers, Told(e), now, e.flag.None?);
      announced := Announce(e.user.key, e.userJson, event.value, e.flag.None?, now);
      ghost var index := if announced then [IndexEvent(e.userJson, now)] else [];
      ghost var full := if e.flag.Some? then Full(event.value, detailed, e.userJson, now, lastServerTime) else [];
      QueuedTwice(config.eventsCapacity, old(events), index, full);
      if e.flag.Some? {
        PossiblyQueue(event.value, detailed, e.userJson, now);
      } else {
        QueuedNone(config.eventsCapacity, events);
      }
      SummarizeAll(sub, now, made);
      QueuedTwice(config.eventsCapacity, old(events), index + full,
                  FullOfAll(sub, detailed, e.userJson, now, lastServerTime));
      PossiblyQueueAll(sub, detailed, e.userJson, now);
    }

    /** Summarises an event and announces its user where that is new. */
    method Announce(key: string, user: Json, event: Json, unknown: bool, now: real) returns (announced: bool)
      requires Valid() && HasKey(event)
      modifies this
      ensures Valid() && lastServerTime == old(lastServerTime)
      ensures seen == old(seen) + [SeenOf(config.codec, event, unknown)]
      ensures events
           == Queued(config.eventsCapacity, old(events), if announced then [IndexEvent(user, now)] else [])
      ensures config.inlineUsers ==> !announced
      ensures !config.inlineUsers ==>
        var since := if now - old(lastUserKeyFlush) > config.userKeysFlushInterval then [] else old(users);
        users == since + [key] && (announced <==> !Recently(config.userKeysCapacity, since, key))
    {
      hide HasKey, SeenOf, Gathered, Held, Queued, NoSummaries, IsSummary, Recently, IndexEvent;
      announced := MaybeMakeIndexEvent(key, now);
      SummarizeEvent(event, unknown, now);
      QueuedNone(config.eventsCapacity, events);
      if announced {
        IndexIsNoSummary(user, now);
        AddEvent(IndexEvent(user, now));
      }
    }

    method SummarizeAll(sub: seq<Json>, now: real, ghost made: seq<Made>)
      requires Valid() && EventsOf(config.inlineUsers, sub, made)
      modifies this`counters, this`summaryStart, this`seen
      ensures Valid() && seen == old(seen) + AllShown(config.codec, made)
    {
      hide HasKey, Gathered, Held, NoSummaries, SeenOf, Shown, FeatureEvent, Lookup, IsFeature, AllShown;
      NoneShown(config.codec, made);
      var i := 0;
      while i < |sub|
        invariant 0 <= i <= |sub| && Valid()
        invariant seen == old(seen) + AllShown(config.codec, made[..i])
      {
        MadeIsFeature(config.inlineUsers, made[i].e, made[i].created);
        SeenIs(config.codec, config.inlineUsers, made[i].e, made[i].created, false);
        OneMoreShown(config.codec, made, i);
        SummarizeEvent(sub[i], false, now);
        i := i + 1;
      }
      assert made[..i] == made;
    }

    method PossiblyQueueAll(sub: seq<Json>, detailed: bool, user: Json, now: real)
      requires Valid() && AllFeatures(sub)
      modifies this`events
      ensures Valid()
      ensures events
           == Queued(config.eventsCapacity, old(events), FullOfAll(sub, detailed, user, now, lastServerTime))
    {
      hide IsFeature, Gathered, Held, NoSummaries, Queued, Full;
      QueuedNone(config.eventsCapacity, events);
      var i := 0;
      while i < |sub|
        invariant 0 <= i <= |sub| && Valid()
        invariant events
               == Queued(config.eventsCapacity, old(events), FullOfAll(sub[..i], detailed, user, now, lastServerTime))
      {
        assert sub[..i + 1][..i] == sub[..i];
        QueuedTwice(config.eventsCapacity, old(events), FullOfAll(sub[..i], detailed, user, now, lastServerTime),
                    Full(sub[i], detailed, user, now, lastServerTime));
        PossiblyQueue(sub[i], detailed, user, now);
        i := i + 1;
      }
      assert sub[..i] == sub;
    }

    /** `LDi_prepareSummaryEvent`: the lines of every flag become a list. */
    method PrepareSummary(now: real) returns (event: Json)
      requires Valid()
      ensures event == SummaryEvent(summaryStart, now, counters)
    {
      hide Gathered, Held, NoSummaries, Features, Flattened;
      var features: seq<Member> := [];
      var k := 0;
      while k < |counters|
        invariant 0 <= k <= |counters| && |features| == k
        invariant forall i :: 0 <= i < k ==> features[i] == Member(counters[i].key, Flattened(counters[i].value))
      {
        var flag := Flatten(counters[k].value);
        features := features + [Member(counters[k].key, flag)];
        k := k + 1;
      }
      assert features == Features(counters);
      event := Object([Member("kind", Text("summary")), Member("startDate", Number(summaryStart)),
                       Member("endDate", Number(now)), Member("features", Object(features))]);
    }

    /** `LDEventProcessor_CreateEventPayloadAndResetState`: everything gathered, or
        nothing when nothing was. */
    method CreatePayload(now: real) returns (payload: Option<Json>)
      requires Valid()
      modifies this`events, this`counters, this`summaryStart, this`seen
      ensures Valid() && events == [] && seen == []
      ensures payload.None? <==> old(events) == [] && old(seen) == []
      ensures payload.Some? ==> Carries(config.codec, payload.value, old(events), old(seen))
    {
      hide Gathered, Held, SummaryEvent, IsSummary, Tells;
      GatheredNothing(config.codec, counters, seen);
      if events == [] && counters == [] {
        return None;
      }
      var batch := events;
      if counters != [] {
        var event := PrepareSummary(now);
        GatheredTells(config.codec, summaryStart, now, counters, seen);
        batch := batch + [event];
        summaryStart, counters := 0.0, [];
      }
      payload := Some(Array(batch));
      NothingGathered(config.codec);
      events, seen := [], [];
    }
  }

  method Flatten(flag: Json) returns (r: Json)
    ensures r == Flattened(flag)
  {
    hide LinesOf, Put;
    var list := ObjectToArray(LinesOf(flag));
    r := Put(flag, "counters", Array(list));
  }

  /** `LDi_objectToArray`. */
  method ObjectToArray(members: seq<Member>) returns (list: seq<Json>)
    ensures list == MemoryStore.MemberValues(members)
  {
    list := [];
    var i := 0;
    while i < |members|
      invariant 0 <= i <= |members| && |list| == i
      invariant forall k :: 0 <= k < i ==> list[k] == members[k].value
    {
      list := list + [members[i].value];
      i := i + 1;
    }
  }

  // ------------------------------------------------------------- what a batch tells

  /** Its lines count exactly what was seen, and each describes the first it counts. */
  ghost predicate Tells(codec: NumberCodec, summary: Json, seen: seq<Seen>) {
    && IsSummary(summary)
    && (forall flag, line :: Tally(codec, summary, flag, line) == Occurrences(seen, flag, line))
    && (forall flag, k :: 0 <= k < |ListFor(summary, flag)| ==> Described(summary, seen, flag, k))
    && (forall flag :: Noted(summary, seen, flag))
  }

  /** A flag is there exactly when it was seen, with the fallback it was first seen with. */
  ghost predicate Noted(summary: Json, seen: seq<Seen>, flag: string) {
    var sent := FeatureFor(summary, flag);
    && (sent.Some? <==> exists i: nat :: FirstOfFlag(seen, i, flag))
    && (forall i: nat :: FirstOfFlag(seen, i, flag) ==>
          sent.Some? && Lookup(sent.value, "default") == seen[i].fallback)
  }

  ghost predicate Described(summary: Json, seen: seq<Seen>, flag: string, k: nat)
    requires k < |ListFor(summary, flag)|
  {
    exists i: nat ::
      && i < |seen| && FirstOf(seen, i, flag, seen[i].line)
      && Spells(ListFor(summary, flag)[k], seen[i].first.(count := Occurrences(seen, flag, seen[i].line)))
  }

  /** A batch is the events queued and, where anything was seen, one summary that tells it. */
  ghost predicate Carries(codec: NumberCodec, payload: Json, events: seq<Json>, seen: seq<Seen>) {
    && payload.Array? && NoSummaries(events)
    && if seen == [] then payload.items == events
       else
         && |payload.items| == |events| + 1 && payload.items[..|events|] == events
         && Tells(codec, payload.items[|events|], seen)
  }

  /** The evaluations of one line that a batch counts, as its receiver adds them up. */
  function ItemsTally(codec: NumberCodec, items: seq<Json>, flag: string, line: string): nat {
    if items == [] then 0
    else
      var n := |items| - 1;
      ItemsTally(codec, items[..n], flag, line)
        + (if IsSummary(items[n]) then Tally(codec, items[n], flag, line) else 0)
  }

  function PayloadCount(codec: NumberCodec, payload: Json, flag: string, line: string): nat {
    if payload.Array? then ItemsTally(codec, payload.items, flag, line) else 0
  }

  /** A batch counts exactly the evaluations drained into it. */
  lemma CarriedCount(codec: NumberCodec, payload: Json, events: seq<Json>, seen: seq<Seen>, flag: string, line: string)
    requires Carries(codec, payload, events, seen)
    ensures PayloadCount(codec, payload, flag, line) == Occurrences(seen, flag, line)
  {
    hide IsSummary, Tally;
    NothingTallied(codec, events, flag, line);
    if seen != [] {
      assert payload.items[..|payload.items| - 1] == events;
    }
  }

  lemma {:induction false} NothingTallied(codec: NumberCodec, items: seq<Json>, flag: string, line: string)
    requires NoSummaries(items)
    ensures ItemsTally(codec, items, flag, line) == 0
    decreases |items|
  {
    hide IsSummary, Tally;
    if items != [] {
      NothingTallied(codec, items[..|items| - 1], flag, line);
    }
  }

  lemma GatheredTells(codec: NumberCodec, start: real, end: real, counters: seq<Member>, seen: seq<Seen>)
    requires Gathered(codec, counters, seen)
    ensures Tells(codec, SummaryEvent(start, end, counters), seen)
  {
    hide SummaryEvent, Tally, Occurrences, ListFor, CounterJson, AllCount, AllNamed, Keeps, Summaries, FirstOf;
    hide Spells, FeatureFor, FirstOfFlag;
    var summary := SummaryEvent(start, end, counters);
    SummaryJson.SummaryReads(start, end, counters);
    forall flag, line
      ensures Tally(codec, summary, flag, line) == Occurrences(seen, flag, line)
    {
      SummaryTells(codec, start, end, counters, seen, flag, line);
    }
    forall flag, k | 0 <= k < |ListFor(summary, flag)|
      ensures Described(summary, seen, flag, k)
    {
      var i := LineTells(codec, start, end, counters, seen, flag, k);
    }
    forall flag
      ensures Noted(summary, seen, flag)
    {
      DefaultTells(start, end, counters, seen, flag);
    }
  }

  lemma GatheredNothing(codec: NumberCodec, counters: seq<Member>, seen: seq<Seen>)
    requires Gathered(codec, counters, seen)
    ensures counters == [] <==> seen == []
  {
    hide Summaries, Holds;
    SummaryEmpty(seen);
    var s := Summaries(seen);
    if counters != [] {
      assert counters[0].key in s;
    }
  }

  lemma NothingGathered(codec: NumberCodec)
    ensures Gathered(codec, [], [])
  {
  }

  lemma GatheredGrows(codec: NumberCodec, counters: seq<Member>, seen: seq<Seen>, e: Seen)
    requires Gathered(codec, counters, seen) && Counts(e) && Named(codec, e.first, e.line)
    ensures Gathered(codec, AddSeen(counters, e), seen + [e])
  {
    hide Keeps, Summaries, Named, AddSeen;
    SummariesGrow(seen, e);
    AddSeenKeeps(counters, Summaries(seen), e);
  }

  lemma SummaryEmpty(seen: seq<Seen>)
    requires AllCount(seen)
    ensures Summaries(seen) == map[] <==> seen == []
  {
    SummaryCounts(seen, "", "");
  }

  lemma SummariesGrow(seen: seq<Seen>, e: Seen)
    ensures Summaries(seen + [e]) == Summarize(Summaries(seen), e)
  {
    assert (seen + [e])[..|seen|] == seen;
  }

  // ------------------------------------------------------------- events are no summaries

  lemma SentAreNoSummaries(event: Json, detailed: bool, user: Json)
    requires IsFeature(event)
    ensures !IsSummary(Trimmed(event, detailed)) && !IsSummary(Debug(Trimmed(event, detailed), user))
  {
    hide Plain, Lookup, Debug, Trimmed, HasKey, Field;
    TrimmedReads(event, detailed, "kind");
    DebugReads(Trimmed(event, detailed), user, "kind");
    assert |"kind"| == 4 && |"reason"| == 6 && forall mark :: mark in MARKS ==> |mark| > 4;
    assert |"feature"| == 7 && |"debug"| == 5 && |"summary"| == 7 && "feature"[0] != "summary"[0];
  }

  lemma MadeIsFeature(inline: bool, e: Evaluation, now: real)
    requires FeatureEvent(inline, e, now).Some?
    ensures IsFeature(FeatureEvent(inline, e, now).value) && HasKey(FeatureEvent(inline, e, now).value)
  {
    hide FeatureEvent, Lookup, Plain, FeatureSlots;
    EventReads(inline, e, now);
    FieldsMade(inline, e, now);
  }

  lemma EventsAreFeatures(inline: bool, events: seq<Json>, made: seq<Made>)
    requires EventsOf(inline, events, made)
    ensures AllFeatures(events)
  {
    hide FeatureEvent, IsFeature;
    forall i | 0 <= i < |events|
      ensures IsFeature(events[i])
    {
      MadeIsFeature(inline, made[i].e, made[i].created);
    }
  }

  /** An index event says when, what and who. */
  lemma IndexSays(user: Json, now: real)
    ensures var event := IndexEvent(user, now);
      && Lookup(event, "creationDate") == Some(Number(now)) && Lookup(event, "kind") == Some(Text("index"))
      && Lookup(event, "user") == Some(user)
      && forall name :: name !in {"creationDate", "kind", "user"} ==> Lookup(event, name) == None
  {
    var members := IndexEvent(user, now).members;
    assert |members[0].key| == 12 && |members[1].key| == 4 && members[1].key[0] != members[2].key[0];
    assert FirstIndex(members, "creationDate") == 0 && FirstIndex(members, "kind") == 1;
    assert FirstIndex(members, "user") == 2;
  }

  lemma IndexIsNoSummary(user: Json, now: real)
    ensures !IsSummary(IndexEvent(user, now))
  {
    var members := IndexEvent(user, now).members;
    assert members[0].key != "kind" by { assert |members[0].key| != |"kind"|; }
    assert FirstIndex(members, "kind") == 1;
    assert "index" != "summary" by { assert |"index"| != |"summary"|; }
  }

  lemma QueuedNone(capacity: nat, events: seq<Json>)
    ensures Queued(capacity, events, []) == events
  {
  }

  lemma {:induction false} QueuedTwice(capacity: nat, events: seq<Json>, one: seq<Json>, two: seq<Json>)
    requires |events| <= capacity
    ensures Queued(capacity, Queued(capacity, events, one), two) == Queued(capacity, events, one + two)
    decreases |two|
  {
    hide Queued;
    if two == [] {
      assert one + two == one;
      QueuedNone(capacity, Queued(capacity, events, one));
    } else {
      var n := |two| - 1;
      QueuedTwice(capacity, events, one, two[..n]);
      assert one + two == one + two[..n] + [two[n]] && two == two[..n] + [two[n]];
      QueuedOne(capacity, events, one + two[..n], two[n]);
      QueuedOne(capacity, Queued(capacity, events, one), two[..n], two[n]);
    }
  }
}
