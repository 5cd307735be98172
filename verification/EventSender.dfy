/** Sending batches of events: `poll` drains the processor or retries, `done` learns
    how a request went. */
module EventSender {
  import opened Wrappers
  import opened JsonTree
  import opened JsonNumber
  import opened JsonParse
  import opened JsonText
  import opened StoreData
  import opened EventSpec
  import opened FeatureEvents
  import opened SummaryJson
  import opened EventProcessor

  /** What becomes of a batch. */
  datatype Fate = Pending | Delivered | Discarded | Lost

  /** A batch drained: its JSON and the text of it, the events it carries and what it
      counts, its identifier and how often it was sent. */
  datatype Batch = Batch(
    payload: Json, body: string, events: seq<Json>, seen: seq<Seen>, id: nat, sends: nat, fate: Fate)

  datatype Request = Request(body: string, id: nat)

  /** A request made, and the place of its batch among all drained. */
  datatype Sent = Sent(batch: nat, request: Request)

  /** How often a batch was sent. */
  function Times(sent: seq<Sent>, batch: nat): nat {
    if sent == [] then 0
    else
      var n := |sent| - 1;
      Times(sent[..n], batch) + (if sent[n].batch == batch then 1 else 0)
  }

  /** Requests carry the body and identifier of their batch, and batches count them. */
  ghost predicate Tallied(batches: seq<Batch>, sent: seq<Sent>) {
    && (forall j :: 0 <= j < |sent| ==> OfBatch(batches, sent[j]))
    && (forall i :: 0 <= i < |batches| ==> Times(sent, i) == batches[i].sends)
  }

  predicate OfBatch(batches: seq<Batch>, s: Sent) {
    s.batch < |batches| && s.request == Request(batches[s.batch].body, batches[s.batch].id)
  }

  lemma {:induction false} TimesNone(sent: seq<Sent>, batch: nat)
    requires forall j :: 0 <= j < |sent| ==> sent[j].batch != batch
    ensures Times(sent, batch) == 0
    decreases |sent|
  {
    if sent != [] {
      TimesNone(sent[..|sent| - 1], batch);
    }
  }

  lemma TimesMore(sent: seq<Sent>, s: Sent, batch: nat)
    ensures Times(sent + [s], batch) == Times(sent, batch) + (if s.batch == batch then 1 else 0)
  {
    assert (sent + [s])[..|sent|] == sent;
  }

  /** A new batch has not been sent. */
  lemma TallyNew(batches: seq<Batch>, sent: seq<Sent>, b: Batch)
    requires Tallied(batches, sent) && b.sends == 0
    ensures Tallied(batches + [b], sent)
  {
    hide Times;
    forall j | 0 <= j < |sent|
      ensures OfBatch(batches + [b], sent[j]) && sent[j].batch != |batches|
    {
      assert OfBatch(batches, sent[j]);
    }
    TimesNone(sent, |batches|);
  }

  /** Sending the last batch once more. */
  lemma TallySend(batches: seq<Batch>, sent: seq<Sent>)
    requires Tallied(batches, sent) && batches != []
    ensures
      var b, n := Last(batches), |batches| - 1;
      Tallied(WithLast(batches, b.(sends := b.sends + 1)), sent + [Sent(n, Request(b.body, b.id))])
  {
    hide Times;
    var b, n := Last(batches), |batches| - 1;
    var more, s := WithLast(batches, b.(sends := b.sends + 1)), Sent(n, Request(b.body, b.id));
    forall j | 0 <= j < |sent|
      ensures OfBatch(more, sent[j])
    {
      assert OfBatch(batches, sent[j]);
    }
    forall i | 0 <= i < |more|
      ensures Times(sent + [s], i) == more[i].sends
    {
      TimesMore(sent, s, i);
    }
  }

  /** The fate of the last batch changes nothing about what was sent. */
  lemma TallyFate(batches: seq<Batch>, sent: seq<Sent>, fate: Fate)
    requires Tallied(batches, sent) && batches != []
    ensures Tallied(WithLast(batches, Last(batches).(fate := fate)), sent)
  {
    hide Times;
    var more := WithLast(batches, Last(batches).(fate := fate));
    forall j | 0 <= j < |sent|
      ensures OfBatch(more, sent[j])
    {
      assert OfBatch(batches, sent[j]);
    }
  }

  /** No batch is ever sent three times. */
  lemma SentAtMostTwice(codec: NumberCodec, batches: seq<Batch>, sent: seq<Sent>, i: nat)
    requires Tallied(batches, sent) && AllOk(codec, batches)
    ensures Times(sent, i) <= 2
  {
    hide Times;
    if i < |batches| {
      assert BatchOk(codec, batches[i]);
    } else {
      forall j | 0 <= j < |sent|
        ensures sent[j].batch != i
      {
        assert OfBatch(batches, sent[j]);
      }
      TimesNone(sent, i);
    }
  }

  function FlatSeen(batches: seq<Batch>): seq<Seen> {
    if batches == [] then []
    else FlatSeen(batches[..|batches| - 1]) + batches[|batches| - 1].seen
  }

  function FlatEvents(batches: seq<Batch>): seq<Json> {
    if batches == [] then []
    else FlatEvents(batches[..|batches| - 1]) + batches[|batches| - 1].events
  }

  /** The count of one line over the batches with one fate. */
  function Counted(codec: NumberCodec, batches: seq<Batch>, fate: Fate, flag: string, line: string): nat {
    if batches == [] then 0
    else
      var n := |batches| - 1;
      Counted(codec, batches[..n], fate, flag, line)
      + (if batches[n].fate == fate then PayloadCount(codec, batches[n].payload, flag, line) else 0)
  }

  /** Bodies spell out what was seen; nothing is sent three times, or discarded before it
      was sent twice. */
  ghost predicate BatchOk(codec: NumberCodec, b: Batch) {
    && Carries(codec, b.payload, b.events, b.seen) && b.body == Print(codec, b.payload, false, 0)
    && b.sends <= 2
    && (b.fate.Delivered? ==> b.sends >= 1)
    && (b.fate.Discarded? ==> b.sends == 2)
    && (b.fate.Lost? ==> b.sends <= 1)
  }

  ghost predicate AllOk(codec: NumberCodec, batches: seq<Batch>) {
    forall i :: 0 <= i < |batches| ==> BatchOk(codec, batches[i])
  }

  /** Only the last batch may be pending. */
  ghost predicate Settled(batches: seq<Batch>) {
    forall i :: 0 <= i < |batches| - 1 ==> !batches[i].fate.Pending?
  }

  function Last(batches: seq<Batch>): Batch
    requires batches != []
  {
    batches[|batches| - 1]
  }

  function WithLast(batches: seq<Batch>, b: Batch): seq<Batch>
    requires batches != []
  {
    batches[..|batches| - 1] + [b]
  }

  lemma WithLastKeeps(codec: NumberCodec, batches: seq<Batch>, b: Batch)
    requires batches != [] && AllOk(codec, batches) && Settled(batches) && BatchOk(codec, b)
    requires b.seen == Last(batches).seen && b.events == Last(batches).events
    ensures var r := WithLast(batches, b);
      && AllOk(codec, r) && Settled(r) && r != [] && Last(r) == b
      && FlatSeen(r) == FlatSeen(batches) && FlatEvents(r) == FlatEvents(batches)
  {
    hide BatchOk;
    var r, n := WithLast(batches, b), |batches| - 1;
    assert r[..n] == batches[..n];
  }

  lemma AppendKeeps(codec: NumberCodec, batches: seq<Batch>, b: Batch)
    requires AllOk(codec, batches) && Settled(batches) && (batches != [] ==> !Last(batches).fate.Pending?)
      && BatchOk(codec, b)
    ensures var r := batches + [b];
      && AllOk(codec, r) && Settled(r) && Last(r) == b
      && FlatSeen(r) == FlatSeen(batches) + b.seen && FlatEvents(r) == FlatEvents(batches) + b.events
  {
    hide BatchOk;
    var r := batches + [b];
    assert r[..|batches|] == batches;
  }

  /** Evaluations counted, over every batch and what is still gathered. */
  lemma {:induction false} BatchesCount(codec: NumberCodec, batches: seq<Batch>, flag: string, line: string)
    requires AllOk(codec, batches)
    ensures Occurrences(FlatSeen(batches), flag, line)
         == Counted(codec, batches, Pending, flag, line) + Counted(codec, batches, Delivered, flag, line)
            + Counted(codec, batches, Discarded, flag, line) + Counted(codec, batches, Lost, flag, line)
    decreases |batches|
  {
    hide Occurrences, Carries, PayloadCount, Print;
    if batches != [] {
      var n := |batches| - 1;
      BatchesCount(codec, batches[..n], flag, line);
      assert BatchOk(codec, batches[n]);
      OccurrencesAdd(FlatSeen(batches[..n]), batches[n].seen, flag, line);
      CarriedCount(codec, batches[n].payload, batches[n].events, batches[n].seen, flag, line);
    } else {
      NoOccurrences(flag, line);
    }
  }

  lemma NoOccurrences(flag: string, line: string)
    ensures Occurrences([], flag, line) == 0
  {
  }

  class Sender {
    const processor: Processor
    const flushInterval: real
    var active: bool
    var lastFlush: real
    var buffer: Option<string>
    /** When the last send failed, in whole milliseconds, or zero. */
    var failureTime: nat
    var payloadId: nat
    /** The client's request to send soon. */
    var shouldFlush: bool
    ghost var batches: seq<Batch>
    /** Every request ever made. */
    ghost var sent: seq<Sent>

    constructor (processor: Processor, flushInterval: real, now: real)
      requires processor.Valid()
      ensures Valid() && this.processor == processor && this.flushInterval == flushInterval
      ensures batches == [] && sent == []
    {
      this.processor, this.flushInterval := processor, flushInterval;
      active, lastFlush, buffer, failureTime, payloadId, shouldFlush := false, now, None, 0, 0, false;
      batches, sent := [], [];
    }

    /** A batch is pending exactly while it is being sent or waits for its retry, and
        then the buffer and identifier are that batch's. */
    ghost predicate Valid()
      reads this, processor
    {
      && processor.Valid()
      && AllOk(processor.config.codec, batches) && Settled(batches) && Tallied(batches, sent)
      && (active || failureTime != 0 <==> batches != [] && Last(batches).fate.Pending?)
      && (active || failureTime != 0 ==>
            && buffer == Some(Last(batches).body)
            && payloadId == Last(batches).id
            && Last(batches).sends == if active && failureTime != 0 then 2 else 1)
    }

    /** Everything ever summarised, in order. */
    ghost function History(): seq<Seen>
      reads this, processor
    {
      FlatSeen(batches) + processor.seen
    }

    /** Every event ever queued, in order. */
    ghost function Accepted(): seq<Json>
      reads this, processor
    {
      FlatEvents(batches) + processor.events
    }

    /** The moment a retry is due, in `unsigned int` arithmetic. */
    function RetryAfter(): real
      reads this
    {
      ((failureTime + 1000) % UINT_RANGE) as real
    }

    ghost predicate Due(now: real)
      reads this, processor
    {
      && (shouldFlush || now - lastFlush >= flushInterval)
      && (processor.events != [] || processor.seen != [])
    }

    /** `poll`: `uuid` is the identifier a new batch would get, and `prepared` whether
        the request could be set up. */
    method Poll(now: real, uuid: nat, prepared: bool) returns (r: Option<Request>)
      requires Valid() && lastFlush <= now
      modifies this, processor
      ensures Valid() && History() == old(History()) && Accepted() == old(Accepted())
      ensures active == (old(active) || r.Some?)
      ensures r.Some? ==> batches != [] && r.value == Request(Last(batches).body, Last(batches).id)
      ensures sent == if r.Some? then old(sent) + [Sent(|batches| - 1, r.value)] else old(sent)
      ensures old(active || (failureTime != 0 && now <= ((failureTime + 1000) % 0x1_0000_0000) as real)) ==>
        r.None? && batches == old(batches)
      ensures old(!active && failureTime != 0 && now > ((failureTime + 1000) % 0x1_0000_0000) as real) ==>
        && r.Some? == prepared
        && var again := Last(old(batches)).(sends := Last(old(batches)).sends + 1);
        batches == if prepared then WithLast(old(batches), again) else old(batches)
      ensures old(!active && failureTime == 0 && !Due(now)) ==> r.None? && batches == old(batches)
      ensures old(!active && failureTime == 0 && Due(now)) ==>
        && r.Some? == prepared && |batches| == old(|batches|) + 1 && batches[..|batches| - 1] == old(batches)
        && Last(batches).id == uuid && Last(batches).seen == old(processor.seen)
        && Last(batches).sends == (if prepared then 1 else 0)
        && Last(batches).fate == (if prepared then Pending else Lost)
    {
      hide BatchOk, AllOk, Settled, FlatSeen, FlatEvents, Gathered, NoSummaries, Tallied;
      r := None;
      if active {
        return;
      }
      if failureTime != 0 {
        if now > RetryAfter() && prepared {
          r := Send();
        }
        return;
      }
      var drained := Drain(now, uuid, prepared);
      if drained && prepared {
        r := Send();
      }
    }

    /** The half of `poll` that makes the request. */
    method Send() returns (r: Option<Request>)
      requires processor.Valid() && AllOk(processor.config.codec, batches) && Settled(batches) && Tallied(batches, sent)
      requires !active && batches != [] && Last(batches).fate.Pending? && buffer == Some(Last(batches).body)
      requires payloadId == Last(batches).id && Last(batches).sends == if failureTime != 0 then 1 else 0
      modifies this`active, this`batches, this`sent
      ensures Valid() && active && History() == old(History()) && Accepted() == old(Accepted())
      ensures batches == WithLast(old(batches), Last(old(batches)).(sends := Last(old(batches)).sends + 1))
      ensures r == Some(Request(Last(batches).body, Last(batches).id))
      ensures sent == old(sent) + [Sent(|batches| - 1, r.value)]
    {
      hide BatchOk, AllOk, Settled, FlatSeen, FlatEvents, Gathered, NoSummaries, Tallied;
      Resend(processor.config.codec, batches);
      TallySend(batches, sent);
      active := true;
      r := Some(Request(buffer.value, payloadId));
      batches := WithLast(batches, Last(batches).(sends := Last(batches).sends + 1));
      sent := sent + [Sent(|batches| - 1, r.value)];
    }

    /** The half of `poll` that gathers a new batch. */
    method Drain(now: real, uuid: nat, prepared: bool) returns (drained: bool)
      requires Valid() && lastFlush <= now && !active && failureTime == 0
      modifies this`buffer, this`payloadId, this`batches, processor
      ensures processor.Valid() && AllOk(processor.config.codec, batches) && Settled(batches) && Tallied(batches, sent)
      ensures History() == old(History()) && Accepted() == old(Accepted())
      ensures drained == old(Due(now))
      ensures !drained ==> batches == old(batches)
      ensures drained ==> |batches| == old(|batches|) + 1 && batches[..|batches| - 1] == old(batches)
      ensures drained ==> var b := Last(batches);
        && b.id == uuid == payloadId && b.seen == old(processor.seen) && buffer == Some(b.body)
        && b.sends == 0 && b.fate == (if prepared then Pending else Lost)
    {
      hide AllOk, Settled, FlatSeen, FlatEvents, Gathered, NoSummaries, Tallied;
      if !shouldFlush && now - lastFlush < flushInterval {
        return false;
      }
      ghost var seen, events := processor.seen, processor.events;
      var payload := processor.CreatePayload(now);
      if payload.None? {
        return false;
      }
      var body := Print(processor.config.codec, payload.value, false, 0);
      buffer, payloadId := Some(body), uuid;
      ghost var batch := Batch(payload.value, body, events, seen, uuid, 0, if prepared then Pending else Lost);
      AppendKeeps(processor.config.codec, batches, batch);
      TallyNew(batches, sent, batch);
      batches := batches + [batch];
      return true;
    }

    /** `done`: a second failure discards the batch. A first failure keeps it, unless
        the clock's whole milliseconds read as no failure at all. */
    method Done(code: int, now: real)
      requires Valid() && active
      modifies this`active, this`lastFlush, this`buffer, this`failureTime, this`shouldFlush, this`batches
      ensures Valid() && !active && History() == old(History()) && Accepted() == old(Accepted())
      ensures batches == WithLast(old(batches), Last(old(batches)).(fate := Outcome(code, old(failureTime), now)))
    {
      hide FlatSeen, FlatEvents, Gathered, NoSummaries, Carries, Tallied, Print;
      active := false;
      TallyFate(batches, sent, Outcome(code, failureTime, now));
      ghost var b := Last(batches).(fate := Outcome(code, failureTime, now));
      WithLastKeeps(processor.config.codec, batches, b);
      batches := WithLast(batches, b);
      if code == 200 || code == 202 {
        shouldFlush := false;
        lastFlush := now;
        buffer, failureTime := None, 0;
      } else if failureTime != 0 {
        buffer, failureTime := None, 0;
      } else {
        failureTime := FlagSchema.Truncate(now) % UINT_RANGE;
      }
    }

    /** Every evaluation summarised is counted once, as the receiver of the JSON adds up:
        in the summary that what is gathered would make, or in a batch pending, delivered,
        discarded or lost. */
    lemma Conserved(flag: string, line: string, now: real)
      requires Valid()
      ensures
        var codec := processor.config.codec;
        Occurrences(History(), flag, line)
        == Tally(codec, SummaryEvent(processor.summaryStart, now, processor.counters), flag, line)
           + Counted(codec, batches, Pending, flag, line) + Counted(codec, batches, Delivered, flag, line)
           + Counted(codec, batches, Discarded, flag, line) + Counted(codec, batches, Lost, flag, line)
    {
      hide Occurrences, Counted, Tally, SummaryEvent, Gathered, NoSummaries, AllOk, Settled, Tallied;
      var codec := processor.config.codec;
      OccurrencesAdd(FlatSeen(batches), processor.seen, flag, line);
      GatheredTells(codec, processor.summaryStart, now, processor.counters, processor.seen);
      BatchesCount(codec, batches, flag, line);
    }
  }

  function Outcome(code: int, failureTime: nat, now: real): Fate {
    if code == 200 || code == 202 then Delivered
    else if failureTime != 0 then Discarded
    else if FlagSchema.Truncate(now) % UINT_RANGE == 0 then Lost
    else Pending
  }

  lemma Resend(codec: NumberCodec, batches: seq<Batch>)
    requires batches != [] && AllOk(codec, batches) && Settled(batches) && Last(batches).fate.Pending?
      && Last(batches).sends <= 1
    ensures var b := Last(batches).(sends := Last(batches).sends + 1);
      var r := WithLast(batches, b);
      && AllOk(codec, r) && Settled(r) && r != [] && Last(r) == b
      && FlatSeen(r) == FlatSeen(batches) && FlatEvents(r) == FlatEvents(batches)
  {
    assert BatchOk(codec, Last(batches));
    WithLastKeeps(codec, batches, Last(batches).(sends := Last(batches).sends + 1));
  }

  /** A first failure is retried exactly when the clock fits and has passed its first
      millisecond. */
  lemma RetriedExactlyWhenClockReads(code: int, now: real)
    requires code != 200 && code != 202 && 0.0 <= now < UINT_RANGE as real
    ensures Outcome(code, 0, now) == Pending <==> now >= 1.0
  {
  }

  /** A receiver that parses the text of a batch reads that batch, and so counts exactly
      the evaluations drained into it. */
  lemma ReceivedCounts(codec: NumberCodec, b: Batch, flag: string, line: string)
    requires BatchOk(codec, b) && Printable(codec, b.payload) && Nesting(b.payload) <= NESTING_LIMIT
    ensures ParseText(codec, b.body, true) == Some(b.payload)
    ensures PayloadCount(codec, ParseText(codec, b.body, true).value, flag, line) == Occurrences(b.seen, flag, line)
  {
    hide Printable, Print, ParseText, Carries, PayloadCount, Occurrences, Nesting;
    RoundTrip(codec, b.payload, false, true);
    CarriedCount(codec, b.payload, b.events, b.seen, flag, line);
  }

  /** What can happen to a client's events. */
  datatype Step =
    | Evaluated(e: Evaluation, sub: seq<Json>, detailed: bool, made: seq<Made>)
    | Polled(uuid: nat, prepared: bool)
    | Ended(code: int)
    | ServerTime(seconds: nat)

  ghost predicate StepOk(inline: bool, step: Step) { step.Evaluated? ==> EventsOf(inline, step.sub, step.made) }

  ghost predicate StepsOk(inline: bool, steps: seq<(Step, real)>) {
    forall i :: 0 <= i < |steps| ==> StepOk(inline, steps[i].0)
  }

  /** What a step adds to the summary: nothing if the event cannot be made. */
  ghost function SeenIn(config: Config, step: Step, now: real): seq<Seen> {
    if !step.Evaluated? || FeatureEvent(config.inlineUsers, Told(step.e), now).None? then []
    else [Shown(config.codec, Told(step.e), step.e.flag.None?)] + AllShown(config.codec, step.made)
  }

  /** Every evaluation of a run, in order. */
  ghost function SeenAlong(config: Config, steps: seq<(Step, real)>): seq<Seen> {
    if steps == [] then []
    else
      var n := |steps| - 1;
      SeenAlong(config, steps[..n]) + SeenIn(config, steps[n].0, steps[n].1)
  }

  /** Any run of evaluations, polls and ends of requests: each evaluation is in the
      history once and in order, and with `Sender.Conserved` counted once. */
  method Run(sender: Sender, steps: seq<(Step, real)>)
    requires sender.Valid() && StepsOk(sender.processor.config.inlineUsers, steps)
    modifies sender, sender.processor
    ensures sender.Valid()
    ensures sender.History() == old(sender.History()) + SeenAlong(sender.processor.config, steps)
  {
    hide SeenIn, StepOk, SeenAlong, Sender.Valid, Sender.History;
    var i := 0;
    SeenAtFirst(sender.processor.config, steps);
    assert sender.History() == sender.History() + [];
    while i < |steps|
      invariant 0 <= i <= |steps| && sender.Valid()
      invariant sender.History() == old(sender.History()) + SeenAlong(sender.processor.config, steps[..i])
    {
      ghost var config, before := sender.processor.config, old(sender.History());
      SeenNext(config, steps, i);
      assert before + SeenAlong(config, steps[..i]) + SeenIn(config, steps[i].0, steps[i].1)
          == before + SeenAlong(config, steps[..i + 1]);
      Take(sender, steps[i].0, steps[i].1);
      i := i + 1;
    }
    assert steps[..i] == steps;
  }

  lemma SeenAtFirst(config: Config, steps: seq<(Step, real)>)
    ensures SeenAlong(config, steps[..0]) == []
  {
  }

  lemma SeenNext(config: Config, steps: seq<(Step, real)>, i: nat)
    requires i < |steps|
    ensures SeenAlong(config, steps[..i + 1]) == SeenAlong(config, steps[..i]) + SeenIn(config, steps[i].0, steps[i].1)
  {
    hide SeenIn;
    assert steps[..i + 1][..i] == steps[..i];
  }

  /** One step; what is not due at that time does not happen. */
  method Take(sender: Sender, step: Step, now: real)
    requires sender.Valid() && StepOk(sender.processor.config.inlineUsers, step)
    modifies sender, sender.processor
    ensures sender.Valid()
    ensures sender.History() == old(sender.History()) + SeenIn(sender.processor.config, step, now)
  {
    hide AllOk, Settled, FlatSeen, FlatEvents, Tallied, Gathered, NoSummaries, FeatureEvent, Told, Shown, AllShown;
    hide EventsOf, Full, FullOfAll, Queued, Recently;
    match step
    case Evaluated(e, sub, detailed, made) =>
      ghost var before := FlatSeen(sender.batches);
      ghost var seen, config := sender.processor.seen, sender.processor.config;
      var ok, announced := sender.processor.ProcessEvaluation(e, sub, detailed, now, made);
      if ok {
        Regroup(before, seen, Shown(config.codec, Told(e), e.flag.None?), AllShown(config.codec, made));
      }
    case Polled(uuid, prepared) =>
      if sender.lastFlush <= now {
        var request := sender.Poll(now, uuid, prepared);
      }
    case Ended(code) =>
      if sender.active {
        sender.Done(code, now);
      }
    case ServerTime(seconds) =>
      sender.processor.SetServerTime(seconds);
  }

  lemma Regroup(a: seq<Seen>, b: seq<Seen>, e: Seen, c: seq<Seen>)
    ensures a + (b + [e] + c) == (a + b) + ([e] + c)
  {
  }
}
