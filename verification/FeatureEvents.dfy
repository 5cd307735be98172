/** Feature events as JSON: how one is made, when it is sent in full, and what is taken
    off it before. */
module FeatureEvents {
  import opened Wrappers
  import opened JsonTree
  import opened FlagSchema
  import opened Matching
  import opened Evaluate
  import EvaluateSpec
  import opened JsonNumber
  import opened JsonText
  import opened JsonObject
  import EventSpec

  // ------------------------------------------------------------- making the event

  /** Why a value was served: the evaluator's reason, or an error of the client, which may
      have no name. */
  datatype Why = Decided(reason: Reason) | Failed(kind: Option<string>)

  /** What `LDi_newFeatureEvent` is told. */
  datatype Evaluation = Evaluation(
    key: string, user: User, userJson: Json, variation: Option<nat>, value: Option<Json>, fallback: Option<Json>,
    prereqOf: Option<string>, flag: Option<Json>, why: Why)

  function TextOf(s: Option<string>): Option<Json> { if s.Some? then Some(Text(s.value)) else None }

  /** `LDReasonToJSON`, which knows no reason that is unknown. */
  function ReasonJson(why: Why): Option<Json> {
    match why
    case Failed(None) => None
    case Failed(Some(kind)) => Some(Object([Member("kind", Text("ERROR")), Member("errorKind", Text(kind))]))
    case Decided(Unknown) => None
    case Decided(Off) => Some(Object([Member("kind", Text("OFF"))]))
    case Decided(PrerequisiteFailed(key)) =>
      Some(Object([Member("kind", Text("PREREQUISITE_FAILED")), Member("prerequisiteKey", Text(key))]))
    case Decided(TargetMatch) => Some(Object([Member("kind", Text("TARGET_MATCH"))]))
    case Decided(RuleMatch(i, id, inExperiment)) =>
      Some(Object(Members([
        Slot("kind", Some(Text("RULE_MATCH"))), Slot("ruleId", TextOf(id)), Slot("ruleIndex", Some(Number(i as real))),
        Slot("inExperiment", Mark(inExperiment))])))
    case Decided(Fallthrough(inExperiment)) =>
      Some(Object(Members([Slot("kind", Some(Text("FALLTHROUGH"))), Slot("inExperiment", Mark(inExperiment))])))
    case Decided(MalformedFlag) =>
      Some(Object([Member("kind", Text("ERROR")), Member("errorKind", Text("MALFORMED_FLAG"))]))
  }

  predicate InExperiment(why: Why) {
    match why
    case Decided(RuleMatch(_, _, inExperiment)) => inExperiment
    case Decided(Fallthrough(inExperiment)) => inExperiment
    case _ => false
  }

  predicate SaysTrue(v: Json, name: string) { Lookup(v, name) == Some(Bool(true)) }

  /** The flag asks for the reason of what it served: its fallthrough or the rule that
      matched is tracked. */
  predicate AlwaysDetails(flag: Json, why: Why) {
    match why
    case Decided(Fallthrough(_)) => SaysTrue(flag, "trackEventsFallthrough")
    case Decided(RuleMatch(i, _, _)) =>
      i < |Elements(flag, "rules")| && SaysTrue(Elements(flag, "rules")[i], "trackEvents")
    case _ => false
  }

  predicate Tracks(flag: Json, why: Why) { SaysTrue(flag, "trackEvents") || AlwaysDetails(flag, why) }

  /** The rule that matched, if one did and the flag still has it. */
  predicate MatchedRule(flag: Json, why: Why, rule: Json) {
    && why.Decided? && why.reason.RuleMatch?
    && Lookup(flag, "rules").Some? && Lookup(flag, "rules").value.Array?
    && why.reason.ruleIndex < |Lookup(flag, "rules").value.items|
    && rule == Lookup(flag, "rules").value.items[why.reason.ruleIndex]
  }

  /** Tracking is asked for by the fallthrough, when that decided, or by the rule that did. */
  ghost predicate CaseTracked(flag: Json, why: Why) {
    || (why.Decided? && why.reason.Fallthrough? && Lookup(flag, "trackEventsFallthrough") == Some(Bool(true)))
    || exists rule :: MatchedRule(flag, why, rule) && Lookup(rule, "trackEvents") == Some(Bool(true))
  }

  lemma TrackingIs(flag: Json, why: Why)
    ensures AlwaysDetails(flag, why) <==> CaseTracked(flag, why)
    ensures Tracks(flag, why) <==> Lookup(flag, "trackEvents") == Some(Bool(true)) || CaseTracked(flag, why)
  {
    hide Lookup;
    if why.Decided? && why.reason.RuleMatch? && why.reason.ruleIndex < |Elements(flag, "rules")| {
      assert MatchedRule(flag, why, Elements(flag, "rules")[why.reason.ruleIndex]);
    }
  }

  function FlagField(flag: Option<Json>, name: string): Option<Json> {
    if flag.Some? then EventSpec.Field(flag.value, name) else None
  }

  /** The fields of a feature event, in the order they are set. */
  function FeatureSlots(inline: bool, e: Evaluation, now: real): (r: seq<Slot>)
    ensures |r| == 15
  {
    [ Slot("creationDate", Some(Number(now))),
      Slot("kind", Some(Text("feature"))),
      Slot("user", if inline then Some(e.userJson) else None),
      Slot("userKey", if inline then None else Some(Text(e.user.key))),
      Slot("key", Some(Text(e.key))),
      Slot("variation", if e.variation.Some? then Some(Number(e.variation.value as real)) else None),
      Slot("value", e.value),
      Slot("default", e.fallback),
      Slot("prereqOf", TextOf(e.prereqOf)),
      Slot("version", FlagField(e.flag, "version")),
      Slot("debugEventsUntilDate", FlagField(e.flag, "debugEventsUntilDate")),
      Slot("reason", ReasonJson(e.why)),
      Slot("trackEvents", Mark(e.flag.Some? && Tracks(e.flag.value, e.why))),
      Slot("shouldAlwaysTrackDetails", Mark(e.flag.Some? && AlwaysDetails(e.flag.value, e.why))),
      Slot("contextKind", if e.user.anonymous then Some(Text("anonymousUser")) else None) ]
  }

  /** `LDi_newFeatureEvent`: nothing for a flag with ill-typed fields or an unnamed reason. */
  function FeatureEvent(inline: bool, e: Evaluation, now: real): Option<Json> {
    if (e.flag.Some? && !EventFieldsOk(e.flag.value)) || ReasonJson(e.why).None? then None
    else Some(Object(Members(FeatureSlots(inline, e, now))))
  }

  /** Length and first letter tell the field names apart. */
  function Code(name: string): int { if name == "" then 0 else 256 * |name| + name[0] as int }

  const CODES := [3171, 1131, 1141, 1909, 875, 2422, 1398, 1892, 2160, 1910, 5220, 1650, 2932, 6259, 2915]

  lemma SlotsApart(inline: bool, e: Evaluation, now: real)
    ensures Apart(FeatureSlots(inline, e, now))
  {
    hide Code;
    var slots := FeatureSlots(inline, e, now);
    SlotCodes(inline, e, now);
    CodesDiffer();
    forall i, j | 0 <= i < j < 15
      ensures slots[i].name != slots[j].name
    {
      assert Code(slots[i].name) == CODES[i] && Code(slots[j].name) == CODES[j];
    }
  }

  lemma SlotCodes(inline: bool, e: Evaluation, now: real)
    ensures var slots := FeatureSlots(inline, e, now);
      forall i :: 0 <= i < 15 ==> Code(slots[i].name) == CODES[i]
  {
    hide EventSpec.Field, ReasonJson, Tracks, AlwaysDetails, FlagField, TextOf, Mark;
  }

  lemma CodesDiffer()
    ensures forall i, j :: 0 <= i < j < 15 ==> CODES[i] != CODES[j]
  {
  }

  /** A field of the event made reads as it was set, and no other is there. */
  lemma EventReads(inline: bool, e: Evaluation, now: real)
    requires FeatureEvent(inline, e, now).Some?
    ensures
      var event, slots := FeatureEvent(inline, e, now).value, FeatureSlots(inline, e, now);
      && Plain(event)
      && (forall i :: 0 <= i < |slots| ==> Lookup(event, slots[i].name) == slots[i].value)
      && (forall name :: Lacks(slots, name) ==> Lookup(event, name) == None)
  {
    hide Members, FeatureSlots, Lookup, Lacks, Apart;
    var slots := FeatureSlots(inline, e, now);
    SlotsApart(inline, e, now);
    MembersDistinct(slots);
    forall i | 0 <= i < |slots|
      ensures Lookup(Object(Members(slots)), slots[i].name) == slots[i].value
    {
      SlotReads(slots, i);
    }
    forall name | Lacks(slots, name)
      ensures Lookup(Object(Members(slots)), name) == None
    {
      LackedReads(slots, name);
    }
  }

  lemma ReasonReads(why: Why)
    requires ReasonJson(why).Some?
    ensures Lookup(ReasonJson(why).value, "inExperiment") == Mark(InExperiment(why))
  {
    hide Members, Lookup;
    match why {
      case Decided(RuleMatch(i, id, inExperiment)) =>
        var slots := [
          Slot("kind", Some(Text("RULE_MATCH"))), Slot("ruleId", TextOf(id)),
          Slot("ruleIndex", Some(Number(i as real))), Slot("inExperiment", Mark(inExperiment))];
        assert forall k, l :: 0 <= k < l < |slots| ==> |slots[k].name| != |slots[l].name|;
        SlotReads(slots, 3);
      case Decided(Fallthrough(inExperiment)) =>
        var slots := [Slot("kind", Some(Text("FALLTHROUGH"))), Slot("inExperiment", Mark(inExperiment))];
        assert |slots[0].name| != |slots[1].name|;
        SlotReads(slots, 1);
      case _ => PlainReads(why);
    }
  }

  function ReasonName(reason: Reason): string {
    match reason
    case Unknown => ""
    case Off => "OFF"
    case PrerequisiteFailed(_) => "PREREQUISITE_FAILED"
    case TargetMatch => "TARGET_MATCH"
    case RuleMatch(_, _, _) => "RULE_MATCH"
    case Fallthrough(_) => "FALLTHROUGH"
    case MalformedFlag => "ERROR"
  }

  /** What a reason says: its kind, and what belongs to that kind. */
  lemma ReasonSays(why: Why)
    requires ReasonJson(why).Some?
    ensures var r := ReasonJson(why).value;
      match why
      case Failed(kind) => Lookup(r, "kind") == Some(Text("ERROR")) && Lookup(r, "errorKind") == TextOf(kind)
      case Decided(reason) =>
        && Lookup(r, "kind") == Some(Text(ReasonName(reason)))
        && (reason.MalformedFlag? ==> Lookup(r, "errorKind") == Some(Text("MALFORMED_FLAG")))
        && (reason.PrerequisiteFailed? ==> Lookup(r, "prerequisiteKey") == Some(Text(reason.key)))
        && (reason.RuleMatch? ==>
              Lookup(r, "ruleIndex") == Some(Number(reason.ruleIndex as real))
                && Lookup(r, "ruleId") == TextOf(reason.id))
  {
    hide Members, Lookup;
    match why {
      case Decided(RuleMatch(i, id, inExperiment)) =>
        var slots := [
          Slot("kind", Some(Text("RULE_MATCH"))), Slot("ruleId", TextOf(id)),
          Slot("ruleIndex", Some(Number(i as real))), Slot("inExperiment", Mark(inExperiment))];
        assert forall k, l :: 0 <= k < l < |slots| ==> |slots[k].name| != |slots[l].name|;
        SlotReads(slots, 0);
        SlotReads(slots, 1);
        SlotReads(slots, 2);
      case Decided(Fallthrough(inExperiment)) =>
        var slots := [Slot("kind", Some(Text("FALLTHROUGH"))), Slot("inExperiment", Mark(inExperiment))];
        assert |slots[0].name| != |slots[1].name|;
        SlotReads(slots, 0);
      case _ => PlainSays(why);
    }
  }

  lemma PlainSays(why: Why)
    requires ReasonJson(why).Some? && !(why.Decided? && (why.reason.RuleMatch? || why.reason.Fallthrough?))
    ensures var r := ReasonJson(why).value;
      && Lookup(r, "kind") == Some(Text(if why.Decided? then ReasonName(why.reason) else "ERROR"))
      && (why.Failed? ==> Lookup(r, "errorKind") == TextOf(why.kind))
      && (why == Decided(MalformedFlag) ==> Lookup(r, "errorKind") == Some(Text("MALFORMED_FLAG")))
      && (why.Decided? && why.reason.PrerequisiteFailed? ==> Lookup(r, "prerequisiteKey") == Some(Text(why.reason.key)))
  {
    hide Lookup, Members;
    PairReads(ReasonJson(why).value);
  }

  /** An object of one member, or of two with different keys, reads as it was written. */
  lemma PairReads(v: Json)
    requires v.Object? && 1 <= |v.members| <= 2 && (|v.members| == 2 ==> |v.members[0].key| != |v.members[1].key|)
    ensures Lookup(v, v.members[0].key) == Some(v.members[0].value)
    ensures |v.members| == 2 ==> Lookup(v, v.members[1].key) == Some(v.members[1].value)
  {
  }

  lemma PlainReads(why: Why)
    requires ReasonJson(why).Some? && !(why.Decided? && (why.reason.RuleMatch? || why.reason.Fallthrough?))
    ensures Lookup(ReasonJson(why).value, "inExperiment") == None
  {
    assert forall name | name in ["kind", "errorKind", "prerequisiteKey"] :: |name| != |"inExperiment"|;
    var members := ReasonJson(why).value.members;
    assert forall i :: 0 <= i < |members| ==> members[i].key in ["kind", "errorKind", "prerequisiteKey"];
    assert forall m :: m in members ==> m.key != "inExperiment";
  }

  // ------------------------------------------------------------- what is sent in full

  /** Marks steer the SDK and are not sent. */
  const MARKS := {"shouldAlwaysTrackDetails", "trackEvents", "debugEventsUntilDate"}

  predicate KeepsReason(event: Json, detailed: bool) {
    match EventSpec.Field(event, "shouldAlwaysTrackDetails")
    case Some(always) => always == Bool(true)
    case None => detailed
  }

  function Unmarked(event: Json, mark: string): Json {
    if EventSpec.Field(event, mark).Some? then Drop(event, mark) else event
  }

  /** The event without its reason, unless that is asked for. */
  function Kept(event: Json, detailed: bool): Json {
    if KeepsReason(event, detailed) then event else Drop(event, "reason")
  }

  /** The event without its marks, and without its reason unless asked for. */
  function Trimmed(event: Json, detailed: bool): Json {
    var kept := Unmarked(Kept(event, detailed), "shouldAlwaysTrackDetails");
    Unmarked(Unmarked(kept, "trackEvents"), "debugEventsUntilDate")
  }

  predicate Tracked(event: Json) {
    || (Lookup(event, "reason").Some? && SaysTrue(Lookup(event, "reason").value, "inExperiment"))
    || SaysTrue(event, "trackEvents")
  }

  /** Debugging has not ended, by this clock and by the server's. */
  predicate DebugDue(event: Json, now: real, serverTime: real) {
    match EventSpec.Field(event, "debugEventsUntilDate")
    case Some(Number(until)) => now < until && serverTime < until
    case _ => false
  }

  /** `convertToDebug`. */
  function Debug(event: Json, user: Json): Json {
    Put(Put(Drop(Drop(event, "kind"), "userKey"), "kind", Text("debug")), "user", user)
  }

  /** The events `LDi_possiblyQueueEvent` queues for one. */
  function Full(event: Json, detailed: bool, user: Json, now: real, serverTime: real): seq<Json> {
    var sent := Trimmed(event, detailed);
    (if DebugDue(event, now, serverTime) then [Debug(sent, user)] else [])
    + (if Tracked(event) then [sent] else [])
  }

  lemma UnmarkedReads(event: Json, mark: string, other: string)
    requires Plain(event)
    ensures Plain(Unmarked(event, mark))
    ensures Lookup(Unmarked(event, mark), other)
         == if other == mark && EventSpec.Field(event, mark).Some? then None else Lookup(event, other)
  {
    hide Drop, Lookup, Plain;
    DropReads(event, mark, other);
  }

  /** What a sent event says of a field. */
  function Sent(event: Json, detailed: bool, name: string): Option<Json> {
    if name in MARKS && EventSpec.Field(event, name).Some? then None
    else if name == "reason" && !KeepsReason(event, detailed) then None
    else Lookup(event, name)
  }

  lemma KeptReads(event: Json, detailed: bool, name: string)
    requires Plain(event)
    ensures Plain(Kept(event, detailed))
    ensures Lookup(Kept(event, detailed), name)
         == if name == "reason" && !KeepsReason(event, detailed) then None else Lookup(event, name)
  {
    hide Drop, Lookup, Plain;
    DropReads(event, "reason", name);
  }

  /** Taking marks off one by one, each is found as the event had it. */
  lemma MarksStay(event: Json, detailed: bool)
    requires Plain(event)
    ensures
      var kept := Kept(event, detailed);
      var one := Unmarked(kept, "shouldAlwaysTrackDetails");
      var two := Unmarked(one, "trackEvents");
      && Plain(kept) && Plain(one) && Plain(two)
      && EventSpec.Field(kept, "shouldAlwaysTrackDetails") == EventSpec.Field(event, "shouldAlwaysTrackDetails")
      && EventSpec.Field(one, "trackEvents") == EventSpec.Field(event, "trackEvents")
      && EventSpec.Field(two, "debugEventsUntilDate") == EventSpec.Field(event, "debugEventsUntilDate")
  {
    hide Lookup, Plain, Unmarked, Kept, KeepsReason;
    NamesDiffer();
    var kept := Kept(event, detailed);
    var one := Unmarked(kept, "shouldAlwaysTrackDetails");
    KeptReads(event, detailed, "shouldAlwaysTrackDetails");
    KeptReads(event, detailed, "trackEvents");
    KeptReads(event, detailed, "debugEventsUntilDate");
    UnmarkedReads(kept, "shouldAlwaysTrackDetails", "trackEvents");
    UnmarkedReads(kept, "shouldAlwaysTrackDetails", "debugEventsUntilDate");
    UnmarkedReads(one, "trackEvents", "debugEventsUntilDate");
  }

  /** Marks that are set are taken off, the reason is kept exactly when it is asked for,
      and nothing else changes. */
  lemma TrimmedReads(event: Json, detailed: bool, name: string)
    requires Plain(event)
    ensures Plain(Trimmed(event, detailed))
    ensures Lookup(Trimmed(event, detailed), name) == Sent(event, detailed, name)
  {
    hide Lookup, Plain, Unmarked, Kept, KeepsReason, EventSpec.Field;
    NamesDiffer();
    MarksStay(event, detailed);
    var kept := Kept(event, detailed);
    var one := Unmarked(kept, "shouldAlwaysTrackDetails");
    var two := Unmarked(one, "trackEvents");
    KeptReads(event, detailed, name);
    UnmarkedReads(kept, "shouldAlwaysTrackDetails", name);
    UnmarkedReads(one, "trackEvents", name);
    UnmarkedReads(two, "debugEventsUntilDate", name);
  }

  lemma FieldTrue(event: Json, name: string)
    ensures EventSpec.Field(event, name) == Some(Bool(true)) <==> SaysTrue(event, name)
  {
  }

  lemma NamesDiffer()
    ensures "reason" != "trackEvents" && "reason" != "shouldAlwaysTrackDetails" && "reason" != "debugEventsUntilDate"
    ensures "trackEvents" != "shouldAlwaysTrackDetails" && "trackEvents" != "debugEventsUntilDate"
    ensures "shouldAlwaysTrackDetails" != "debugEventsUntilDate"
  {
    assert |"reason"| == 6 && |"trackEvents"| == 11 && |"shouldAlwaysTrackDetails"| == 24
      && |"debugEventsUntilDate"| == 20;
  }

  /** A debug event says so, names the user in full, and otherwise says the same. */
  lemma DebugReads(event: Json, user: Json, name: string)
    requires Plain(event)
    ensures Plain(Debug(event, user))
    ensures Lookup(Debug(event, user), name)
         == if name == "kind" then Some(Text("debug"))
            else if name == "user" then Some(user)
            else if name == "userKey" then None
            else Lookup(event, name)
  {
    hide Drop, Put, Lookup, Plain;
    var one := Drop(event, "kind");
    var two := Drop(one, "userKey");
    var three := Put(two, "kind", Text("debug"));
    assert |"kind"| == 4 && |"user"| == 4 && |"userKey"| == 7 && "kind"[0] != "user"[0];
    DropReads(event, "kind", name);
    DropReads(one, "userKey", name);
    PutReads(two, "kind", Text("debug"), name);
    PutReads(three, "user", user, name);
  }

  // ------------------------------------------------------------- what the receiver learns

  /** What a full event says of an evaluation, and nothing else. */
  ghost function ReportSlots(inline: bool, e: Evaluation, created: real, detailed: bool, debug: bool): (r: seq<Slot>)
    requires e.flag.Some?
    ensures |r| == 12
  {
    [ Slot("creationDate", Some(Number(created))),
      Slot("kind", Some(Text(if debug then "debug" else "feature"))),
      Slot("user", if debug || inline then Some(e.userJson) else None),
      Slot("userKey", if debug || inline then None else Some(Text(e.user.key))),
      Slot("key", Some(Text(e.key))),
      Slot("variation", if e.variation.Some? then Some(Number(e.variation.value as real)) else None),
      Slot("value", e.value),
      Slot("default", e.fallback),
      Slot("prereqOf", TextOf(e.prereqOf)),
      Slot("version", FlagField(e.flag, "version")),
      Slot("reason", if detailed || CaseTracked(e.flag.value, e.why) then ReasonJson(e.why) else None),
      Slot("contextKind", if e.user.anonymous then Some(Text("anonymousUser")) else None) ]
  }

  ghost predicate Reports(j: Json, slots: seq<Slot>) {
    && (forall i :: 0 <= i < |slots| ==> Lookup(j, slots[i].name) == slots[i].value)
    && (forall name :: Lacks(slots, name) ==> Lookup(j, name) == None)
  }

  /** Where the reported fields stand among the fields made. */
  const FROM := [0, 1, 2, 3, 4, 5, 6, 7, 8, 9, 11, 14]

  lemma ReportNames(inline: bool, e: Evaluation, created: real, detailed: bool, debug: bool)
    requires e.flag.Some?
    ensures
      var made, told := FeatureSlots(inline, e, created), ReportSlots(inline, e, created, detailed, debug);
      && (forall i :: 0 <= i < 12 ==> told[i].name == made[FROM[i]].name)
      && made[10].name == "debugEventsUntilDate" && made[11].name == "reason" && made[12].name == "trackEvents"
      && made[13].name == "shouldAlwaysTrackDetails"
  {
    hide EventSpec.Field, ReasonJson, Tracks, AlwaysDetails, FlagField, TextOf, Mark;
  }

  /** All fields made are reported, except for the marks. */
  lemma AllButMarks(made: seq<Slot>, told: seq<Slot>)
    requires |made| == 15 && |told| == 12 && Apart(made)
    requires forall i :: 0 <= i < 12 ==> told[i].name == made[FROM[i]].name
    requires made[10].name == "debugEventsUntilDate" && made[11].name == "reason" && made[12].name == "trackEvents"
    requires made[13].name == "shouldAlwaysTrackDetails"
    ensures forall i :: 0 <= i < 12 ==> told[i].name !in MARKS && (told[i].name == "reason" <==> i == 10)
    ensures forall name :: Lacks(told, name) ==> Lacks(made, name) || name in MARKS
  {
    forall i | 0 <= i < 12
      ensures told[i].name !in MARKS && (told[i].name == "reason" <==> i == 10)
    {
      var k := FROM[i];
      assert k < 10 || k == 11 || k == 14;
      assert told[i].name == made[k].name;
    }
    forall name, i | Lacks(told, name) && 0 <= i < 15 && i != 10 && i != 12 && i != 13
      ensures made[i].name != name
    {
      var k := if i <= 9 then i else if i == 11 then 10 else 11;
      assert FROM[k] == i && told[k].name != name;
    }
  }

  /** What the event made says where trimming looks. */
  lemma MadeMarks(inline: bool, e: Evaluation, created: real)
    requires e.flag.Some? && FeatureEvent(inline, e, created).Some?
    ensures var event := FeatureEvent(inline, e, created).value;
      && Lookup(event, "reason") == ReasonJson(e.why)
      && Lookup(event, "trackEvents") == Mark(Tracks(e.flag.value, e.why))
      && Lookup(event, "shouldAlwaysTrackDetails") == Mark(AlwaysDetails(e.flag.value, e.why))
      && Lookup(event, "debugEventsUntilDate") == FlagField(e.flag, "debugEventsUntilDate")
      && forall mark :: mark in MARKS ==> EventSpec.Field(event, mark) == Lookup(event, mark)
  {
    hide ReasonJson, Tracks, AlwaysDetails, TextOf, Lookup, FeatureEvent;
    EventReads(inline, e, created);
    var slots := FeatureSlots(inline, e, created);
    assert slots[10].name == "debugEventsUntilDate" && slots[11].name == "reason";
    assert slots[12].name == "trackEvents" && slots[13].name == "shouldAlwaysTrackDetails";
  }

  lemma TrimmedReports(inline: bool, e: Evaluation, created: real, detailed: bool)
    requires e.flag.Some? && FeatureEvent(inline, e, created).Some?
    ensures var event := FeatureEvent(inline, e, created).value;
      && Plain(Trimmed(event, detailed))
      && Reports(Trimmed(event, detailed), ReportSlots(inline, e, created, detailed, false))
  {
    hide ReasonJson, Tracks, AlwaysDetails, FlagField, TextOf, Lookup, FeatureEvent, Trimmed, Lacks, Plain, Apart;
    hide EventSpec.Field;
    hide CaseTracked;
    TrackingIs(e.flag.value, e.why);
    var event := FeatureEvent(inline, e, created).value;
    var made, told := FeatureSlots(inline, e, created), ReportSlots(inline, e, created, detailed, false);
    EventReads(inline, e, created);
    MadeMarks(inline, e, created);
    ReportNames(inline, e, created, detailed, false);
    SlotsApart(inline, e, created);
    AllButMarks(made, told);
    TrimmedReads(event, detailed, "reason");
    forall i | 0 <= i < 12
      ensures Lookup(Trimmed(event, detailed), told[i].name) == told[i].value
    {
      TrimmedReads(event, detailed, told[i].name);
    }
    forall name | Lacks(told, name)
      ensures Lookup(Trimmed(event, detailed), name) == None
    {
      TrimmedReads(event, detailed, name);
    }
  }

  /** An evaluation of a known flag is sent in full exactly when the flag, the rule that
      matched or the fallthrough asks for it or it was part of an experiment, and as a debug
      event exactly while the flag's debugging lasts; each then reports what was served and
      none of the SDK's own marks. */
  lemma SentExactlyWhenAsked(inline: bool, e: Evaluation, created: real, detailed: bool, now: real, serverTime: real)
    requires e.flag.Some? && FeatureEvent(inline, e, created).Some?
    ensures
      var full := Full(FeatureEvent(inline, e, created).value, detailed, e.userJson, now, serverTime);
      var tracked := || Lookup(e.flag.value, "trackEvents") == Some(Bool(true))
                     || CaseTracked(e.flag.value, e.why) || InExperiment(e.why);
      var debug := DebugDue(e.flag.value, now, serverTime);
      && |full| == (if debug then 1 else 0) + (if tracked then 1 else 0)
      && (debug ==> Reports(full[0], ReportSlots(inline, e, created, detailed, true)))
      && (tracked ==> Reports(full[|full| - 1], ReportSlots(inline, e, created, detailed, false)))
  {
    hide ReasonJson, Tracks, AlwaysDetails, TextOf, Lookup, FeatureEvent, Trimmed, Debug, Reports;
    hide ReportSlots, InExperiment, CaseTracked;
    TrackingIs(e.flag.value, e.why);
    var event := FeatureEvent(inline, e, created).value;
    MadeMarks(inline, e, created);
    MadeReason(inline, e, created);
    ReasonReads(e.why);
    TrimmedReports(inline, e, created, detailed);
    DebugReports(inline, e, created, detailed, Trimmed(event, detailed));
  }

  lemma MadeReason(inline: bool, e: Evaluation, created: real)
    requires FeatureEvent(inline, e, created).Some?
    ensures ReasonJson(e.why).Some?
  {
  }

  lemma DebugReports(inline: bool, e: Evaluation, created: real, detailed: bool, sent: Json)
    requires e.flag.Some? && Plain(sent) && Reports(sent, ReportSlots(inline, e, created, detailed, false))
    ensures Reports(Debug(sent, e.userJson), ReportSlots(inline, e, created, detailed, true))
  {
    hide ReportSlots, Lookup, Debug, Plain;
    var plain := ReportSlots(inline, e, created, detailed, false);
    var told := ReportSlots(inline, e, created, detailed, true);
    DebugSlots(inline, e, created, detailed);
    forall i | 0 <= i < 12
      ensures Lookup(Debug(sent, e.userJson), told[i].name) == told[i].value
    {
      DebugReads(sent, e.userJson, told[i].name);
    }
    forall name | Lacks(told, name)
      ensures Lookup(Debug(sent, e.userJson), name) == None
    {
      DebugReads(sent, e.userJson, name);
      assert Lacks(plain, name);
      assert told[1].name != name && told[2].name != name;
    }
  }

  /** A debug event differs in its kind and in naming the user. */
  lemma DebugSlots(inline: bool, e: Evaluation, created: real, detailed: bool)
    requires e.flag.Some?
    ensures
      var plain := ReportSlots(inline, e, created, detailed, false);
      var told := ReportSlots(inline, e, created, detailed, true);
      && told[1] == Slot("kind", Some(Text("debug"))) && told[2] == Slot("user", Some(e.userJson))
      && told[3] == Slot("userKey", None)
      && (forall i :: 0 <= i < 12 ==> plain[i].name == told[i].name)
      && (forall i :: 0 <= i < 12 && i != 1 && i != 2 && i != 3 ==>
            plain[i] == told[i] && told[i].name != "kind" && told[i].name != "user" && told[i].name != "userKey")
  {
    hide EventSpec.Field, ReasonJson, Tracks, AlwaysDetails, FlagField, TextOf, Mark;
    var told, made := ReportSlots(inline, e, created, detailed, true), FeatureSlots(inline, e, created);
    ReportNames(inline, e, created, detailed, true);
    SlotsApart(inline, e, created);
    assert made[1].name == "kind" && made[2].name == "user" && made[3].name == "userKey";
    forall i | 0 <= i < 12 && i != 1 && i != 2 && i != 3
      ensures told[i].name != "kind" && told[i].name != "user" && told[i].name != "userKey"
    {
      assert told[i].name == made[FROM[i]].name && (FROM[i] > 3 || FROM[i] == 0);
    }
  }

  // ------------------------------------------------------------- prerequisites

  /** What is told of a prerequisite the evaluator recorded. */
  function OfPrerequisite(event: Event, user: User, userJson: Json): Evaluation {
    Evaluation(event.key, user, userJson, event.details.variation, event.value, None, event.prereqOf,
               Some(event.flag), Decided(event.details.reason))
  }

  ghost predicate Recordable(events: seq<Event>) {
    forall i :: 0 <= i < |events| ==> EventFieldsOk(events[i].flag) && !events[i].details.reason.Unknown?
  }

  /** Every prerequisite recorded by an evaluation without error has its event. */
  lemma PrerequisitesHaveEvents(
    lib: Library, store: Store, flag: Json, user: User, i: nat, inline: bool, userJson: Json, now: real)
    requires Ends(lib, store, flag, user) && !IsError(EvaluateFlag(lib, store, flag, user).status)
    requires i < |EvaluateFlag(lib, store, flag, user).events|
    ensures
      var event := EvaluateFlag(lib, store, flag, user).events[i];
      FeatureEvent(inline, OfPrerequisite(event, user, userJson), now).Some?
  {
    hide EvaluateFlag, Ends, EventFieldsOk, FeatureSlots;
    EventsRecordable(lib, store, flag, user);
  }

  lemma {:induction false} EventsRecordable(lib: Library, store: Store, flag: Json, user: User)
    requires Ends(lib, store, flag, user) && !IsError(EvaluateFlag(lib, store, flag, user).status)
    ensures Recordable(EvaluateFlag(lib, store, flag, user).events)
    ensures !EvaluateFlag(lib, store, flag, user).details.reason.Unknown?
    decreases Depth(lib, store, flag, user), 1, 0
  {
    hide EvaluateFlag, CheckPrerequisites, Ends, CheckEnds, Depth, CheckDepth, Targeting, Prerequisites;
    hide Recordable, EventFieldsOk;
    EvaluateUnfolds(lib, store, flag, user);
    ReasonKnown(lib, store, flag, user);
    if Early(flag).None? {
      CheckRecordable(lib, store, flag, Prerequisites(flag), user);
      var pre := CheckPrerequisites(lib, store, flag, Prerequisites(flag), user);
      EvaluateSpec.TargetingKeepsEvents(lib, store, flag, user, pre.events);
    } else {
      NoneRecordable();
    }
  }

  lemma NoneRecordable()
    ensures Recordable([])
  {
  }

  lemma ReasonKnown(lib: Library, store: Store, flag: Json, user: User)
    requires Ends(lib, store, flag, user) && !IsError(EvaluateFlag(lib, store, flag, user).status)
    ensures !EvaluateFlag(lib, store, flag, user).details.reason.Unknown?
  {
    hide EvaluateFlag, Ends, EvaluateSpec.FirstUnmet, EvaluateSpec.FirstTarget, EvaluateSpec.FirstRule;
    hide EvaluateSpec.Serves;
    hide EvaluateSpec.GivenReading, EvaluateSpec.FlagReads, Elements, Prerequisites, IsOn, Lookup;
    EvaluateSpec.EvaluationFollows(lib, store, flag, user);
  }

  lemma {:induction false} CheckRecordable(lib: Library, store: Store, flag: Json, entries: seq<Json>, user: User)
    requires CheckEnds(lib, store, flag, entries, user)
    requires !IsError(CheckPrerequisites(lib, store, flag, entries, user).status)
    ensures Recordable(CheckPrerequisites(lib, store, flag, entries, user).events)
    decreases CheckDepth(lib, store, flag, entries, user), 2, |entries|
  {
    hide EvaluateFlag, CheckPrerequisites, Ends, CheckEnds, Depth, CheckDepth, PrereqKey, EventFieldsOk, IsOn;
    hide RightVariation;
    if entries == [] {
      CheckNone(lib, store, flag, entries, user);
    } else {
      CheckUnfolds(lib, store, flag, entries, user);
      if PrereqKey(entries[0]).Some? && store.Get(Flag, PrereqKey(entries[0]).value).Item? {
        var key := PrereqKey(entries[0]).value;
        EventsRecordable(lib, store, store.flags[key], user);
        var sub := EvaluateFlag(lib, store, store.flags[key], user);
        if Judge(flag, entries[0], key, store.flags[key], sub).status == Match {
          CheckRecordable(lib, store, flag, entries[1..], user);
        }
      }
    }
  }

  // ------------------------------------------------------------- what the summary reads

  /** A value that is there and not null. */
  function NonNull(v: Option<Json>): Option<Json> { if v == Some(Null) then None else v }

  /** The variation told, as a number. */
  function VariationOf(e: Evaluation): Option<Json> {
    if e.variation.Some? then Some(Number(e.variation.value as real)) else None
  }

  /** What the summary keeps of an evaluation: the line of its variation and version, opened
      with the value it served, and its fallback. */
  function Shown(codec: NumberCodec, e: Evaluation, unknown: bool): EventSpec.Seen {
    var variation, version := VariationOf(e), FlagField(e.flag, "version");
    EventSpec.Seen(e.key, Print(codec, EventSpec.LineObject(variation, version), false, 0), NonNull(e.fallback),
                   EventSpec.Counter(1, NonNull(e.value), version, variation, unknown))
  }

  /** The summary reads off the event what the evaluation was. */
  lemma SeenIs(codec: NumberCodec, inline: bool, e: Evaluation, now: real, unknown: bool)
    requires FeatureEvent(inline, e, now).Some?
    ensures var event := FeatureEvent(inline, e, now).value;
      && Lookup(event, "key") == Some(Text(e.key)) && Lookup(event, "kind") == Some(Text("feature"))
      && EventSpec.SeenOf(codec, event, unknown) == Shown(codec, e, unknown)
  {
    hide Lookup, FeatureEvent, Print, EventSpec.LineObject, FlagField, EventSpec.Field;
    var event := FeatureEvent(inline, e, now).value;
    FieldsMade(inline, e, now);
    FieldReadsAs(event, "variation", VariationOf(e));
    FieldReadsAs(event, "value", e.value);
    FieldReadsAs(event, "default", e.fallback);
    FieldReadsAs(event, "version", FlagField(e.flag, "version"));
    FlagFieldIsNonNull(e.flag, "version");
  }

  lemma FieldsMade(inline: bool, e: Evaluation, now: real)
    requires FeatureEvent(inline, e, now).Some?
    ensures var event := FeatureEvent(inline, e, now).value;
      && Lookup(event, "key") == Some(Text(e.key)) && Lookup(event, "kind") == Some(Text("feature"))
      && Lookup(event, "variation") == VariationOf(e) && Lookup(event, "value") == e.value
      && Lookup(event, "default") == e.fallback && Lookup(event, "version") == FlagField(e.flag, "version")
  {
    hide ReasonJson, Tracks, AlwaysDetails, TextOf, Lookup, FeatureEvent, FlagField, Mark;
    EventReads(inline, e, now);
    var slots := FeatureSlots(inline, e, now);
    assert slots[1].name == "kind" && slots[4].name == "key" && slots[5].name == "variation";
    assert slots[6].name == "value" && slots[7].name == "default" && slots[9].name == "version";
  }

  lemma FieldReadsAs(event: Json, name: string, v: Option<Json>)
    requires Lookup(event, name) == v
    ensures EventSpec.Field(event, name) == NonNull(v)
  {
  }

  lemma FlagFieldIsNonNull(flag: Option<Json>, name: string)
    ensures NonNull(FlagField(flag, name)) == FlagField(flag, name)
    ensures FlagField(flag, name) == if flag.Some? then NonNull(Lookup(flag.value, name)) else None
  {
  }

  /** When an evaluation has an event: its reason has a name, and the fields of its flag
      that are copied have their types. */
  lemma EventMadeExactlyWhen(inline: bool, e: Evaluation, now: real)
    ensures FeatureEvent(inline, e, now).Some?
       <==> (e.why != Decided(Unknown) && e.why != Failed(None))
            && (e.flag.Some? ==> EvaluateSpec.EventReads(e.flag.value))
  {
    hide FeatureSlots, EvaluateSpec.EventReads, EventFieldsOk;
    if e.flag.Some? {
      EvaluateSpec.EventIs(e.flag.value);
    }
  }
}
