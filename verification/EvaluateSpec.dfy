/** What evaluation decides, and when it cannot fail. */
module EvaluateSpec {
  import opened Wrappers
  import opened JsonTree
  import opened FlagSchema
  import opened Matching
  import opened Evaluate
  import opened FlagMeaning

  // ------------------------------------------------------------- the declarative reading

  /** The fields a feature event copies have their types. */
  predicate EventReads(flag: Json) {
    && NumberIfAny(flag, "version") && NumberIfAny(flag, "debugEventsUntilDate")
    && BoolIfAny(flag, "trackEvents") && BoolIfAny(flag, "trackEventsFallthrough")
  }

  /** A prerequisite names a flag and the variation it must serve. */
  predicate EntryNames(entry: Json) { entry.Object? && HasText(entry, "key") && HasNumber(entry, "variation") }

  /** A prerequisite is met when it is stored, its evaluation returns without error and
      serves the variation asked for, not through its off variation, and its event can be
      recorded. */
  ghost predicate Met(lib: Library, store: Store, entry: Json, user: User) {
    && EntryNames(entry)
    && var key := Lookup(entry, "key").value.s;
    && (Flag, key) !in store.failing && key in store.flags
    && EventReads(store.flags[key]) && Ends(lib, store, store.flags[key], user)
    && var sub := EvaluateFlag(lib, store, store.flags[key], user);
    && sub.status == Match && sub.details.variation.Some?
    && sub.details.variation.value as real == Lookup(entry, "variation").value.n
  }

  ghost predicate FirstUnmet(lib: Library, store: Store, entries: seq<Json>, user: User, n: nat) {
    && n < |entries| && !Met(lib, store, entries[n], user)
    && forall i :: 0 <= i < n ==> Met(lib, store, entries[i], user)
  }

  /** The target lists the user. */
  predicate Targets(target: Json, user: User) { Text(user.key) in Items(target, "values") }

  ghost predicate FirstTarget(targets: seq<Json>, user: User, n: nat) {
    n < |targets| && Targets(targets[n], user) && forall i :: 0 <= i < n ==> !Targets(targets[i], user)
  }

  ghost predicate FirstRule(lib: Library, store: Store, rules: seq<Json>, user: User, n: nat) {
    && n < |rules| && RuleHolds(lib, store, rules[n], user)
    && forall i :: 0 <= i < n ==> !RuleHolds(lib, store, rules[i], user)
  }

  /** The index is that of a variation of the flag. */
  predicate Fits(flag: Json, index: Json) {
    index.Number? && index.n >= 0.0 && index.n.Floor < |Items(flag, "variations")|
  }

  /** The flag serves the variation `index` names. */
  ghost predicate Serves(flag: Json, index: Option<Json>, o: Outcome) {
    && index.Some? && Fits(flag, index.value)
    && var i := index.value.n.Floor;
    o.details.variation == Some(i) && o.value == Some(Items(flag, "variations")[i])
  }

  ghost predicate OffReading(flag: Json, o: Outcome) {
    && o.status == Miss && o.details.reason == Off && o.events == []
    && (if Missing(flag, "offVariation") then o.value == None && o.details.variation == None
        else Serves(flag, Lookup(flag, "offVariation"), o))
  }

  /** The flag serves what a rule or the fallthrough gives. */
  ghost predicate GivenReading(
      lib: Library, flag: Json, from: Option<Json>, user: User, inExperiment: bool, o: Outcome) {
    from.Some? && exists index ::
      Gives(lib, flag, from.value, user, index, inExperiment) && Serves(flag, Some(index), o)
  }

  ghost predicate RuleReading(lib: Library, flag: Json, rule: Json, n: nat, user: User, o: Outcome) {
    && o.status == Match && o.details.reason.RuleMatch? && o.details.reason.ruleIndex == n
    && o.details.reason.id == (if HasText(rule, "id") then Some(Lookup(rule, "id").value.s) else None)
    && GivenReading(lib, flag, Some(rule), user, o.details.reason.inExperiment, o)
  }

  ghost predicate FallthroughReading(lib: Library, flag: Json, user: User, o: Outcome) {
    && o.status == Match && o.details.reason.Fallthrough?
    && GivenReading(lib, flag, Lookup(flag, "fallthrough"), user, o.details.reason.inExperiment, o)
  }

  ghost predicate UnmetReading(flag: Json, entry: Json, o: Outcome) {
    && o.status == Miss && HasText(entry, "key")
    && o.details.reason == PrerequisiteFailed(Lookup(entry, "key").value.s)
    && Serves(flag, Lookup(flag, "offVariation"), o)
  }

  /** Off; else the first unmet prerequisite; else the first target; else the first
      rule; else the fallthrough. */
  ghost predicate Reading(lib: Library, store: Store, flag: Json, user: User, o: Outcome) {
    var entries, targets, rules := Items(flag, "prerequisites"), Items(flag, "targets"), Items(flag, "rules");
    if !True(flag, "on") then OffReading(flag, o)
    else if exists n: nat :: FirstUnmet(lib, store, entries, user, n) then
      exists n: nat :: FirstUnmet(lib, store, entries, user, n) && UnmetReading(flag, entries[n], o)
    else if exists n: nat :: FirstTarget(targets, user, n) then
      exists n: nat ::
        && FirstTarget(targets, user, n)
        && o.status == Match && o.details.reason == TargetMatch && Serves(flag, Lookup(targets[n], "variation"), o)
    else if exists n: nat :: FirstRule(lib, store, rules, user, n) then
      exists n: nat :: FirstRule(lib, store, rules, user, n) && RuleReading(lib, flag, rules[n], n, user, o)
    else FallthroughReading(lib, flag, user, o)
  }

  // ------------------------------------------------------------- what must have its type

  /** A prerequisite looked at names a flag that can be asked for, and where that is stored
      its evaluation has no error and its event can be recorded. */
  ghost predicate PrerequisiteReads(lib: Library, store: Store, entry: Json, user: User) {
    && EntryNames(entry)
    && var key := Lookup(entry, "key").value.s;
    && (Flag, key) !in store.failing
    && (key in store.flags ==>
          && EventReads(store.flags[key]) && Ends(lib, store, store.flags[key], user)
          && !IsError(EvaluateFlag(lib, store, store.flags[key], user).status))
  }

  ghost predicate AllMet(lib: Library, store: Store, entries: seq<Json>, user: User) {
    forall i :: 0 <= i < |entries| ==> Met(lib, store, entries[i], user)
  }

  /** Every prerequisite looked at: the first, and each behind those that are met. */
  ghost predicate PrerequisitesRead(lib: Library, store: Store, entries: seq<Json>, user: User) {
    forall i :: 0 <= i < |entries| && AllMet(lib, store, entries[..i], user) ==>
      PrerequisiteReads(lib, store, entries[i], user)
  }

  predicate TargetReads(target: Json) { target.Object? && ListIfAny(target, "values") }

  /** Every target looked at: each behind targets that do not list the user. */
  ghost predicate TargetsRead(targets: seq<Json>, user: User) {
    forall i :: 0 <= i < |targets| && (forall k :: 0 <= k < i ==> !Targets(targets[k], user)) ==>
      TargetReads(targets[i])
  }

  /** Every rule looked at: each behind rules that do not hold. */
  ghost predicate FlagRulesRead(lib: Library, store: Store, rules: seq<Json>, user: User) {
    forall i :: 0 <= i < |rules| && (forall k :: 0 <= k < i ==> !RuleHolds(lib, store, rules[k], user)) ==>
      rules[i].Object? && RuleReads(lib, store, rules[i], user)
  }

  ghost predicate GivenReads(lib: Library, flag: Json, from: Option<Json>, user: User) {
    && GiveReads(lib, flag, from, user)
    && forall index, inExperiment :: Gives(lib, flag, from.value, user, index, inExperiment) ==> Fits(flag, index)
  }

  ghost predicate TargetingReads(lib: Library, store: Store, flag: Json, user: User) {
    var targets, rules := Items(flag, "targets"), Items(flag, "rules");
    && ListIfAny(flag, "targets") && TargetsRead(targets, user)
    && (forall n: nat :: FirstTarget(targets, user, n) ==>
          HasNumber(targets[n], "variation") && Fits(flag, Lookup(targets[n], "variation").value))
    && ((forall n: nat :: !FirstTarget(targets, user, n)) ==>
          && ListIfAny(flag, "rules") && FlagRulesRead(lib, store, rules, user)
          && (forall n: nat :: FirstRule(lib, store, rules, user, n) ==>
                GivenReads(lib, flag, Some(rules[n]), user) && TextIfAny(rules[n], "id"))
          && ((forall n: nat :: !FirstRule(lib, store, rules, user, n)) ==>
                GivenReads(lib, flag, Lookup(flag, "fallthrough"), user)))
  }

  /** All that evaluating a flag looks at has its type and names what is there. */
  ghost predicate FlagReads(lib: Library, store: Store, flag: Json, user: User) {
    && flag.Object? && BoolIfAny(flag, "on")
    && if !True(flag, "on") then
         Missing(flag, "offVariation") || Fits(flag, Lookup(flag, "offVariation").value)
       else
         var entries := Items(flag, "prerequisites");
         && ListIfAny(flag, "prerequisites") && PrerequisitesRead(lib, store, entries, user)
         && (if AllMet(lib, store, entries, user) then TargetingReads(lib, store, flag, user)
             else Lookup(flag, "offVariation").Some? && Fits(flag, Lookup(flag, "offVariation").value))
  }

  // ------------------------------------------------------------- prerequisites

  lemma OnIs(flag: Json)
    ensures IsOn(flag) <==> True(flag, "on")
    ensures Prerequisites(flag) == Items(flag, "prerequisites")
  {
    FieldsRead(flag, "on");
    FieldsRead(flag, "prerequisites");
  }

  lemma OnlyOnFlagsMatch(lib: Library, store: Store, flag: Json, user: User)
    requires Ends(lib, store, flag, user)
    ensures EvaluateFlag(lib, store, flag, user).status == Match ==> IsOn(flag)
  {
    hide EvaluateFlag, Conclude, Prerequisites;
    EvaluateUnfolds(lib, store, flag, user);
  }

  lemma EntryIs(entry: Json)
    ensures PrereqKey(entry).Some? <==> EntryNames(entry)
    ensures EntryNames(entry) ==> PrereqKey(entry) == Some(Lookup(entry, "key").value.s)
  {
    FieldsRead(entry, "key");
    FieldsRead(entry, "variation");
  }

  lemma EventIs(flag: Json)
    ensures EventFieldsOk(flag) <==> EventReads(flag)
  {
    hide Lookup;
    FieldsRead(flag, "version");
    FieldsRead(flag, "debugEventsUntilDate");
    FieldsRead(flag, "trackEvents");
    FieldsRead(flag, "trackEventsFallthrough");
  }

  lemma RightIs(entry: Json, sub: Outcome)
    requires HasNumber(entry, "variation")
    ensures RightVariation(entry, sub)
       <==> sub.details.variation.Some? && sub.details.variation.value as real == Lookup(entry, "variation").value.n
  {
    FieldsRead(entry, "variation");
  }

  /** How many entries are examined: all, or up to and with the first unmet one. */
  ghost function Examined(lib: Library, store: Store, entries: seq<Json>, user: User): (n: nat)
    ensures n <= |entries|
  {
    if entries == [] then 0
    else if Met(lib, store, entries[0], user) then 1 + Examined(lib, store, entries[1..], user)
    else 1
  }

  /** Prerequisites pass exactly when all are met, fail at the first that is not, and err
      exactly when one looked at does not read. */
  lemma {:induction false} PrerequisitesDecide(lib: Library, store: Store, flag: Json, entries: seq<Json>, user: User)
    requires CheckEnds(lib, store, flag, entries, user)
    ensures
      var pre := CheckPrerequisites(lib, store, flag, entries, user);
      && (IsError(pre.status) <==> !PrerequisitesRead(lib, store, entries, user))
      && (!IsError(pre.status) ==>
            && (pre.status == Match <==> AllMet(lib, store, entries, user))
            && (pre.status == Miss ==>
                  var n := Examined(lib, store, entries, user) - 1;
                  n >= 0 && FirstUnmet(lib, store, entries, user, n)
                  && HasText(entries[n], "key") && pre.failedKey == Lookup(entries[n], "key").value.s))
    decreases |entries|
  {
    hide CheckPrerequisites, Lookup, FirstUnmet, CheckEnds, Met, Examined, PrerequisiteReads;
    if entries == [] {
      CheckNone(lib, store, flag, entries, user);
    } else {
      CheckFirst(lib, store, flag, entries, user);
      PrerequisitesStep(lib, store, entries, user);
      if Met(lib, store, entries[0], user) {
        PrerequisitesDecide(lib, store, flag, entries[1..], user);
        MetStep(lib, store, entries, user);
      } else {
        UnmetStep(lib, store, entries, user);
      }
    }
  }

  /** What kind of error a prerequisite is that does not read: the store's, that of its own
      evaluation, an event that cannot be made, or a wrong shape. */
  ghost function ErrorOf(lib: Library, store: Store, entry: Json, user: User): Status {
    if !EntryNames(entry) then Schema
    else
      var key := Lookup(entry, "key").value.s;
      if (Flag, key) in store.failing then StoreFailure
      else if key in store.flags && Ends(lib, store, store.flags[key], user)
              && IsError(EvaluateFlag(lib, store, store.flags[key], user).status)
      then EvaluateFlag(lib, store, store.flags[key], user).status
      else Memory
  }

  lemma {:induction false} PrerequisiteErrs(lib: Library, store: Store, flag: Json, entries: seq<Json>, user: User)
    requires CheckEnds(lib, store, flag, entries, user)
    requires IsError(CheckPrerequisites(lib, store, flag, entries, user).status)
    ensures
      var n := Examined(lib, store, entries, user) - 1;
      n >= 0 && CheckPrerequisites(lib, store, flag, entries, user).status == ErrorOf(lib, store, entries[n], user)
    decreases |entries|
  {
    hide CheckPrerequisites, Lookup, CheckEnds, Met, EvaluateFlag, PrereqKey, EventFieldsOk, IsOn, FlagKey, Ends;
    hide PrerequisiteReads, RightVariation, Depth, CheckDepth;
    if entries == [] {
      CheckNone(lib, store, flag, entries, user);
    } else {
      CheckFirst(lib, store, flag, entries, user);
      if Met(lib, store, entries[0], user) {
        FirstPasses(lib, store, flag, entries, user);
        PrerequisiteErrs(lib, store, flag, entries[1..], user);
        assert entries[1..][Examined(lib, store, entries[1..], user) - 1]
            == entries[Examined(lib, store, entries, user) - 1];
      } else {
        EntryIs(entries[0]);
        CheckUnfolds(lib, store, flag, entries, user);
        if PrereqKey(entries[0]).Some? && store.Get(Flag, PrereqKey(entries[0]).value).Item? {
          MetIsJudged(lib, store, flag, entries[0], user);
        }
      }
    }
  }

  lemma FirstPasses(lib: Library, store: Store, flag: Json, entries: seq<Json>, user: User)
    requires CheckEnds(lib, store, flag, entries, user) && entries != [] && Met(lib, store, entries[0], user)
    ensures CheckEnds(lib, store, flag, entries[1..], user)
    ensures CheckPrerequisites(lib, store, flag, entries, user).status
         == CheckPrerequisites(lib, store, flag, entries[1..], user).status
  {
    hide CheckPrerequisites, CheckEnds, Met, EvaluateFlag, PrereqKey, EventFieldsOk, IsOn, FlagKey, Ends;
    hide RightVariation;
    CheckUnfolds(lib, store, flag, entries, user);
    MetIsStored(lib, store, entries[0], user);
    MetIsJudged(lib, store, flag, entries[0], user);
  }

  lemma PrerequisitesStep(lib: Library, store: Store, entries: seq<Json>, user: User)
    requires entries != []
    ensures AllMet(lib, store, entries, user)
       <==> Met(lib, store, entries[0], user) && AllMet(lib, store, entries[1..], user)
    ensures PrerequisitesRead(lib, store, entries, user)
       <==> PrerequisiteReads(lib, store, entries[0], user)
            && (Met(lib, store, entries[0], user) ==> PrerequisitesRead(lib, store, entries[1..], user))
  {
    hide Met, PrerequisiteReads;
    var first, rest := entries[0], entries[1..];
    assert forall i :: 1 <= i < |entries| ==> entries[i] == rest[i - 1];
    forall i | 1 <= i <= |entries|
      ensures AllMet(lib, store, entries[..i], user)
         <==> Met(lib, store, first, user) && AllMet(lib, store, rest[..i - 1], user)
    {
      assert forall k :: 1 <= k < i ==> entries[..i][k] == rest[..i - 1][k - 1];
      assert entries[..i][0] == first;
      if AllMet(lib, store, entries[..i], user) {
        assert forall k :: 0 <= k < i ==> Met(lib, store, entries[..i][k], user);
        assert forall k :: 0 <= k < i - 1 ==> rest[k] == entries[..i][k + 1];
      }
    }
    assert AllMet(lib, store, entries[..0], user);
    assert entries[..|entries|] == entries && rest[..|rest|] == rest;
    if PrerequisitesRead(lib, store, entries, user) && Met(lib, store, first, user) {
      forall i | 0 <= i < |rest| && AllMet(lib, store, rest[..i], user)
        ensures PrerequisiteReads(lib, store, rest[i], user)
      {
        assert AllMet(lib, store, entries[..i + 1], user);
        assert PrerequisiteReads(lib, store, entries[i + 1], user);
      }
    }
    if PrerequisitesRead(lib, store, rest, user) {
      forall i | 1 <= i < |entries| && AllMet(lib, store, entries[..i], user)
        ensures PrerequisiteReads(lib, store, entries[i], user)
      {
        assert PrerequisiteReads(lib, store, rest[i - 1], user);
      }
    }
  }

  /** Going on behind an entry means it is met, and an error that it does not read. */
  lemma MetIsJudged(lib: Library, store: Store, flag: Json, entry: Json, user: User)
    requires PrereqKey(entry).Some? && store.Get(Flag, PrereqKey(entry).value).Item?
    requires Ends(lib, store, store.flags[PrereqKey(entry).value], user)
    ensures
      var key := PrereqKey(entry).value;
      var judged := Judge(flag, entry, key, store.flags[key], EvaluateFlag(lib, store, store.flags[key], user));
      && (Met(lib, store, entry, user) <==> judged.status == Match)
      && (PrerequisiteReads(lib, store, entry, user) <==> !IsError(judged.status))
  {
    hide EvaluateFlag, RightVariation, EventFieldsOk, IsOn, FlagKey, PrereqKey, Ends, EventReads, Lookup;
    EntryIs(entry);
    var preflag := store.flags[PrereqKey(entry).value];
    OnlyOnFlagsMatch(lib, store, preflag, user);
    EventIs(preflag);
    RightIs(entry, EvaluateFlag(lib, store, preflag, user));
  }

  /** What the first entry decides, and the events it leaves. */
  lemma CheckFirst(lib: Library, store: Store, flag: Json, entries: seq<Json>, user: User)
    requires CheckEnds(lib, store, flag, entries, user) && entries != []
    ensures Met(lib, store, entries[0], user) ==>
      && CheckEnds(lib, store, flag, entries[1..], user)
      && CheckDepth(lib, store, flag, entries[1..], user) <= CheckDepth(lib, store, flag, entries, user)
      && PrerequisiteReads(lib, store, entries[0], user)
    ensures IsError(CheckPrerequisites(lib, store, flag, entries, user).status)
       <==> !PrerequisiteReads(lib, store, entries[0], user)
            || (Met(lib, store, entries[0], user)
                && IsError(CheckPrerequisites(lib, store, flag, entries[1..], user).status))
    ensures !IsError(CheckPrerequisites(lib, store, flag, entries, user).status) ==>
      var pre := CheckPrerequisites(lib, store, flag, entries, user);
      && HasText(entries[0], "key")
      && if Met(lib, store, entries[0], user) then
           var rest := CheckPrerequisites(lib, store, flag, entries[1..], user);
           && pre.status == rest.status && pre.failedKey == rest.failedKey
           && pre.events == Recorded(lib, store, flag, entries[0], user) + rest.events
         else
           && pre.status == Miss && pre.failedKey == Lookup(entries[0], "key").value.s
           && pre.events == Recorded(lib, store, flag, entries[0], user)
  {
    hide EvaluateFlag, CheckPrerequisites, RightVariation, EventFieldsOk, IsOn, FlagKey, PrereqKey, Ends;
    hide CheckEnds, Depth, CheckDepth, Met, Lookup, PrerequisiteReads;
    CheckUnfolds(lib, store, flag, entries, user);
    EntryIs(entries[0]);
    if PrereqKey(entries[0]).Some? && store.Get(Flag, PrereqKey(entries[0]).value).Item? {
      MetIsJudged(lib, store, flag, entries[0], user);
    } else {
      MetIsStored(lib, store, entries[0], user);
    }
  }

  lemma MetIsStored(lib: Library, store: Store, entry: Json, user: User)
    ensures Met(lib, store, entry, user) ==>
      PrereqKey(entry).Some? && store.Get(Flag, PrereqKey(entry).value).Item?
    ensures PrereqKey(entry).None? ==> !PrerequisiteReads(lib, store, entry, user)
    ensures PrereqKey(entry).Some? && !store.Get(Flag, PrereqKey(entry).value).Item? ==>
      (PrerequisiteReads(lib, store, entry, user) <==> store.Get(Flag, PrereqKey(entry).value).Absent?)
  {
    hide Lookup, PrereqKey, EvaluateFlag, Ends;
    EntryIs(entry);
  }

  /** The key a flag gives as its own. */
  function OwnKey(flag: Json): Option<string> {
    if HasText(flag, "key") then Some(Lookup(flag, "key").value.s) else None
  }

  /** The events of an entry, read off the evaluator. */
  ghost function Recorded(lib: Library, store: Store, parent: Json, entry: Json, user: User): seq<Event> {
    match PrereqKey(entry)
    case None => []
    case Some(key) =>
      match store.Get(Flag, key)
      case Item(preflag) =>
        if !Ends(lib, store, preflag, user) then []
        else
          var sub := EvaluateFlag(lib, store, preflag, user);
          sub.events + [Event(key, sub.value, FlagKey(parent), preflag, sub.details)]
      case _ => []
  }

  lemma MetStep(lib: Library, store: Store, entries: seq<Json>, user: User)
    requires entries != [] && Met(lib, store, entries[0], user)
    ensures Examined(lib, store, entries, user) == 1 + Examined(lib, store, entries[1..], user)
    ensures forall n: nat :: FirstUnmet(lib, store, entries[1..], user, n)
              ==> FirstUnmet(lib, store, entries, user, n + 1) && entries[n + 1] == entries[1..][n]
  {
    hide Met;
    assert forall i :: 1 <= i < |entries| ==> entries[i] == entries[1..][i - 1];
  }

  lemma UnmetStep(lib: Library, store: Store, entries: seq<Json>, user: User)
    requires entries != [] && !Met(lib, store, entries[0], user)
    ensures Examined(lib, store, entries, user) == 1 && FirstUnmet(lib, store, entries, user, 0)
  {
    hide Met;
  }

  // ------------------------------------------------------------- the order of events

  /** The prerequisites examined for a flag, each after its own: a walk of the flags that
      asks of evaluation only what each of them serves. */
  ghost function PostOrder(lib: Library, store: Store, flag: Json, user: User): seq<Event>
    requires Ends(lib, store, flag, user)
    decreases Depth(lib, store, flag, user), 1, 0
  {
    if Early(flag).Some? then []
    else
      EvaluateUnfolds(lib, store, flag, user);
      PostEntries(lib, store, flag, Prerequisites(flag), user)
  }

  /** Up to and with the first entry that is not met. */
  ghost function PostEntries(lib: Library, store: Store, parent: Json, entries: seq<Json>, user: User): seq<Event>
    requires CheckEnds(lib, store, parent, entries, user)
    decreases CheckDepth(lib, store, parent, entries, user), 2, |entries|
  {
    if entries == [] then []
    else
      CheckFirst(lib, store, parent, entries, user);
      PostEntry(lib, store, parent, entries, user)
      + if Met(lib, store, entries[0], user) then PostEntries(lib, store, parent, entries[1..], user) else []
  }

  /** A prerequisite's own prerequisites, then its event, naming its parent. */
  ghost function PostEntry(lib: Library, store: Store, parent: Json, entries: seq<Json>, user: User): seq<Event>
    requires CheckEnds(lib, store, parent, entries, user) && entries != []
    decreases CheckDepth(lib, store, parent, entries, user), 2, 0
  {
    if !EntryNames(entries[0]) then []
    else
      var key := Lookup(entries[0], "key").value.s;
      if (Flag, key) in store.failing || key !in store.flags then []
      else
        EntryIs(entries[0]);
        CheckUnfolds(lib, store, parent, entries, user);
        var sub := EvaluateFlag(lib, store, store.flags[key], user);
        PostOrder(lib, store, store.flags[key], user)
        + [Event(key, sub.value, OwnKey(parent), store.flags[key], sub.details)]
  }

  /** For every evaluation without error, the events recorded are the post-order walk of
      the prerequisites examined, with nothing after the first unmet one. */
  lemma {:induction false} EventsArePostOrder(lib: Library, store: Store, flag: Json, user: User)
    requires Ends(lib, store, flag, user) && !IsError(EvaluateFlag(lib, store, flag, user).status)
    ensures EvaluateFlag(lib, store, flag, user).events == PostOrder(lib, store, flag, user)
    decreases Depth(lib, store, flag, user), 1, 0
  {
    hide CheckPrerequisites, PostEntries, Depth, CheckDepth, Targeting, Elements, EvaluateFlag, Prerequisites;
    hide Ends, CheckEnds;
    EvaluateUnfolds(lib, store, flag, user);
    if Early(flag).None? {
      CheckIsPostOrder(lib, store, flag, Prerequisites(flag), user);
      TargetingKeepsEvents(lib, store, flag, user,
        CheckPrerequisites(lib, store, flag, Prerequisites(flag), user).events);
    }
  }

  lemma OwnKeyIs(flag: Json)
    ensures FlagKey(flag) == OwnKey(flag)
  {
  }

  lemma TargetingKeepsEvents(lib: Library, store: Store, flag: Json, user: User, events: seq<Event>)
    ensures Targeting(lib, store, flag, user, events).events == events
  {
    hide Choose, FindTarget, FindRule, Elements, ValidIndex, Optional, Required, Lookup;
  }

  lemma {:induction false} CheckIsPostOrder(lib: Library, store: Store, flag: Json, entries: seq<Json>, user: User)
    requires CheckEnds(lib, store, flag, entries, user)
    requires !IsError(CheckPrerequisites(lib, store, flag, entries, user).status)
    ensures CheckPrerequisites(lib, store, flag, entries, user).events == PostEntries(lib, store, flag, entries, user)
    decreases CheckDepth(lib, store, flag, entries, user), 2, |entries|
  {
    hide CheckPrerequisites, EvaluateFlag, PostOrder, PostEntry, CheckDepth, CheckEnds, Met, PrereqKey, Recorded;
    if entries == [] {
      CheckNone(lib, store, flag, entries, user);
    } else {
      CheckFirst(lib, store, flag, entries, user);
      EntryIsPostOrder(lib, store, flag, entries, user);
      if Met(lib, store, entries[0], user) {
        CheckIsPostOrder(lib, store, flag, entries[1..], user);
      }
    }
  }

  lemma {:induction false} EntryIsPostOrder(lib: Library, store: Store, flag: Json, entries: seq<Json>, user: User)
    requires CheckEnds(lib, store, flag, entries, user) && entries != []
    requires !IsError(CheckPrerequisites(lib, store, flag, entries, user).status)
    ensures Recorded(lib, store, flag, entries[0], user) == PostEntry(lib, store, flag, entries, user)
    decreases CheckDepth(lib, store, flag, entries, user), 2, 0
  {
    hide CheckPrerequisites, EvaluateFlag, PostOrder, Depth, CheckDepth, Ends, CheckEnds, PrereqKey, FlagKey;
    hide EventFieldsOk, RightVariation, IsOn;
    CheckUnfolds(lib, store, flag, entries, user);
    EntryIs(entries[0]);
    OwnKeyIs(flag);
    if PrereqKey(entries[0]).Some? && store.Get(Flag, PrereqKey(entries[0]).value).Item? {
      EventsArePostOrder(lib, store, store.flags[PrereqKey(entries[0]).value], user);
    }
  }

  // ------------------------------------------------------------- targets, rules, fallthrough

  /** The target loop finds the first target listing the user, and errs exactly when one
      looked at does not read. */
  lemma {:induction false} TargetsDecide(targets: seq<Json>, from: nat, user: User)
    requires from <= |targets|
    requires forall i :: 0 <= i < from ==> !Targets(targets[i], user) && TargetReads(targets[i])
    ensures FindTarget(targets, from, user).Broken? <==> !TargetsRead(targets, user)
    ensures match FindTarget(targets, from, user)
            case Here(n) => FirstTarget(targets, user, n)
            case Nowhere => forall n: nat :: !FirstTarget(targets, user, n)
            case _ => true
    decreases |targets| - from
  {
    hide Lookup;
    if from < |targets| {
      FieldsRead(targets[from], "values");
      if TargetReads(targets[from]) && !Targets(targets[from], user) {
        TargetsDecide(targets, from + 1, user);
      }
    }
  }

  /** The rule loop finds the first rule that holds, and errs exactly when one looked at
      does not read. */
  lemma {:induction false} RulesDecide(lib: Library, store: Store, rules: seq<Json>, from: nat, user: User)
    requires from <= |rules|
    requires forall i :: 0 <= i < from ==>
      !RuleHolds(lib, store, rules[i], user) && rules[i].Object? && RuleReads(lib, store, rules[i], user)
    ensures FindRule(lib, store, rules, from, user).Broken? <==> !FlagRulesRead(lib, store, rules, user)
    ensures match FindRule(lib, store, rules, from, user)
            case Here(n) => FirstRule(lib, store, rules, user, n)
            case Nowhere => forall n: nat :: !FirstRule(lib, store, rules, user, n)
            case _ => true
    decreases |rules| - from
  {
    hide RuleHolds, RuleReads, RuleMatches;
    if from < |rules| {
      RuleIs(lib, store, rules[from], user);
      if rules[from].Object? && RuleReads(lib, store, rules[from], user) && !RuleHolds(lib, store, rules[from], user) {
        RulesDecide(lib, store, rules, from + 1, user);
      }
    }
  }

  lemma IndexIs(flag: Json, index: Option<Json>)
    ensures ValidIndex(flag, index).Some? <==> index.Some? && Fits(flag, index.value)
    ensures ValidIndex(flag, index).Some? ==> ValidIndex(flag, index).value == index.value.n.Floor
  {
    FieldsRead(flag, "variations");
  }

  lemma ServeIs(flag: Json, index: Option<Json>, reason: Reason, status: Status, events: seq<Event>)
    requires !IsError(status)
    ensures
      var o := Serve(flag, index, reason, status, events);
      && (IsError(o.status) <==> !(index.Some? && Fits(flag, index.value)))
      && (!IsError(o.status) ==> o.status == status && o.details.reason == reason && Serves(flag, index, o))
  {
    hide ValidIndex, Lookup;
    IndexIs(flag, index);
    FieldsRead(flag, "variations");
  }

  lemma GivenOnce(lib: Library, flag: Json, from: Option<Json>, user: User, choice: Choice)
    requires choice.Choice? && Choose(lib, flag, from, user) == choice
    ensures from.Some? && GiveReads(lib, flag, from, user)
    ensures forall index, inExperiment :: Gives(lib, flag, from.value, user, index, inExperiment)
                                     <==> index == choice.index && inExperiment == choice.inExperiment
  {
    hide Choose, Gives, GiveReads;
    ChooseIs(lib, flag, from, user, choice.index, choice.inExperiment);
    Named(lib, flag, from, user);
    forall index, inExperiment
      ensures Gives(lib, flag, from.value, user, index, inExperiment)
         <==> index == choice.index && inExperiment == choice.inExperiment
    {
      ChooseIs(lib, flag, from, user, index, inExperiment);
    }
  }

  lemma Named(lib: Library, flag: Json, from: Option<Json>, user: User)
    ensures GiveReads(lib, flag, from, user) ==> from.Some?
  {
  }

  /** What is given serves exactly when its index fits. */
  lemma GivenIs(lib: Library, flag: Json, from: Option<Json>, user: User, choice: Choice)
    requires choice.Choice? && Choose(lib, flag, from, user) == choice
    ensures from.Some? && (GivenReads(lib, flag, from, user) <==> Fits(flag, choice.index))
    ensures forall o :: Serves(flag, Some(choice.index), o) ==>
      GivenReading(lib, flag, from, user, choice.inExperiment, o)
  {
    hide Choose, Gives, GiveReads, Serves, Fits;
    GivenOnce(lib, flag, from, user, choice);
    assert Gives(lib, flag, from.value, user, choice.index, choice.inExperiment);
  }

  lemma RuleServes(lib: Library, flag: Json, rule: Json, i: nat, user: User, events: seq<Event>)
    ensures
      var o := ServeRule(lib, flag, rule, i, user, events);
      && (IsError(o.status) <==> !(GivenReads(lib, flag, Some(rule), user) && TextIfAny(rule, "id")))
      && (!IsError(o.status) ==> RuleReading(lib, flag, rule, i, user, o))
  {
    hide Choose, GivenReads, GivenReading, GiveReads, Serve, Lookup, Serves, Fits;
    FieldsRead(rule, "id");
    var choice := Choose(lib, flag, Some(rule), user);
    if choice.Choice? {
      GivenIs(lib, flag, Some(rule), user, choice);
      ServeIs(flag, Some(choice.index), RuleMatch(i, None, choice.inExperiment), Match, events);
      var served := Serve(flag, Some(choice.index), RuleMatch(i, None, choice.inExperiment), Match, events);
      var o := ServeRule(lib, flag, rule, i, user, events);
      if !IsError(served.status) {
        SameServes(flag, Some(choice.index), served, o);
      }
    } else {
      NotGiven(lib, flag, Some(rule), user);
    }
  }

  lemma NotGiven(lib: Library, flag: Json, from: Option<Json>, user: User)
    requires Choose(lib, flag, from, user).NoChoice?
    ensures !GivenReads(lib, flag, from, user)
  {
    hide Choose, Gives, GiveReads, Fits;
    ChooseIs(lib, flag, from, user, Null, false);
  }

  lemma SameServes(flag: Json, index: Option<Json>, a: Outcome, b: Outcome)
    requires a.details.variation == b.details.variation && a.value == b.value
    ensures Serves(flag, index, a) <==> Serves(flag, index, b)
  {
  }

  lemma FallthroughServes(lib: Library, flag: Json, user: User, events: seq<Event>)
    ensures
      var from := Lookup(flag, "fallthrough");
      match Choose(lib, flag, from, user)
      case NoChoice => !GivenReads(lib, flag, from, user)
      case Choice(index, inExperiment) =>
        var o := Serve(flag, Some(index), Fallthrough(inExperiment), Match, events);
        && (IsError(o.status) <==> !GivenReads(lib, flag, from, user))
        && (!IsError(o.status) ==> FallthroughReading(lib, flag, user, o))
  {
    hide Choose, GivenReads, GivenReading, GiveReads, Serve, Lookup, Serves, Fits;
    var from := Lookup(flag, "fallthrough");
    var choice := Choose(lib, flag, from, user);
    if choice.Choice? {
      GivenIs(lib, flag, from, user, choice);
      ServeIs(flag, Some(choice.index), Fallthrough(choice.inExperiment), Match, events);
    } else {
      NotGiven(lib, flag, from, user);
    }
  }

  lemma FirstTargetOnce(targets: seq<Json>, user: User, n: nat, m: nat)
    requires FirstTarget(targets, user, n) && FirstTarget(targets, user, m)
    ensures n == m
  {
  }

  lemma FirstRuleOnce(lib: Library, store: Store, rules: seq<Json>, user: User, n: nat, m: nat)
    requires FirstRule(lib, store, rules, user, n) && FirstRule(lib, store, rules, user, m)
    ensures n == m
  {
    hide RuleHolds;
  }

  /** What is served once the prerequisites are met. */
  ghost predicate TargetingReading(lib: Library, store: Store, flag: Json, user: User, o: Outcome) {
    var targets, rules := Items(flag, "targets"), Items(flag, "rules");
    if exists n: nat :: FirstTarget(targets, user, n) then
      exists n: nat ::
        && FirstTarget(targets, user, n)
        && o.status == Match && o.details.reason == TargetMatch && Serves(flag, Lookup(targets[n], "variation"), o)
    else if exists n: nat :: FirstRule(lib, store, rules, user, n) then
      exists n: nat :: FirstRule(lib, store, rules, user, n) && RuleReading(lib, flag, rules[n], n, user, o)
    else FallthroughReading(lib, flag, user, o)
  }

  lemma TargetFollows(lib: Library, store: Store, flag: Json, user: User, events: seq<Event>, n: nat)
    requires ListIfAny(flag, "targets") && FindTarget(Items(flag, "targets"), 0, user) == Here(n)
    ensures
      var o := Targeting(lib, store, flag, user, events);
      && (IsError(o.status) <==> !TargetingReads(lib, store, flag, user))
      && (!IsError(o.status) ==> TargetingReading(lib, store, flag, user, o))
  {
    hide Lookup, FindTarget, FindRule, Choose, Serve, Serves, Fits, FirstTarget, FirstRule, TargetsRead;
    var targets := Items(flag, "targets");
    FieldsRead(flag, "targets");
    TargetsDecide(targets, 0, user);
    FieldsRead(targets[n], "variation");
    ServeIs(flag, Lookup(targets[n], "variation"), TargetMatch, Match, events);
    forall m: nat | FirstTarget(targets, user, m)
      ensures m == n
    {
      FirstTargetOnce(targets, user, n, m);
    }
  }

  lemma RuleFollows(lib: Library, store: Store, flag: Json, user: User, events: seq<Event>)
    requires ListIfAny(flag, "targets") && FindTarget(Items(flag, "targets"), 0, user).Nowhere?
    requires ListIfAny(flag, "rules") && FindRule(lib, store, Items(flag, "rules"), 0, user).Here?
    ensures
      var o := Targeting(lib, store, flag, user, events);
      && (IsError(o.status) <==> !TargetingReads(lib, store, flag, user))
      && (!IsError(o.status) ==> TargetingReading(lib, store, flag, user, o))
  {
    hide Lookup, FindTarget, FindRule, ServeRule, RuleReading, FirstTarget, FirstRule, TargetsRead;
    hide FlagRulesRead, GivenReads;
    var targets, rules := Items(flag, "targets"), Items(flag, "rules");
    FieldsRead(flag, "targets");
    FieldsRead(flag, "rules");
    TargetsDecide(targets, 0, user);
    RulesDecide(lib, store, rules, 0, user);
    var n := FindRule(lib, store, rules, 0, user).index;
    RuleServes(lib, flag, rules[n], n, user, events);
    forall m: nat | FirstRule(lib, store, rules, user, m)
      ensures m == n
    {
      FirstRuleOnce(lib, store, rules, user, n, m);
    }
  }

  /** Past the prerequisites, evaluation reads as specified and errs exactly when what it
      looks at does not read. */
  lemma TargetingFollows(lib: Library, store: Store, flag: Json, user: User, events: seq<Event>)
    ensures
      var o := Targeting(lib, store, flag, user, events);
      && (IsError(o.status) <==> !TargetingReads(lib, store, flag, user))
      && (!IsError(o.status) ==> TargetingReading(lib, store, flag, user, o))
  {
    hide Lookup, FindTarget, FindRule, Choose, Serve, FirstTarget, FirstRule, TargetsRead, FlagRulesRead, GivenReads;
    hide FallthroughReading;
    var targets, rules := Items(flag, "targets"), Items(flag, "rules");
    FieldsRead(flag, "targets");
    FieldsRead(flag, "rules");
    TargetsDecide(targets, 0, user);
    if ListIfAny(flag, "targets") && FindTarget(targets, 0, user).Here? {
      TargetFollows(lib, store, flag, user, events, FindTarget(targets, 0, user).index);
    } else if ListIfAny(flag, "targets") && FindTarget(targets, 0, user).Nowhere? && ListIfAny(flag, "rules") {
      RulesDecide(lib, store, rules, 0, user);
      if FindRule(lib, store, rules, 0, user).Here? {
        RuleFollows(lib, store, flag, user, events);
      } else {
        FallthroughServes(lib, flag, user, events);
      }
    }
  }

  // ------------------------------------------------------------- the whole

  /** Every evaluation without error reads as specified, and an evaluation errs exactly
      when something it looks at has not its type or does not name what is there. */
  lemma EvaluationFollows(lib: Library, store: Store, flag: Json, user: User)
    requires Ends(lib, store, flag, user)
    ensures IsError(EvaluateFlag(lib, store, flag, user).status) <==> !FlagReads(lib, store, flag, user)
    ensures FlagReads(lib, store, flag, user) ==>
      Reading(lib, store, flag, user, EvaluateFlag(lib, store, flag, user))
  {
    hide EvaluateFlag, Reading, CheckPrerequisites, Targeting, Early, PrerequisitesRead, AllMet, TargetingReads;
    hide Ends, CheckEnds, Depth, CheckDepth, Lookup, Serve, Fits, Prerequisites, IsOn, TargetingReading, FirstUnmet;
    EvaluateUnfolds(lib, store, flag, user);
    EarlyIs(lib, store, flag, user);
    OnIs(flag);
    if Early(flag).None? {
      var entries := Prerequisites(flag);
      var pre := CheckPrerequisites(lib, store, flag, entries, user);
      PrerequisitesDecide(lib, store, flag, entries, user);
      if pre.status == Match {
        TargetingFollows(lib, store, flag, user, pre.events);
        var o := Targeting(lib, store, flag, user, pre.events);
        if !IsError(o.status) {
          MetFollows(lib, store, flag, user, o);
        }
      } else if pre.status == Miss {
        var off := Lookup(flag, "offVariation");
        ServeIs(flag, off, PrerequisiteFailed(pre.failedKey), Miss, pre.events);
        UnmetFollows(lib, store, flag, user, Examined(lib, store, entries, user) - 1, pre.failedKey, pre.events);
      }
    }
  }

  lemma MetFollows(lib: Library, store: Store, flag: Json, user: User, o: Outcome)
    requires True(flag, "on") && AllMet(lib, store, Items(flag, "prerequisites"), user)
    requires TargetingReading(lib, store, flag, user, o)
    ensures Reading(lib, store, flag, user, o)
  {
    hide Met, FirstTarget, FirstRule, RuleReading, FallthroughReading, UnmetReading, Serves, Lookup;
  }

  lemma UnmetFollows(lib: Library, store: Store, flag: Json, user: User, n: nat, key: string, events: seq<Event>)
    requires True(flag, "on") && FirstUnmet(lib, store, Items(flag, "prerequisites"), user, n)
    requires HasText(Items(flag, "prerequisites")[n], "key")
    requires key == Lookup(Items(flag, "prerequisites")[n], "key").value.s
    ensures
      var off := Lookup(flag, "offVariation");
      off.Some? && Fits(flag, off.value) ==>
        Reading(lib, store, flag, user, Serve(flag, off, PrerequisiteFailed(key), Miss, events))
  {
    hide FirstUnmet, FirstTarget, FirstRule, RuleReading, FallthroughReading, Lookup, Serve, Serves, Fits;
    ServeIs(flag, Lookup(flag, "offVariation"), PrerequisiteFailed(key), Miss, events);
  }

  /** What is decided before the prerequisites. */
  lemma EarlyIs(lib: Library, store: Store, flag: Json, user: User)
    ensures match Early(flag)
            case None => flag.Object? && BoolIfAny(flag, "on") && True(flag, "on") && ListIfAny(flag, "prerequisites")
            case Some(o) =>
              && (IsError(o.status) <==> !FlagReads(lib, store, flag, user))
              && (!IsError(o.status) ==> Reading(lib, store, flag, user, o))
  {
    hide Lookup, Serve, Serves, Fits, PrerequisitesRead, AllMet, TargetingReads, FirstUnmet, FirstTarget, FirstRule;
    hide RuleReading, FallthroughReading;
    FieldsRead(flag, "on");
    FieldsRead(flag, "prerequisites");
    ServeIs(flag, Lookup(flag, "offVariation"), Off, Miss, []);
    SameEvents(flag, Lookup(flag, "offVariation"));
  }

  lemma SameEvents(flag: Json, index: Option<Json>)
    ensures Serve(flag, index, Off, Miss, []).events == []
  {
  }

  /** A flag without an off variation serves nothing while off, but is malformed once a
      prerequisite of it is unmet. */
  lemma OffVariationMayBeMissingOnlyWhenOff(lib: Library, store: Store, flag: Json, user: User)
    requires Ends(lib, store, flag, user) && flag.Object? && Missing(flag, "offVariation")
    ensures var o := EvaluateFlag(lib, store, flag, user);
      && (BoolIfAny(flag, "on") && !True(flag, "on") ==> o.status == Miss && o.value == None)
      && (True(flag, "on") && ListIfAny(flag, "prerequisites")
          && PrerequisitesRead(lib, store, Items(flag, "prerequisites"), user)
          && !AllMet(lib, store, Items(flag, "prerequisites"), user)
          ==> o.status == Schema)
  {
    hide EvaluateFlag, CheckPrerequisites, Targeting, Lookup, AllMet, PrerequisitesRead;
    EvaluateUnfolds(lib, store, flag, user);
    OnIs(flag);
    FieldsRead(flag, "on");
    FieldsRead(flag, "prerequisites");
    if Early(flag).None? {
      PrerequisitesDecide(lib, store, flag, Prerequisites(flag), user);
    }
  }

  predicate ServesVariation(flag: Json, o: Outcome) {
    match o.details.variation
    case Some(i) => i < |Items(flag, "variations")| && o.value == Some(Items(flag, "variations")[i])
    case None => o.value == None
  }

  lemma ServeGivesVariation(flag: Json, index: Option<Json>, reason: Reason, status: Status, events: seq<Event>)
    ensures ServesVariation(flag, Serve(flag, index, reason, status, events))
  {
    FieldsRead(flag, "variations");
  }

  lemma RuleGivesVariation(lib: Library, flag: Json, rule: Json, i: nat, user: User, events: seq<Event>)
    ensures ServesVariation(flag, ServeRule(lib, flag, rule, i, user, events))
  {
    hide Choose, Elements, ValidIndex, Optional;
    var choice := Choose(lib, flag, Some(rule), user);
    if choice.Choice? {
      ServeGivesVariation(flag, Some(choice.index), RuleMatch(i, None, choice.inExperiment), Match, events);
    }
  }

  lemma TargetingGivesVariation(lib: Library, store: Store, flag: Json, user: User, events: seq<Event>)
    ensures ServesVariation(flag, Targeting(lib, store, flag, user, events))
  {
    hide Choose, FindTarget, FindRule, Elements, ValidIndex, Optional, Required, Lookup, Serve, ServeRule;
    var targets, rules := Elements(flag, "targets"), Elements(flag, "rules");
    match FindTarget(targets, 0, user)
    case Here(i) =>
      ServeGivesVariation(flag, Required(targets[i], "variation", NumberType), TargetMatch, Match, events);
    case _ =>
      var rule := FindRule(lib, store, rules, 0, user);
      if rule.Here? {
        RuleGivesVariation(lib, flag, rules[rule.index], rule.index, user, events);
      }
      var choice := Choose(lib, flag, Lookup(flag, "fallthrough"), user);
      if choice.Choice? {
        ServeGivesVariation(flag, Some(choice.index), Fallthrough(choice.inExperiment), Match, events);
      }
  }

  /** Whatever is served is a variation of the flag, at the index reported. */
  lemma ServedIsVariation(lib: Library, store: Store, flag: Json, user: User)
    requires Ends(lib, store, flag, user)
    ensures ServesVariation(flag, EvaluateFlag(lib, store, flag, user))
  {
    hide EvaluateFlag, Targeting, CheckPrerequisites, Elements, ValidIndex;
    EvaluateUnfolds(lib, store, flag, user);
    if Early(flag).None? {
      var pre := CheckPrerequisites(lib, store, flag, Prerequisites(flag), user);
      TargetingGivesVariation(lib, store, flag, user, pre.events);
      ServeGivesVariation(flag, Lookup(flag, "offVariation"), PrerequisiteFailed(pre.failedKey), Miss, pre.events);
    }
    ServeGivesVariation(flag, Lookup(flag, "offVariation"), Off, Miss, []);
  }
}
