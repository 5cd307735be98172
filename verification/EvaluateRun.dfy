/** Evaluation as it runs: details, value and events are filled in place. */
module EvaluateRun {
  import opened Wrappers
  import opened JsonTree
  import opened FlagSchema
  import opened Matching
  import opened Evaluate

  /** The out parameters of `LDi_evaluate`. */
  class Record {
    var details: Details
    var value: Option<Json>
    var events: seq<Event>

    constructor ()
      ensures Fresh()
    {
      details, value, events := INITIAL, None, [];
    }

    predicate Fresh()
      reads this
    {
      details == INITIAL && value == None && events == []
    }

    function Result(status: Status): Outcome
      reads this
    {
      Outcome(status, details, value, events)
    }

    /** `addValue`; answers the status on success. */
    method AddValue(flag: Json, index: Option<Json>, status: Status) returns (s: Status)
      modifies this`details, this`value
      ensures Result(s) == Serve(flag, index, old(details.reason), status, events)
    {
      match ValidIndex(flag, index)
      case Some(i) =>
        details := details.(variation := Some(i));
        value := Some(Elements(flag, "variations")[i]);
        s := status;
      case None =>
        details := Details(MalformedFlag, None);
        value := None;
        s := Schema;
    }
  }

  /** `LDi_checkPrerequisites`. */
  method Check(
      lib: Library, store: Store, flag: Json, user: User, out: Record) returns (status: Status, failedKey: string)
    requires CheckEnds(lib, store, flag, Prerequisites(flag), user) && out.events == []
    modifies out`events
    ensures
      var pre := CheckPrerequisites(lib, store, flag, Prerequisites(flag), user);
      status == pre.status && out.events == pre.events && (status == Miss ==> failedKey == pre.failedKey)
    decreases CheckDepth(lib, store, flag, Prerequisites(flag), user), 3, 0
  {
    hide CheckPrerequisites, EvaluateFlag, PrereqKey, Prerequisites, CheckEnds, CheckDepth;
    var entries := Prerequisites(flag);
    ghost var all := CheckPrerequisites(lib, store, flag, entries, user);
    failedKey := "";
    assert entries[0..] == entries;
    var i := 0;
    while i < |entries|
      invariant 0 <= i <= |entries|
      invariant CheckEnds(lib, store, flag, entries[i..], user)
      invariant CheckDepth(lib, store, flag, entries[i..], user) <= CheckDepth(lib, store, flag, entries, user)
      invariant
        var rest := CheckPrerequisites(lib, store, flag, entries[i..], user);
        all.status == rest.status && all.events == out.events + rest.events
        && (all.status == Miss ==> all.failedKey == rest.failedKey)
    {
      assert entries[i..][1..] == entries[i + 1..];
      status, failedKey := CheckEntry(lib, store, flag, user, entries[i], out, entries[i..]);
      if status != Match { return; }
      i := i + 1;
    }
    CheckNone(lib, store, flag, entries[i..], user);
    status := Match;
  }

  /** One turn of the loop: `Match` goes on, anything else is the answer. */
  method CheckEntry(lib: Library, store: Store, flag: Json, user: User, entry: Json, out: Record, ghost left: seq<Json>)
    returns (status: Status, failedKey: string)
    requires CheckEnds(lib, store, flag, left, user) && left != [] && left[0] == entry
    modifies out`events
    ensures
      var pre := CheckPrerequisites(lib, store, flag, left, user);
      if status == Match then
        && CheckEnds(lib, store, flag, left[1..], user)
        && CheckDepth(lib, store, flag, left[1..], user) <= CheckDepth(lib, store, flag, left, user)
        && var rest := CheckPrerequisites(lib, store, flag, left[1..], user);
        && pre.status == rest.status && pre.failedKey == rest.failedKey
        && old(out.events) + pre.events == out.events + rest.events
      else
        && pre.status == status && (status == Miss ==> pre.failedKey == failedKey)
        && old(out.events) + pre.events == out.events
    decreases CheckDepth(lib, store, flag, left, user), 2, |left|
  {
    hide CheckPrerequisites, EvaluateFlag, PrereqKey, EventFieldsOk, RightVariation, IsOn, FlagKey, Prerequisites;
    hide Ends, CheckEnds, Depth, CheckDepth;
    CheckUnfolds(lib, store, flag, left, user);
    failedKey := "";
    if PrereqKey(entry).None? {
      return Schema, failedKey;
    }
    failedKey := PrereqKey(entry).value;
    var found := store.Get(Flag, failedKey);
    if !found.Item? {
      return if found.Absent? then Miss else StoreFailure, failedKey;
    }
    var sub := new Record();
    var subStatus := Run(lib, store, found.json, user, sub);
    if IsError(subStatus) { return subStatus, failedKey; }
    if !EventFieldsOk(found.json) { return Memory, failedKey; }
    ghost var event := Event(failedKey, sub.value, FlagKey(flag), found.json, sub.details);
    Append(out.events, sub.events, event);
    out.events := out.events + sub.events;
    out.events := out.events + [Event(failedKey, sub.value, FlagKey(flag), found.json, sub.details)];
    if subStatus == Miss { return Miss, failedKey; }
    if !IsOn(found.json) || !RightVariation(entry, sub.Result(subStatus)) { return Miss, failedKey; }
    ghost var rest := CheckPrerequisites(lib, store, flag, left[1..], user);
    assert old(out.events) + ((sub.events + [event]) + rest.events) == out.events + rest.events;
    status := Match;
  }

  lemma Append(a: seq<Event>, b: seq<Event>, e: Event)
    ensures a + b + [e] == a + (b + [e])
  {
  }

  /** The target and rule loops, and the fallthrough, of `LDi_evaluate`. */
  method Target(lib: Library, store: Store, flag: Json, user: User, out: Record) returns (status: Status)
    requires out.details == INITIAL && out.value == None
    modifies out`details, out`value
    ensures out.Result(status) == Targeting(lib, store, flag, user, out.events)
  {
    hide Choose, RuleMatches, ValidIndex, Required, Elements;
    if Optional(flag, "targets", ArrayType).Malformed? { return Schema; }
    var targets := Elements(flag, "targets");
    for i := 0 to |targets|
      invariant FindTarget(targets, 0, user) == FindTarget(targets, i, user)
      invariant out.details == INITIAL && out.value == None
    {
      if !targets[i].Object? || Optional(targets[i], "values", ArrayType).Malformed? { return Schema; }
      if TextInArray(Elements(targets[i], "values"), user.key) {
        var index := Required(targets[i], "variation", NumberType);
        if index.None? { return Schema; }
        out.details := out.details.(reason := TargetMatch);
        status := out.AddValue(flag, index, Match);
        return;
      }
    }
    if Optional(flag, "rules", ArrayType).Malformed? { return Schema; }
    var rules := Elements(flag, "rules");
    for i := 0 to |rules|
      invariant FindRule(lib, store, rules, 0, user) == FindRule(lib, store, rules, i, user)
      invariant out.details == INITIAL && out.value == None
    {
      if !rules[i].Object? { return Schema; }
      var s := RuleMatches(lib, store, rules[i], user);
      if IsError(s) { return s; }
      if s == Match {
        status := MatchedRule(lib, flag, rules[i], i, user, out);
        return;
      }
    }
    out.details := out.details.(reason := Fallthrough(false));
    match Choose(lib, flag, Lookup(flag, "fallthrough"), user)
    case NoChoice => status := Schema;
    case Choice(index, inExperiment) =>
      out.details := out.details.(reason := Fallthrough(inExperiment));
      status := out.AddValue(flag, Some(index), Match);
  }

  method MatchedRule(lib: Library, flag: Json, rule: Json, i: nat, user: User, out: Record) returns (status: Status)
    requires out.details == INITIAL && out.value == None
    modifies out`details, out`value
    ensures out.Result(status) == ServeRule(lib, flag, rule, i, user, out.events)
  {
    hide Choose, ValidIndex, Elements;
    out.details := out.details.(reason := RuleMatch(i, None, false));
    match Choose(lib, flag, Some(rule), user)
    case NoChoice => return Schema;
    case Choice(index, inExperiment) =>
      out.details := out.details.(reason := RuleMatch(i, None, inExperiment));
      status := out.AddValue(flag, Some(index), Match);
      if IsError(status) { return; }
      var id := Optional(rule, "id", TextType);
      if id.Malformed? { return Schema; }
      if id.Set? {
        out.details := out.details.(reason := RuleMatch(i, Some(id.value.s), inExperiment));
      }
  }

  /** `LDi_evaluate`. */
  method Run(lib: Library, store: Store, flag: Json, user: User, out: Record) returns (status: Status)
    requires Ends(lib, store, flag, user) && out.Fresh()
    modifies out
    ensures out.Result(status) == EvaluateFlag(lib, store, flag, user)
    decreases Depth(lib, store, flag, user), 1, 0
  {
    hide Targeting, EvaluateFlag, CheckPrerequisites, ValidIndex, Elements, Ends, CheckEnds, Depth, CheckDepth;
    EvaluateUnfolds(lib, store, flag, user);
    if !flag.Object? { return Schema; }
    var on := Optional(flag, "on", BoolType);
    if on.Malformed? { return Schema; }
    if on != Set(Bool(true)) {
      out.details := out.details.(reason := Off);
      var off := Lookup(flag, "offVariation");
      if off.None? || off.value == Null { return Miss; }
      status := out.AddValue(flag, off, Miss);
      return;
    }
    if Optional(flag, "prerequisites", ArrayType).Malformed? { return Schema; }
    var pre, failedKey := Check(lib, store, flag, user, out);
    if IsError(pre) { return pre; }
    if pre == Miss {
      out.details := out.details.(reason := PrerequisiteFailed(failedKey));
      status := out.AddValue(flag, Lookup(flag, "offVariation"), Miss);
      return;
    }
    status := Target(lib, store, flag, user, out);
  }
}
