/** Flag evaluation: prerequisites through the store, targets, rules and the
    fallthrough, with the prerequisite events it records. */
module Evaluate {
  import opened Wrappers
  import opened JsonTree
  import opened FlagSchema
  import opened Rollout
  import opened Matching

  datatype Reason =
    | Unknown
    | Off
    | PrerequisiteFailed(key: string)
    | TargetMatch
    | RuleMatch(ruleIndex: nat, id: Option<string>, inExperiment: bool)
    | Fallthrough(inExperiment: bool)
    | MalformedFlag

  datatype Details = Details(reason: Reason, variation: Option<nat>)

  const INITIAL := Details(Unknown, None)

  /** A prerequisite's feature event. */
  datatype Event = Event(key: string, value: Option<Json>, prereqOf: Option<string>, flag: Json, details: Details)

  datatype Outcome = Outcome(status: Status, details: Details, value: Option<Json>, events: seq<Event>)

  // ------------------------------------------------------------- serving a variation

  /** `getValue`: the index, when it is a number naming a variation of the flag. */
  function ValidIndex(flag: Json, index: Option<Json>): (r: Option<nat>)
    ensures r.Some? ==> r.value < |Elements(flag, "variations")|
  {
    match index
    case Some(Number(n)) =>
      var variations := Required(flag, "variations", ArrayType);
      if n < 0.0 || variations.None? || n.Floor >= |variations.value.items| then None else Some(n.Floor)
    case _ => None
  }

  /** `addValue`, then the status on success. */
  function Serve(flag: Json, index: Option<Json>, reason: Reason, status: Status, events: seq<Event>): Outcome {
    match ValidIndex(flag, index)
    case Some(i) => Outcome(status, Details(reason, Some(i)), Some(Elements(flag, "variations")[i]), events)
    case None => Outcome(Schema, Details(MalformedFlag, None), None, events)
  }

  datatype Choice = NoChoice | Choice(index: Json, inExperiment: bool)

  /** `LDi_getIndexForVariationOrRollout`. */
  function Choose(lib: Library, flag: Json, from: Option<Json>, user: User): Choice {
    match (Required(flag, "key", TextType), Required(flag, "salt", TextType), from)
    case (Some(Text(key)), Some(Text(salt)), Some(varOrRoll)) => VariationOrRollout(lib, varOrRoll, user, key, salt)
    case _ => NoChoice
  }

  /** `LDi_variationIndexForUser`. */
  function VariationOrRollout(lib: Library, varOrRoll: Json, user: User, key: string, salt: string): Choice {
    match Optional(varOrRoll, "variation", NumberType)
    case Malformed => NoChoice
    case Set(v) => Choice(v, false)
    case Unset =>
      match Required(varOrRoll, "rollout", ObjectType)
      case None => NoChoice
      case Some(rollout) => FromRollout(lib, rollout, user, key, salt)
  }

  function FromRollout(lib: Library, rollout: Json, user: User, key: string, salt: string): Choice {
    var kind := Optional(rollout, "kind", TextType);
    var variations := Required(rollout, "variations", ArrayType);
    var attribute := BucketAttribute(rollout);
    var seed := Optional(rollout, "seed", NumberType);
    if kind.Malformed? || seed.Malformed? || attribute.None? || variations.None? || variations.value.items == []
    then NoChoice
    else
      var seedValue := if seed.Set? then Some(Truncate(seed.value.n)) else None;
      match Served(variations.value.items, Bucket(lib, user, key, attribute.value, salt, seedValue))
      case NoPick => NoChoice
      case Pick(v, untracked) => Choice(v, kind == Set(Text("experiment")) && !untracked)
  }

  // ------------------------------------------------------------- prerequisites

  /** The key of a prerequisite entry, when its shape is right. */
  function PrereqKey(entry: Json): Option<string> {
    if !entry.Object? then None
    else
      match (Required(entry, "key", TextType), Required(entry, "variation", NumberType))
      case (Some(Text(key)), Some(_)) => Some(key)
      case _ => None
  }

  function Prerequisites(flag: Json): seq<Json> { Elements(flag, "prerequisites") }

  predicate IsOn(flag: Json) { Optional(flag, "on", BoolType) == Set(Bool(true)) }

  /** Field types without which `LDi_newFeatureEvent` gives no event. */
  predicate EventFieldsOk(flag: Json) {
    && !Optional(flag, "version", NumberType).Malformed?
    && !Optional(flag, "debugEventsUntilDate", NumberType).Malformed?
    && !Optional(flag, "trackEvents", BoolType).Malformed?
    && !Optional(flag, "trackEventsFallthrough", BoolType).Malformed?
  }

  function FlagKey(flag: Json): Option<string> {
    match Lookup(flag, "key")
    case Some(Text(s)) => Some(s)
    case _ => None
  }

  datatype PrereqOutcome = PrereqOutcome(status: Status, failedKey: string, events: seq<Event>)

  /** Whether the prerequisite served the variation its entry asks for. */
  predicate RightVariation(entry: Json, sub: Outcome) {
    match (Required(entry, "variation", NumberType), sub.details.variation)
    case (Some(Number(n)), Some(i)) => i as real == n
    case _ => false
  }

  /** What an evaluated prerequisite decides; `Match` goes on to the next. */
  function Judge(flag: Json, entry: Json, key: string, preflag: Json, sub: Outcome): PrereqOutcome {
    if IsError(sub.status) then PrereqOutcome(sub.status, key, [])
    else if !EventFieldsOk(preflag) then PrereqOutcome(Memory, key, [])
    else
      var events := sub.events + [Event(key, sub.value, FlagKey(flag), preflag, sub.details)];
      var met := sub.status != Miss && IsOn(preflag) && RightVariation(entry, sub);
      PrereqOutcome(if met then Match else Miss, key, events)
  }

  // ------------------------------------------------------------- targets and rules

  /** The first target listing the user; a malformed entry before it is an error. */
  datatype Scan = Broken(status: Status) | Nowhere | Here(index: nat)

  function FindTarget(targets: seq<Json>, from: nat, user: User): (r: Scan)
    requires from <= |targets|
    ensures r.Here? ==> from <= r.index < |targets|
    ensures r.Broken? ==> IsError(r.status)
    decreases |targets| - from
  {
    if from == |targets| then Nowhere
    else if !targets[from].Object? || Optional(targets[from], "values", ArrayType).Malformed? then Broken(Schema)
    else if TextInArray(Elements(targets[from], "values"), user.key) then Here(from)
    else FindTarget(targets, from + 1, user)
  }

  function FindRule(lib: Library, store: Store, rules: seq<Json>, from: nat, user: User): (r: Scan)
    requires from <= |rules|
    ensures r.Here? ==> from <= r.index < |rules|
    ensures r.Broken? ==> IsError(r.status)
    decreases |rules| - from
  {
    if from == |rules| then Nowhere
    else if !rules[from].Object? then Broken(Schema)
    else
      var s := RuleMatches(lib, store, rules[from], user);
      if IsError(s) then Broken(s) else if s == Match then Here(from) else FindRule(lib, store, rules, from + 1, user)
  }

  function Failure(
      status: Status, details: Details, events: seq<Event>): Outcome { Outcome(status, details, None, events) }

  /** What is decided before any prerequisite is looked at. */
  function Early(flag: Json): (r: Option<Outcome>)
    ensures r.None? ==> IsOn(flag)
  {
    var on := Optional(flag, "on", BoolType);
    if !flag.Object? || on.Malformed? then Some(Failure(Schema, INITIAL, []))
    else if on != Set(Bool(true)) then Some(ServeOff(flag))
    else if Optional(flag, "prerequisites", ArrayType).Malformed? then Some(Failure(Schema, INITIAL, []))
    else None
  }

  /** What follows once the prerequisites are checked. */
  function Conclude(lib: Library, store: Store, flag: Json, user: User, pre: PrereqOutcome): Outcome {
    if IsError(pre.status) then Failure(pre.status, INITIAL, pre.events)
    else if pre.status == Miss then
      Serve(flag, Lookup(flag, "offVariation"), PrerequisiteFailed(pre.failedKey), Miss, pre.events)
    else Targeting(lib, store, flag, user, pre.events)
  }

  /** An off flag may do without an off variation. */
  function ServeOff(flag: Json): Outcome {
    match Lookup(flag, "offVariation")
    case None => Outcome(Miss, Details(Off, None), None, [])
    case Some(Null) => Outcome(Miss, Details(Off, None), None, [])
    case index => Serve(flag, index, Off, Miss, [])
  }

  function Targeting(lib: Library, store: Store, flag: Json, user: User, events: seq<Event>): Outcome {
    if Optional(flag, "targets", ArrayType).Malformed? then Failure(Schema, INITIAL, events)
    else
      var targets := Elements(flag, "targets");
      match FindTarget(targets, 0, user)
      case Broken(s) => Failure(s, INITIAL, events)
      case Here(i) =>
        (match Required(targets[i], "variation", NumberType)
         case None => Failure(Schema, INITIAL, events)
         case index => Serve(flag, index, TargetMatch, Match, events))
      case Nowhere =>
        if Optional(flag, "rules", ArrayType).Malformed? then Failure(Schema, INITIAL, events)
        else
          var rules := Elements(flag, "rules");
          match FindRule(lib, store, rules, 0, user)
          case Broken(s) => Failure(s, INITIAL, events)
          case Here(i) => ServeRule(lib, flag, rules[i], i, user, events)
          case Nowhere =>
            match Choose(lib, flag, Lookup(flag, "fallthrough"), user)
            case NoChoice => Failure(Schema, Details(Fallthrough(false), None), events)
            case Choice(index, inExperiment) => Serve(flag, Some(index), Fallthrough(inExperiment), Match, events)
  }

  function ServeRule(lib: Library, flag: Json, rule: Json, i: nat, user: User, events: seq<Event>): Outcome {
    match Choose(lib, flag, Some(rule), user)
    case NoChoice => Failure(Schema, Details(RuleMatch(i, None, false), None), events)
    case Choice(index, inExperiment) =>
      var served := Serve(flag, Some(index), RuleMatch(i, None, inExperiment), Match, events);
      if IsError(served.status) then served
      else
        match Optional(rule, "id", TextType)
        case Malformed => served.(status := Schema)
        case Set(Text(id)) => served.(details := served.details.(reason := RuleMatch(i, Some(id), inExperiment)))
        case _ => served
  }

  // ------------------------------------------------------------- evaluation

  /** `LDi_evaluate` with room for `depth` evaluations inside one another, or nothing
      where that is not enough. The C code has no such bound. */
  function Bounded(lib: Library, store: Store, flag: Json, user: User, depth: nat): Option<Outcome>
    decreases depth, 1, 0
  {
    if depth == 0 then None
    else
      match Early(flag)
      case Some(o) => Some(o)
      case None =>
        match BoundedCheck(lib, store, flag, Prerequisites(flag), user, depth - 1)
        case None => None
        case Some(pre) => Some(Conclude(lib, store, flag, user, pre))
  }

  /** `LDi_checkPrerequisites` over entries of `flag` still to be examined. */
  function BoundedCheck(lib: Library, store: Store, flag: Json, entries: seq<Json>, user: User, depth: nat)
    : Option<PrereqOutcome>
    decreases depth, 2, |entries|
  {
    if entries == [] then Some(PrereqOutcome(Match, "", []))
    else
      match PrereqKey(entries[0])
      case None => Some(PrereqOutcome(Schema, "", []))
      case Some(key) =>
        match store.Get(Flag, key)
        case Unavailable => Some(PrereqOutcome(StoreFailure, key, []))
        case Absent => Some(PrereqOutcome(Miss, key, []))
        case Item(preflag) =>
          match Bounded(lib, store, preflag, user, depth)
          case None => None
          case Some(sub) =>
            var judged := Judge(flag, entries[0], key, preflag, sub);
            if judged.status != Match then Some(judged)
            else
              match BoundedCheck(lib, store, flag, entries[1..], user, depth)
              case None => None
              case Some(rest) => Some(rest.(events := judged.events + rest.events))
  }

  /** More room changes no answer. */
  lemma {:induction false} Deeper(lib: Library, store: Store, flag: Json, user: User, depth: nat, more: nat)
    requires depth <= more && Bounded(lib, store, flag, user, depth).Some?
    ensures Bounded(lib, store, flag, user, more) == Bounded(lib, store, flag, user, depth)
    decreases depth, 1, 0
  {
    hide BoundedCheck, Early, Conclude;
    if Early(flag).None? {
      DeeperCheck(lib, store, flag, Prerequisites(flag), user, depth - 1, more - 1);
    }
  }

  lemma {:induction false} DeeperCheck(
    lib: Library, store: Store, flag: Json, entries: seq<Json>, user: User, depth: nat, more: nat)
    requires depth <= more && BoundedCheck(lib, store, flag, entries, user, depth).Some?
    ensures BoundedCheck(lib, store, flag, entries, user, more) == BoundedCheck(lib, store, flag, entries, user, depth)
    decreases depth, 2, |entries|
  {
    hide Bounded, Judge, PrereqKey;
    if entries != [] && PrereqKey(entries[0]).Some? {
      var key := PrereqKey(entries[0]).value;
      var found := store.Get(Flag, key);
      if found.Item? {
        Deeper(lib, store, found.json, user, depth, more);
        var sub := Bounded(lib, store, found.json, user, depth).value;
        if Judge(flag, entries[0], key, found.json, sub).status == Match {
          DeeperCheck(lib, store, flag, entries[1..], user, depth, more);
        }
      }
    }
  }

  /** Evaluation returns. */
  ghost predicate Ends(lib: Library, store: Store, flag: Json, user: User) {
    exists depth: nat :: Bounded(lib, store, flag, user, depth).Some?
  }

  ghost predicate CheckEnds(lib: Library, store: Store, flag: Json, entries: seq<Json>, user: User) {
    exists depth: nat :: BoundedCheck(lib, store, flag, entries, user, depth).Some?
  }

  ghost predicate LeastDepth(lib: Library, store: Store, flag: Json, user: User, depth: nat) {
    && Bounded(lib, store, flag, user, depth).Some?
    && forall less: nat :: less < depth ==> Bounded(lib, store, flag, user, less).None?
  }

  ghost predicate LeastCheckDepth(
    lib: Library, store: Store, flag: Json, entries: seq<Json>, user: User, depth: nat) {
    && BoundedCheck(lib, store, flag, entries, user, depth).Some?
    && forall less: nat :: less < depth ==> BoundedCheck(lib, store, flag, entries, user, less).None?
  }

  lemma {:induction false} LeastExists(lib: Library, store: Store, flag: Json, user: User, depth: nat)
    requires Bounded(lib, store, flag, user, depth).Some?
    ensures exists least: nat :: LeastDepth(lib, store, flag, user, least)
  {
    hide Bounded;
    if less: nat :| less < depth && Bounded(lib, store, flag, user, less).Some? {
      LeastExists(lib, store, flag, user, less);
    } else {
      assert LeastDepth(lib, store, flag, user, depth);
    }
  }

  lemma {:induction false} LeastCheckExists(
    lib: Library, store: Store, flag: Json, entries: seq<Json>, user: User, depth: nat)
    requires BoundedCheck(lib, store, flag, entries, user, depth).Some?
    ensures exists least: nat :: LeastCheckDepth(lib, store, flag, entries, user, least)
  {
    hide BoundedCheck;
    if less: nat :| less < depth && BoundedCheck(lib, store, flag, entries, user, less).Some? {
      LeastCheckExists(lib, store, flag, entries, user, less);
    } else {
      assert LeastCheckDepth(lib, store, flag, entries, user, depth);
    }
  }

  /** How deep an evaluation that returns goes. */
  ghost function Depth(lib: Library, store: Store, flag: Json, user: User): (n: nat)
    requires Ends(lib, store, flag, user)
    ensures LeastDepth(lib, store, flag, user, n)
  {
    var some: nat :| Bounded(lib, store, flag, user, some).Some?;
    LeastExists(lib, store, flag, user, some);
    var n: nat :| LeastDepth(lib, store, flag, user, n);
    n
  }

  ghost function CheckDepth(lib: Library, store: Store, flag: Json, entries: seq<Json>, user: User): (n: nat)
    requires CheckEnds(lib, store, flag, entries, user)
    ensures LeastCheckDepth(lib, store, flag, entries, user, n)
  {
    var some: nat :| BoundedCheck(lib, store, flag, entries, user, some).Some?;
    LeastCheckExists(lib, store, flag, entries, user, some);
    var n: nat :| LeastCheckDepth(lib, store, flag, entries, user, n);
    n
  }

  /** `LDi_evaluate`, for every flag it returns for. */
  ghost function EvaluateFlag(lib: Library, store: Store, flag: Json, user: User): Outcome
    requires Ends(lib, store, flag, user)
  {
    Bounded(lib, store, flag, user, Depth(lib, store, flag, user)).value
  }

  /** `LDi_checkPrerequisites`, where it returns. */
  ghost function CheckPrerequisites(
    lib: Library, store: Store, flag: Json, entries: seq<Json>, user: User): PrereqOutcome
    requires CheckEnds(lib, store, flag, entries, user)
  {
    BoundedCheck(lib, store, flag, entries, user, CheckDepth(lib, store, flag, entries, user)).value
  }

  /** Any depth that suffices gives the answer. */
  lemma EvaluatedAt(lib: Library, store: Store, flag: Json, user: User, depth: nat)
    requires Bounded(lib, store, flag, user, depth).Some?
    ensures Ends(lib, store, flag, user) && Depth(lib, store, flag, user) <= depth
    ensures EvaluateFlag(lib, store, flag, user) == Bounded(lib, store, flag, user, depth).value
  {
    hide Bounded, Depth;
    var least := Depth(lib, store, flag, user);
    assert least <= depth;
    Deeper(lib, store, flag, user, least, depth);
  }

  lemma CheckedAt(lib: Library, store: Store, flag: Json, entries: seq<Json>, user: User, depth: nat)
    requires BoundedCheck(lib, store, flag, entries, user, depth).Some?
    ensures CheckEnds(lib, store, flag, entries, user) && CheckDepth(lib, store, flag, entries, user) <= depth
    ensures CheckPrerequisites(lib, store, flag, entries, user)
         == BoundedCheck(lib, store, flag, entries, user, depth).value
  {
    hide BoundedCheck, CheckDepth;
    var least := CheckDepth(lib, store, flag, entries, user);
    assert least <= depth;
    DeeperCheck(lib, store, flag, entries, user, least, depth);
  }

  /** One step of an evaluation that returns. */
  lemma EvaluateUnfolds(lib: Library, store: Store, flag: Json, user: User)
    requires Ends(lib, store, flag, user)
    ensures
      match Early(flag)
      case Some(o) => EvaluateFlag(lib, store, flag, user) == o
      case None =>
        && CheckEnds(lib, store, flag, Prerequisites(flag), user)
        && CheckDepth(lib, store, flag, Prerequisites(flag), user) < Depth(lib, store, flag, user)
        && EvaluateFlag(lib, store, flag, user)
           == Conclude(lib, store, flag, user, CheckPrerequisites(lib, store, flag, Prerequisites(flag), user))
  {
    hide BoundedCheck, Early, Conclude, Prerequisites, Depth, CheckDepth, CheckPrerequisites;
    var depth := Depth(lib, store, flag, user);
    if Early(flag).None? {
      CheckedAt(lib, store, flag, Prerequisites(flag), user, depth - 1);
    }
  }

  /** One step of a check that returns. */
  lemma CheckUnfolds(lib: Library, store: Store, flag: Json, entries: seq<Json>, user: User)
    requires CheckEnds(lib, store, flag, entries, user) && entries != []
    ensures
      var pre := CheckPrerequisites(lib, store, flag, entries, user);
      var depth := CheckDepth(lib, store, flag, entries, user);
      match PrereqKey(entries[0])
      case None => pre == PrereqOutcome(Schema, "", [])
      case Some(key) =>
        match store.Get(Flag, key)
        case Unavailable => pre == PrereqOutcome(StoreFailure, key, [])
        case Absent => pre == PrereqOutcome(Miss, key, [])
        case Item(preflag) =>
          && Ends(lib, store, preflag, user) && Depth(lib, store, preflag, user) <= depth
          && var judged := Judge(flag, entries[0], key, preflag, EvaluateFlag(lib, store, preflag, user));
          if judged.status != Match then pre == judged
          else
            && CheckEnds(lib, store, flag, entries[1..], user)
            && CheckDepth(lib, store, flag, entries[1..], user) <= depth
            && var rest := CheckPrerequisites(lib, store, flag, entries[1..], user);
            pre == rest.(events := judged.events + rest.events)
  {
    hide Bounded, Judge, PrereqKey, Depth, EvaluateFlag, CheckDepth;
    var depth := CheckDepth(lib, store, flag, entries, user);
    if PrereqKey(entries[0]).Some? {
      var found := store.Get(Flag, PrereqKey(entries[0]).value);
      if found.Item? {
        EvaluatedAt(lib, store, found.json, user, depth);
        var sub := EvaluateFlag(lib, store, found.json, user);
        if Judge(flag, entries[0], PrereqKey(entries[0]).value, found.json, sub).status == Match {
          CheckedAt(lib, store, flag, entries[1..], user, depth);
        }
      }
    }
  }

  lemma CheckNone(lib: Library, store: Store, flag: Json, entries: seq<Json>, user: User)
    requires entries == []
    ensures CheckEnds(lib, store, flag, entries, user)
    ensures CheckPrerequisites(lib, store, flag, entries, user) == PrereqOutcome(Match, "", [])
  {
    CheckedAt(lib, store, flag, entries, user, 0);
  }
}
