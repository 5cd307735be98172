/** Clauses, rules and segments against a user. */
module Matching {
  import opened Wrappers
  import opened JsonTree
  import opened FlagSchema
  import opened Rollout

  /** `EvalStatus`; the last three are errors. */
  datatype Status = Match | Miss | Memory | Schema | StoreFailure

  predicate IsError(s: Status) { s == Memory || s == Schema || s == StoreFailure }

  datatype Kind = Flag | Segment

  datatype Found = Unavailable | Absent | Item(json: Json)

  /** What `LDStoreGet` answers: an item, nothing, or a failure. */
  datatype Store = Store(flags: map<string, Json>, segments: map<string, Json>, failing: set<(Kind, string)>) {
    function Get(kind: Kind, key: string): Found {
      var items := if kind == Flag then flags else segments;
      if (kind, key) in failing then Unavailable
      else if key in items then Item(items[key])
      else Absent
    }
  }

  /** `maybeNegate`. */
  function MaybeNegate(clause: Json, s: Status): Status {
    if IsError(s) then s
    else
      match Optional(clause, "negate", BoolType)
      case Malformed => Schema
      case Set(Bool(true)) => if s == Match then Miss else Match
      case _ => s
  }

  /** `LDi_textInArray`. */
  predicate TextInArray(items: seq<Json>, text: string) { Text(text) in items }

  /** `matchAny`. */
  predicate MatchAny(f: Operator, value: Json, values: seq<Json>) {
    exists i :: 0 <= i < |values| && f(value, values[i])
  }

  datatype ArrayMatch = Hit | NoHit | Nested

  /** An array attribute matches by its first matching element, unless a nested
      array or object comes first. */
  function MatchElements(f: Operator, elements: seq<Json>, values: seq<Json>): ArrayMatch {
    if elements == [] then NoHit
    else if elements[0].Object? || elements[0].Array? then Nested
    else if MatchAny(f, elements[0], values) then Hit
    else MatchElements(f, elements[1..], values)
  }

  /** `LDi_clauseMatchesUserNoSegments`. */
  function ClauseNoSegments(lib: Library, clause: Json, user: User): Status {
    match Required(clause, "op", TextType)
    case Some(Text(op)) =>
      if op !in lib.operators then Miss
      else (
        match Required(clause, "attribute", TextType)
        case Some(Text(name)) =>
          if Optional(clause, "values", ArrayType).Malformed? then Schema
          else
            var values := Elements(clause, "values");
            (match Attribute(user, name)
             case None => Miss
             case Some(Null) => Miss
             case Some(Array(elements)) =>
               (match MatchElements(lib.operators[op], elements, values)
                case Nested => Miss
                case Hit => MaybeNegate(clause, Match)
                case NoHit => MaybeNegate(clause, Miss))
             case Some(v) => MaybeNegate(clause, if MatchAny(lib.operators[op], v, values) then Match else Miss))
        case _ => Schema)
    case _ => Schema
  }

  /** All of a list of clauses, each judged by `judge`; the first that does not
      match decides. */
  function AllClauses(lib: Library, store: Option<Store>, clauses: seq<Json>, user: User): Status
    decreases (if store.Some? then 1 else 0), 1, |clauses|
  {
    if clauses == [] then Match
    else
      var s := ClauseStatus(lib, store, clauses[0], user);
      if s == Match then AllClauses(lib, store, clauses[1..], user) else s
  }

  /** A clause of a flag rule (with the store) or of a segment rule (without). */
  function ClauseStatus(lib: Library, store: Option<Store>, clause: Json, user: User): Status
    decreases (if store.Some? then 1 else 0), 0, 0
  {
    if store.None? then ClauseNoSegments(lib, clause, user)
    else if !clause.Object? then Schema
    else
      match Required(clause, "op", TextType)
      case Some(Text("segmentMatch")) =>
        (match Optional(clause, "values", ArrayType)
         case Malformed => Schema
         case Unset => MaybeNegate(clause, Miss)
         case Set(_) => MaybeNegate(clause, AnySegment(lib, store.value, Elements(clause, "values"), user)))
      case Some(_) => ClauseNoSegments(lib, clause, user)
      case None => Schema
  }

  /** The loop over segment keys: keys that are not texts and segments that are
      not in the store are passed over. */
  function AnySegment(lib: Library, store: Store, keys: seq<Json>, user: User): Status
    decreases 0, 5, |keys|
  {
    if keys == [] then Miss
    else if !keys[0].Text? then AnySegment(lib, store, keys[1..], user)
    else
      match store.Get(Segment, keys[0].s)
      case Unavailable => StoreFailure
      case Absent => AnySegment(lib, store, keys[1..], user)
      case Item(segment) =>
        var s := SegmentMatches(lib, segment, user);
        if s == Miss then AnySegment(lib, store, keys[1..], user) else s
  }

  /** `LDi_segmentMatchesUser`. */
  function SegmentMatches(lib: Library, segment: Json, user: User): Status
    decreases 0, 4, 0
  {
    if Optional(segment, "included", ArrayType).Malformed? then Schema
    else if TextInArray(Elements(segment, "included"), user.key) then Match
    else if Optional(segment, "excluded", ArrayType).Malformed? then Schema
    else if TextInArray(Elements(segment, "excluded"), user.key) then Miss
    else
      match Optional(segment, "rules", ArrayType)
      case Malformed => Schema
      case Unset => Miss
      case Set(_) =>
        match (Required(segment, "key", TextType), Required(segment, "salt", TextType))
        case (Some(Text(key)), Some(Text(salt))) => AnySegmentRule(lib, Elements(segment, "rules"), key, salt, user)
        case _ => Schema
  }

  function AnySegmentRule(lib: Library, rules: seq<Json>, key: string, salt: string, user: User): Status
    decreases 0, 3, |rules|
  {
    if rules == [] then Miss
    else if !rules[0].Object? then Schema
    else
      var s := SegmentRuleMatches(lib, rules[0], key, salt, user);
      if s == Miss then AnySegmentRule(lib, rules[1..], key, salt, user) else s
  }

  /** `LDi_getBucketAttribute`. */
  function BucketAttribute(obj: Json): Option<string> {
    match Optional(obj, "bucketBy", TextType)
    case Malformed => None
    case Set(Text(s)) => Some(s)
    case _ => Some("key")
  }

  /** `LDi_segmentRuleMatchUser`. */
  function SegmentRuleMatches(lib: Library, rule: Json, key: string, salt: string, user: User): Status
    decreases 0, 2, 0
  {
    if Optional(rule, "clauses", ArrayType).Malformed? then Schema
    else
      var s := AllClauses(lib, None, Elements(rule, "clauses"), user);
      if s != Match then s
      else
        match Optional(rule, "weight", NumberType)
        case Malformed => Schema
        case Set(Number(w)) =>
          (match BucketAttribute(rule)
           case None => Schema
           case Some(attribute) => if Bucket(lib, user, key, attribute, salt, None) < w / 100000.0 then Match else Miss)
        case _ => Match
  }

  /** `LDi_ruleMatchesUser`. */
  function RuleMatches(lib: Library, store: Store, rule: Json, user: User): Status {
    if Optional(rule, "clauses", ArrayType).Malformed? then Schema
    else AllClauses(lib, Some(store), Elements(rule, "clauses"), user)
  }
}
