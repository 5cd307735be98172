/** Well-formed flags and segments, on which evaluation never reports an error. */
module EvaluateTotal {
  import opened Wrappers
  import opened JsonTree
  import opened FlagSchema
  import opened Rollout
  import opened Matching
  import opened Evaluate

  predicate ClauseOk(lib: Library, clause: Json) {
    && Required(clause, "op", TextType).Some?
    && (Required(clause, "op", TextType).value.s in lib.operators ==> Required(clause, "attribute", TextType).Some?)
    && !Optional(clause, "values", ArrayType).Malformed?
    && !Optional(clause, "negate", BoolType).Malformed?
  }

  predicate ClausesOk(lib: Library, rule: Json) {
    && !Optional(rule, "clauses", ArrayType).Malformed?
    && forall c :: c in Elements(rule, "clauses") ==> ClauseOk(lib, c)
  }

  predicate SegmentRuleOk(lib: Library, rule: Json) {
    && rule.Object? && ClausesOk(lib, rule)
    && !Optional(rule, "weight", NumberType).Malformed?
    && BucketAttribute(rule).Some?
  }

  predicate SegmentOk(lib: Library, segment: Json) {
    && !Optional(segment, "included", ArrayType).Malformed?
    && !Optional(segment, "excluded", ArrayType).Malformed?
    && !Optional(segment, "rules", ArrayType).Malformed?
    && (Optional(segment, "rules", ArrayType).Set? ==>
          Required(segment, "key", TextType).Some? && Required(segment, "salt", TextType).Some?)
    && forall r :: r in Elements(segment, "rules") ==> SegmentRuleOk(lib, r)
  }

  predicate RolloutOk(flag: Json, rollout: Json) {
    && !Optional(rollout, "kind", TextType).Malformed?
    && !Optional(rollout, "seed", NumberType).Malformed?
    && BucketAttribute(rollout).Some?
    && Required(rollout, "variations", ArrayType).Some?
    && var entries := Required(rollout, "variations", ArrayType).value.items;
    && entries != []
    && forall i :: 0 <= i < |entries| ==>
      EntryOk(entries[i]) && ValidIndex(flag, Required(entries[i], "variation", NumberType)).Some?
  }

  predicate ChoiceOk(flag: Json, varOrRoll: Json) {
    match Optional(varOrRoll, "variation", NumberType)
    case Malformed => false
    case Set(v) => ValidIndex(flag, Some(v)).Some?
    case Unset =>
      && Required(varOrRoll, "rollout", ObjectType).Some?
      && RolloutOk(flag, Required(varOrRoll, "rollout", ObjectType).value)
  }

  predicate TargetOk(flag: Json, target: Json) {
    && target.Object? && !Optional(target, "values", ArrayType).Malformed?
    && Required(target, "variation", NumberType).Some?
    && ValidIndex(flag, Required(target, "variation", NumberType)).Some?
  }

  predicate RuleOk(lib: Library, flag: Json, rule: Json) {
    && rule.Object? && ClausesOk(lib, rule) && ChoiceOk(flag, rule)
    && (forall c :: c in Elements(rule, "clauses") ==> c.Object?)
    && !Optional(rule, "id", TextType).Malformed?
  }

  /** What serving needs of an off variation: none is fine only when the flag has
      no prerequisite that could fail. */
  predicate OffVariationOk(flag: Json) {
    || ValidIndex(flag, Lookup(flag, "offVariation")).Some?
    || ((Lookup(flag, "offVariation").None? || Lookup(flag, "offVariation") == Some(Null))
        && Elements(flag, "prerequisites") == [])
  }

  predicate FlagOk(lib: Library, flag: Json) {
    && flag.Object?
    && Required(flag, "key", TextType).Some? && Required(flag, "salt", TextType).Some?
    && !Optional(flag, "on", BoolType).Malformed?
    && OffVariationOk(flag)
    && !Optional(flag, "prerequisites", ArrayType).Malformed?
    && (forall p :: p in Prerequisites(flag) ==> PrereqKey(p).Some?)
    && !Optional(flag, "targets", ArrayType).Malformed?
    && (forall t :: t in Elements(flag, "targets") ==> TargetOk(flag, t))
    && !Optional(flag, "rules", ArrayType).Malformed?
    && (forall r :: r in Elements(flag, "rules") ==> RuleOk(lib, flag, r))
    && Lookup(flag, "fallthrough").Some? && ChoiceOk(flag, Lookup(flag, "fallthrough").value)
    && EventFieldsOk(flag)
  }

  predicate StoreOk(lib: Library, store: Store) {
    && store.failing == {}
    && (forall k :: k in store.flags ==> FlagOk(lib, store.flags[k]))
    && (forall k :: k in store.segments ==> SegmentOk(lib, store.segments[k]))
  }

  lemma ClauseTotal(lib: Library, clause: Json, user: User)
    requires ClauseOk(lib, clause)
    ensures !IsError(ClauseNoSegments(lib, clause, user))
  {
    hide Lookup, MatchElements, Attribute;
  }

  lemma {:induction false} PlainClausesTotal(lib: Library, clauses: seq<Json>, user: User)
    requires forall c :: c in clauses ==> ClauseOk(lib, c)
    ensures !IsError(AllClauses(lib, None, clauses, user))
  {
    hide ClauseNoSegments, ClauseOk;
    if clauses != [] {
      ClauseTotal(lib, clauses[0], user);
      PlainClausesTotal(lib, clauses[1..], user);
    }
  }

  lemma SegmentRuleTotal(lib: Library, rule: Json, key: string, salt: string, user: User)
    requires SegmentRuleOk(lib, rule)
    ensures !IsError(SegmentRuleMatches(lib, rule, key, salt, user))
  {
    hide Bucket, AllClauses, Elements, ClauseOk;
    PlainClausesTotal(lib, Elements(rule, "clauses"), user);
  }

  lemma {:induction false} SegmentRulesTotal(lib: Library, rules: seq<Json>, key: string, salt: string, user: User)
    requires forall r :: r in rules ==> SegmentRuleOk(lib, r)
    ensures !IsError(AnySegmentRule(lib, rules, key, salt, user))
  {
    hide SegmentRuleMatches;
    if rules != [] {
      SegmentRuleTotal(lib, rules[0], key, salt, user);
      SegmentRulesTotal(lib, rules[1..], key, salt, user);
    }
  }

  lemma SegmentTotal(lib: Library, segment: Json, user: User)
    requires SegmentOk(lib, segment)
    ensures !IsError(SegmentMatches(lib, segment, user))
  {
    hide AnySegmentRule, SegmentRuleOk, Elements;
    if Optional(segment, "rules", ArrayType).Set? {
      SegmentRulesTotal(lib, Elements(segment, "rules"), Required(segment, "key", TextType).value.s,
                        Required(segment, "salt", TextType).value.s, user);
    }
  }

  lemma {:induction false} SegmentsTotal(lib: Library, store: Store, keys: seq<Json>, user: User)
    requires StoreOk(lib, store)
    ensures !IsError(AnySegment(lib, store, keys, user))
  {
    hide SegmentMatches, SegmentOk, StoreOk;
    if keys != [] {
      SegmentsTotal(lib, store, keys[1..], user);
      if keys[0].Text? {
        SegmentStored(lib, store, keys[0].s);
        if keys[0].s in store.segments {
          SegmentTotal(lib, store.segments[keys[0].s], user);
        }
      }
    }
  }

  lemma SegmentStored(lib: Library, store: Store, key: string)
    requires StoreOk(lib, store)
    ensures store.Get(Segment, key) == if key in store.segments then Item(store.segments[key]) else Absent
    ensures key in store.segments ==> SegmentOk(lib, store.segments[key])
  {
    hide SegmentOk, FlagOk;
  }

  lemma {:induction false} RuleClausesTotal(lib: Library, store: Store, clauses: seq<Json>, user: User)
    requires StoreOk(lib, store) && forall c :: c in clauses ==> ClauseOk(lib, c) && c.Object?
    ensures !IsError(AllClauses(lib, Some(store), clauses, user))
  {
    hide ClauseNoSegments, AnySegment, StoreOk, Elements;
    if clauses != [] {
      ClauseTotal(lib, clauses[0], user);
      SegmentsTotal(lib, store, Elements(clauses[0], "values"), user);
      RuleClausesTotal(lib, store, clauses[1..], user);
    }
  }

  lemma ChoiceTotal(lib: Library, flag: Json, varOrRoll: Json, user: User)
    requires Required(flag, "key", TextType).Some? && Required(flag, "salt", TextType).Some?
      && ChoiceOk(flag, varOrRoll)
    ensures
      var choice := Choose(lib, flag, Some(varOrRoll), user);
      choice.Choice? && ValidIndex(flag, Some(choice.index)).Some?
  {
    hide Bucket, Lookup, ValidIndex, Position;
    match Optional(varOrRoll, "variation", NumberType)
    case Unset =>
      var rollout := Required(varOrRoll, "rollout", ObjectType).value;
      var entries := Required(rollout, "variations", ArrayType).value.items;
      forall bucket
        ensures Served(entries, bucket).Pick? && ValidIndex(flag, Some(Served(entries, bucket).variation)).Some?
      {
        var position := Position(Weights(entries), bucket, 0);
        assert EntryOk(entries[position])
          && ValidIndex(flag, Required(entries[position], "variation", NumberType)).Some?;
      }
    case _ =>
  }

  lemma {:induction false} TargetsTotal(flag: Json, targets: seq<Json>, from: nat, user: User)
    requires from <= |targets| && forall t :: t in targets ==> TargetOk(flag, t)
    ensures !FindTarget(targets, from, user).Broken?
    decreases |targets| - from
  {
    if from < |targets| {
      assert TargetOk(flag, targets[from]);
      TargetsTotal(flag, targets, from + 1, user);
    }
  }

  lemma {:induction false} RulesTotal(lib: Library, store: Store, flag: Json, rules: seq<Json>, from: nat, user: User)
    requires StoreOk(lib, store) && from <= |rules| && forall r :: r in rules ==> RuleOk(lib, flag, r)
    ensures !FindRule(lib, store, rules, from, user).Broken?
    decreases |rules| - from
  {
    hide StoreOk, AllClauses, ChoiceOk, Elements, ClauseOk;
    if from < |rules| {
      assert RuleOk(lib, flag, rules[from]);
      RuleClausesTotal(lib, store, Elements(rules[from], "clauses"), user);
      RulesTotal(lib, store, flag, rules, from + 1, user);
    }
  }

  lemma TargetingTotal(lib: Library, store: Store, flag: Json, user: User, events: seq<Event>)
    requires StoreOk(lib, store) && FlagOk(lib, flag)
    ensures !IsError(Targeting(lib, store, flag, user, events).status)
  {
    hide StoreOk, Choose, FindTarget, FindRule, ChoiceOk, Elements, ValidIndex, OffVariationOk, Prerequisites;
    hide EventFieldsOk, ClausesOk;
    var targets, rules := Elements(flag, "targets"), Elements(flag, "rules");
    TargetsTotal(flag, targets, 0, user);
    RulesTotal(lib, store, flag, rules, 0, user);
    ChoiceTotal(lib, flag, Lookup(flag, "fallthrough").value, user);
    if FindTarget(targets, 0, user).Here? {
      assert TargetOk(flag, targets[FindTarget(targets, 0, user).index]);
    }
    if FindRule(lib, store, rules, 0, user).Here? {
      var rule := rules[FindRule(lib, store, rules, 0, user).index];
      assert RuleOk(lib, flag, rule);
      ChoiceTotal(lib, flag, rule, user);
    }
  }

  /** A well-formed flag over a well-formed store evaluates without error whenever its
      evaluation returns. */
  lemma {:induction false} EvaluationTotal(lib: Library, store: Store, flag: Json, user: User)
    requires Ends(lib, store, flag, user) && StoreOk(lib, store) && FlagOk(lib, flag)
    ensures !IsError(EvaluateFlag(lib, store, flag, user).status)
    decreases Depth(lib, store, flag, user), 1, 0
  {
    hide StoreOk, EvaluateFlag, Targeting, CheckPrerequisites, Elements, ValidIndex, Depth, CheckDepth, Ends, CheckEnds;
    hide ChoiceOk, TargetOk, RuleOk, EventFieldsOk;
    EvaluateUnfolds(lib, store, flag, user);
    if Early(flag).None? {
      CheckTotal(lib, store, flag, Prerequisites(flag), user);
      var pre := CheckPrerequisites(lib, store, flag, Prerequisites(flag), user);
      TargetingTotal(lib, store, flag, user, pre.events);
      if Prerequisites(flag) == [] {
        CheckNone(lib, store, flag, Prerequisites(flag), user);
      }
    }
  }

  lemma {:induction false} CheckTotal(lib: Library, store: Store, flag: Json, entries: seq<Json>, user: User)
    requires CheckEnds(lib, store, flag, entries, user) && StoreOk(lib, store)
    requires forall e :: e in entries ==> PrereqKey(e).Some?
    ensures !IsError(CheckPrerequisites(lib, store, flag, entries, user).status)
    decreases CheckDepth(lib, store, flag, entries, user), 2, |entries|
  {
    hide EvaluateFlag, CheckPrerequisites, PrereqKey, Prerequisites, RightVariation, IsOn, FlagKey, Elements;
    hide StoreOk, FlagOk;
    hide EventFieldsOk, Depth, CheckDepth, Ends, CheckEnds;
    if entries == [] {
      CheckNone(lib, store, flag, entries, user);
    } else {
      var key := PrereqKey(entries[0]).value;
      CheckUnfolds(lib, store, flag, entries, user);
      StoreAnswers(lib, store, key);
      if key in store.flags {
        StoredFlagOk(lib, store, key);
        EvaluationTotal(lib, store, store.flags[key], user);
        var sub := EvaluateFlag(lib, store, store.flags[key], user);
        if Judge(flag, entries[0], key, store.flags[key], sub).status == Match {
          CheckTotal(lib, store, flag, entries[1..], user);
        }
      }
    }
  }

  lemma StoredFlagOk(lib: Library, store: Store, key: string)
    requires StoreOk(lib, store) && key in store.flags
    ensures FlagOk(lib, store.flags[key]) && EventFieldsOk(store.flags[key])
  {
    hide EventFieldsOk, Optional, Required, Elements;
  }

  lemma StoreAnswers(lib: Library, store: Store, key: string)
    requires StoreOk(lib, store)
    ensures store.Get(Flag, key) == if key in store.flags then Item(store.flags[key]) else Absent
  {
  }
}
