/** `cJSON_Compare` with case-sensitive keys, against the meaning of a tree: an
    object is the map from each key to its first value. */
module JsonCompare {
  import opened JsonTree

  datatype Value =
    | NullValue
    | BoolValue(b: bool)
    | NumberValue(n: real)
    | TextValue(s: string)
    | ArrayValue(items: seq<Value>)
    | ObjectValue(fields: map<string, Value>)

  function Meaning(v: Json): Value
    decreases v, 1
  {
    match v
    case Null => NullValue
    case Bool(b) => BoolValue(b)
    case Number(n) => NumberValue(n)
    case Text(s) => TextValue(s)
    case Array(items) => ArrayValue(ItemMeanings(items))
    case Object(members) => ObjectValue(Fields(members))
  }

  function ItemMeanings(items: seq<Json>): (r: seq<Value>)
    ensures |r| == |items|
    decreases items, 0
  {
    if items == [] then [] else [Meaning(items[0])] + ItemMeanings(items[1..])
  }

  function Fields(members: seq<Member>): (r: map<string, Value>)
    ensures forall k :: k in r <==> FirstIndex(members, k) < |members|
    ensures forall k :: k in r ==> r[k] == Meaning(members[FirstIndex(members, k)].value)
    decreases members, 0
  {
    if members == [] then map[] else Fields(members[1..])[members[0].key := Meaning(members[0].value)]
  }

  /** Members that repeat a key carry the value the first one carries, at every
      level. Trees with distinct keys are consistent. */
  predicate Consistent(v: Json) {
    match v
    case Array(items) => forall i :: 0 <= i < |items| ==> Consistent(items[i])
    case Object(members) =>
      forall i :: 0 <= i < |members| ==>
        Consistent(members[i].value) && Meaning(members[i].value) == Fields(members)[members[i].key]
    case _ => true
  }

  predicate DistinctKeys(v: Json) {
    match v
    case Array(items) => forall i :: 0 <= i < |items| ==> DistinctKeys(items[i])
    case Object(members) =>
      && (forall i :: 0 <= i < |members| ==> DistinctKeys(members[i].value))
      && (forall i, j :: 0 <= i < j < |members| ==> members[i].key != members[j].key)
    case _ => true
  }

  lemma {:induction false} ItemMeaningAt(items: seq<Json>, i: nat)
    requires i < |items|
    ensures ItemMeanings(items)[i] == Meaning(items[i])
  {
    if i > 0 {
      ItemMeaningAt(items[1..], i - 1);
    }
  }

  // ------------------------------------------------------------- the comparison

  /** `cJSON_Compare` of two separate trees. */
  predicate Compare(a: Json, b: Json)
    decreases Nesting(a) + Nesting(b), 2, 0
  {
    match (a, b)
    case (Null, Null) => true
    case (Bool(x), Bool(y)) => x == y
    case (Number(x), Number(y)) => x == y
    case (Text(x), Text(y)) => x == y
    case (Array(xs), Array(ys)) => CompareItems(xs, ys)
    case (Object(xs), Object(ys)) => AllFound(xs, ys) && AllFound(ys, xs)
    case _ => false
  }

  predicate CompareItems(xs: seq<Json>, ys: seq<Json>)
    decreases ItemsNesting(xs) + ItemsNesting(ys), 3, |xs|
  {
    if xs == [] || ys == [] then xs == [] && ys == []
    else Compare(xs[0], ys[0]) && CompareItems(xs[1..], ys[1..])
  }

  /** Every member on the left has a partner on the right: the first one with its
      key, and it compares equal. */
  predicate AllFound(xs: seq<Member>, ys: seq<Member>)
    decreases MembersNesting(xs) + MembersNesting(ys), 3, |xs|
  {
    if xs == [] then true
    else
      var i := FirstIndex(ys, xs[0].key);
      && i < |ys|
      && (MemberNesting(ys, i); Compare(xs[0].value, ys[i].value))
      && AllFound(xs[1..], ys)
  }

  lemma {:induction false} MemberNesting(members: seq<Member>, i: nat)
    requires i < |members|
    ensures Nesting(members[i].value) <= MembersNesting(members)
  {
    if i > 0 {
      MemberNesting(members[1..], i - 1);
    }
  }

  // ------------------------------------------------------------- what it decides

  /** Exactly when the comparison succeeds: same meaning, and no repeated key
      with a second value on either side. */
  lemma {:induction false} CompareDecides(a: Json, b: Json)
    ensures Compare(a, b) <==> Consistent(a) && Consistent(b) && Meaning(a) == Meaning(b)
    decreases Nesting(a) + Nesting(b), 2, 0
  {
    match (a, b)
    case (Array(xs), Array(ys)) => ItemsDecide(xs, ys);
    case (Object(xs), Object(ys)) => MembersDecide(xs, ys); MembersDecide(ys, xs); FieldsAgree(xs, ys);
    case _ =>
  }

  lemma {:induction false} ItemsDecide(xs: seq<Json>, ys: seq<Json>)
    ensures CompareItems(xs, ys)
       <==> Consistent(Array(xs)) && Consistent(Array(ys)) && ItemMeanings(xs) == ItemMeanings(ys)
    decreases ItemsNesting(xs) + ItemsNesting(ys), 3, |xs|
  {
    if xs != [] && ys != [] {
      CompareDecides(xs[0], ys[0]);
      ItemsDecide(xs[1..], ys[1..]);
      ConsistentItems(xs);
      ConsistentItems(ys);
      assert ItemMeanings(xs)[0] == Meaning(xs[0]) && ItemMeanings(xs)[1..] == ItemMeanings(xs[1..]);
      assert ItemMeanings(ys)[0] == Meaning(ys[0]) && ItemMeanings(ys)[1..] == ItemMeanings(ys[1..]);
    }
  }

  lemma ConsistentItems(xs: seq<Json>)
    requires xs != []
    ensures Consistent(Array(xs)) <==> Consistent(xs[0]) && Consistent(Array(xs[1..]))
  {
    if Consistent(xs[0]) && Consistent(Array(xs[1..])) {
      forall i | 0 <= i < |xs|
        ensures Consistent(xs[i])
      {
        if i > 0 {
          assert xs[i] == xs[1..][i - 1];
        }
      }
    }
  }

  ghost predicate Partnered(x: Member, ys: seq<Member>) {
    && x.key in Fields(ys)
    && Consistent(x.value) && Consistent(ys[FirstIndex(ys, x.key)].value)
    && Meaning(x.value) == Fields(ys)[x.key]
  }

  lemma {:induction false} MembersDecide(xs: seq<Member>, ys: seq<Member>)
    ensures AllFound(xs, ys) <==> AllPartnered(xs, ys)
    decreases MembersNesting(xs) + MembersNesting(ys), 3, |xs|
  {
    if xs != [] {
      var i := FirstIndex(ys, xs[0].key);
      if i < |ys| {
        MemberNesting(ys, i);
        CompareDecides(xs[0].value, ys[i].value);
      }
      MembersDecide(xs[1..], ys);
      assert AllFound(xs, ys) <==> Partnered(xs[0], ys) && AllFound(xs[1..], ys);
      assert forall x :: x in xs <==> x == xs[0] || x in xs[1..];
    }
  }

  ghost predicate AllPartnered(xs: seq<Member>, ys: seq<Member>) {
    forall x :: x in xs ==> Partnered(x, ys)
  }

  lemma FieldsAgree(xs: seq<Member>, ys: seq<Member>)
    ensures AllPartnered(xs, ys) && AllPartnered(ys, xs)
       <==> Consistent(Object(xs)) && Consistent(Object(ys)) && Fields(xs) == Fields(ys)
  {
    hide *;
    if AllPartnered(xs, ys) && AllPartnered(ys, xs) {
      PartnersAgree(xs, ys);
    }
    if Consistent(Object(xs)) && Consistent(Object(ys)) && Fields(xs) == Fields(ys) {
      AgreeingPartners(xs, ys);
      AgreeingPartners(ys, xs);
    }
  }

  lemma PartnersAgree(xs: seq<Member>, ys: seq<Member>)
    requires AllPartnered(xs, ys) && AllPartnered(ys, xs)
    ensures Consistent(Object(xs)) && Consistent(Object(ys)) && Fields(xs) == Fields(ys)
  {
    hide Meaning, Fields, FirstIndex;
    forall k | k in Fields(xs)
      ensures k in Fields(ys) && Fields(xs)[k] == Fields(ys)[k]
    {
      assert Partnered(xs[FirstIndex(xs, k)], ys);
    }
    forall k | k in Fields(ys)
      ensures k in Fields(xs)
    {
      assert Partnered(ys[FirstIndex(ys, k)], xs);
    }
    assert Fields(xs) == Fields(ys);
    assert forall i :: 0 <= i < |xs| ==> Partnered(xs[i], ys);
    assert forall i :: 0 <= i < |ys| ==> Partnered(ys[i], xs);
  }

  lemma AgreeingPartners(xs: seq<Member>, ys: seq<Member>)
    requires Consistent(Object(xs)) && Consistent(Object(ys)) && Fields(xs) == Fields(ys)
    ensures AllPartnered(xs, ys)
  {
    hide Meaning, Fields, FirstIndex;
    forall x | x in xs
      ensures Partnered(x, ys)
    {
      var i :| 0 <= i < |xs| && xs[i] == x;
      assert FirstIndex(xs, x.key) <= i;
    }
  }

  /** Distinct keys are the caller's way to consistency. */
  lemma {:induction false} DistinctIsConsistent(v: Json)
    requires DistinctKeys(v)
    ensures Consistent(v)
    decreases v
  {
    match v
    case Array(items) =>
      forall i | 0 <= i < |items|
        ensures Consistent(items[i])
      {
        DistinctIsConsistent(items[i]);
      }
    case Object(members) =>
      forall i | 0 <= i < |members|
        ensures Consistent(members[i].value) && FirstIndex(members, members[i].key) == i
      {
        DistinctIsConsistent(members[i].value);
      }
    case _ =>
  }

  /** On trees with distinct keys the comparison is an equivalence, true exactly
      when the trees mean the same. */
  lemma CompareIsEquivalence(a: Json, b: Json, c: Json)
    requires DistinctKeys(a) && DistinctKeys(b) && DistinctKeys(c)
    ensures Compare(a, a)
    ensures Compare(a, b) <==> Meaning(a) == Meaning(b)
    ensures Compare(a, b) <==> Compare(b, a)
    ensures Compare(a, b) && Compare(b, c) ==> Compare(a, c)
  {
    DistinctIsConsistent(a);
    DistinctIsConsistent(b);
    DistinctIsConsistent(c);
    CompareDecides(a, a);
    CompareDecides(a, b);
    CompareDecides(b, a);
    CompareDecides(b, c);
    CompareDecides(a, c);
  }

  /** A tree compares equal to its duplicate exactly when it is consistent. */
  lemma DuplicateCompares(v: Json)
    ensures Compare(v, v) <==> Consistent(v)
  {
    CompareDecides(v, v);
  }

  /** `cJSON_Duplicate`: the same tree node by node, which compares equal to the original
      exactly when members that repeat a key agree. */
  method Duplicate(v: Json) returns (w: Json)
    ensures w == v
    ensures Compare(v, w) <==> Consistent(v)
    decreases v, 1
  {
    hide Compare, Consistent;
    DuplicateCompares(v);
    match v
    case Array(items) =>
      var copies := DuplicateItems(items);
      return Array(copies);
    case Object(members) =>
      var copies := DuplicateMembers(members);
      return Object(copies);
    case Null => return Null;
    case Bool(b) => return Bool(b);
    case Number(x) => return Number(x);
    case Text(s) => return Text(s);
  }

  method DuplicateItems(items: seq<Json>) returns (copies: seq<Json>)
    ensures copies == items
    decreases items, 0
  {
    hide Compare, Consistent;
    copies := [];
    for i := 0 to |items|
      invariant copies == items[..i]
    {
      var copy := Duplicate(items[i]);
      copies := copies + [copy];
    }
  }

  method DuplicateMembers(members: seq<Member>) returns (copies: seq<Member>)
    ensures copies == members
    decreases members, 0
  {
    hide Compare, Consistent;
    copies := [];
    for i := 0 to |members|
      invariant copies == members[..i]
    {
      var copy := Duplicate(members[i].value);
      copies := copies + [Member(members[i].key, copy)];
    }
  }

  /** `{"k":0,"k":1}` differs from its own duplicate. */
  lemma RepeatedKeyDiffersFromDuplicate()
    ensures var v := Object([Member("k", Number(0.0)), Member("k", Number(1.0))]); !Compare(v, v)
  {
    var members := [Member("k", Number(0.0)), Member("k", Number(1.0))];
    DuplicateCompares(Object(members));
    assert FirstIndex(members, "k") == 0;
    assert Meaning(members[1].value) != Fields(members)[members[1].key];
  }

  // ------------------------------------------------------------- the walk itself

  /** The loops of `cJSON_Compare`. */
  method CompareTrees(a: Json, b: Json) returns (same: bool)
    ensures same == Compare(a, b)
    decreases Nesting(a) + Nesting(b), 2, 0
  {
    match (a, b)
    case (Null, Null) => return true;
    case (Bool(x), Bool(y)) => return x == y;
    case (Number(x), Number(y)) => return x == y;
    case (Text(x), Text(y)) => return x == y;
    case (Array(xs), Array(ys)) =>
      same := CompareArrays(xs, ys);
    case (Object(xs), Object(ys)) =>
      var found := FindAll(xs, ys);
      if !found { return false; }
      same := FindAll(ys, xs);
    case _ => return false;
  }

  /** The loop over elements. */
  method CompareArrays(xs: seq<Json>, ys: seq<Json>) returns (same: bool)
    ensures same == CompareItems(xs, ys)
    decreases ItemsNesting(xs) + ItemsNesting(ys), 3, 0
  {
    hide Compare;
    var i := 0;
    assert xs[0..] == xs && ys[0..] == ys;
    while i < |xs| && i < |ys|
      invariant 0 <= i <= |xs| && i <= |ys|
      invariant CompareItems(xs, ys) == CompareItems(xs[i..], ys[i..])
      invariant ItemsNesting(xs[i..]) <= ItemsNesting(xs) && ItemsNesting(ys[i..]) <= ItemsNesting(ys)
    {
      assert xs[i..][1..] == xs[i + 1..] && ys[i..][1..] == ys[i + 1..];
      var equal := CompareTrees(xs[i], ys[i]);
      if !equal { return false; }
      i := i + 1;
    }
    return i == |xs| && i == |ys|;
  }

  /** One of the two loops over members. */
  method FindAll(xs: seq<Member>, ys: seq<Member>) returns (all: bool)
    ensures all == AllFound(xs, ys)
    decreases MembersNesting(xs) + MembersNesting(ys), 3
  {
    assert xs[0..] == xs;
    for i := 0 to |xs|
      invariant AllFound(xs, ys) == AllFound(xs[i..], ys)
    {
      assert xs[i..][1..] == xs[i + 1..];
      var k := FirstIndex(ys, xs[i].key);
      if k == |ys| { return false; }
      MemberNesting(xs, i);
      MemberNesting(ys, k);
      var equal := CompareTrees(xs[i].value, ys[k].value);
      if !equal { return false; }
    }
    return true;
  }
}
