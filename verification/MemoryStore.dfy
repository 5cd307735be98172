/** The in-memory feature store: one hash table per kind, each a list of entries in
    insertion order with no key twice. */
module MemoryStore {
  import opened Wrappers
  import opened JsonTree
  import opened Matching
  import opened StoreData

  type Table = seq<Member>

  ghost predicate Distinct(t: Table) {
    forall i, j :: 0 <= i < j < |t| ==> t[i].key != t[j].key
  }

  /** Every entry is filed under the key it carries. */
  ghost predicate Filed(t: Table) {
    forall i :: 0 <= i < |t| ==> HasKey(t[i].value) && DataKey(t[i].value) == t[i].key
  }

  function Find(t: Table, key: string): Option<Json> {
    Lookup(Object(t), key)
  }

  function Without(t: Table, key: string): Table {
    var i := FirstIndex(t, key);
    if i < |t| then t[..i] + t[i + 1..] else t
  }

  /** An item enters unless an entry at least as new is there. */
  function Merge(t: Table, key: string, item: Json): Table {
    match Find(t, key)
    case Some(existing) =>
      if DataVersion(existing) >= DataVersion(item) then t else Without(t, key) + [Member(key, item)]
    case None => t + [Member(key, item)]
  }

  function Newer(existing: Option<Json>, item: Json): Json {
    if existing.Some? && DataVersion(existing.value) >= DataVersion(item) then existing.value else item
  }

  lemma {:induction false} FindAt(t: Table, i: nat)
    requires Distinct(t) && i < |t|
    ensures FirstIndex(t, t[i].key) == i && Find(t, t[i].key) == Some(t[i].value)
  {
    var j := FirstIndex(t, t[i].key);
    assert j <= i;
    assert t[j].key == t[i].key;
  }

  lemma FindNone(t: Table, key: string)
    ensures Find(t, key).None? <==> forall i :: 0 <= i < |t| ==> t[i].key != key
  {
    if forall i :: 0 <= i < |t| ==> t[i].key != key {
      assert FirstIndex(t, key) == |t|;
    } else {
      var i :| 0 <= i < |t| && t[i].key == key;
      assert FirstIndex(t, key) <= i;
    }
  }

  /** What a table of distinct keys holds for a key, told by its entries. */
  lemma FindIs(t: Table, key: string, item: Json)
    requires Distinct(t) && Member(key, item) in t
    ensures Find(t, key) == Some(item)
  {
    var i :| 0 <= i < |t| && t[i] == Member(key, item);
    FindAt(t, i);
  }

  /** Merging sets one key to the newer of two entries and leaves the others. */
  lemma MergeFinds(t: Table, key: string, item: Json, other: string)
    requires Distinct(t) && Filed(t) && HasKey(item) && DataKey(item) == key
    ensures var r := Merge(t, key, item);
      && Distinct(r) && Filed(r)
      && Find(r, other) == (if other == key then Some(Newer(Find(t, key), item)) else Find(t, other))
  {
    hide HasKey, DataKey, DataVersion, Without;
    if Find(t, key).None? || DataVersion(Find(t, key).value) < DataVersion(item) {
      WithoutAbsent(t, key);
      ReplaceFinds(t, key, item, other);
    }
  }

  lemma WithoutAbsent(t: Table, key: string)
    ensures Find(t, key).None? ==> Without(t, key) == t
  {
  }

  lemma ReplaceFinds(t: Table, key: string, item: Json, other: string)
    requires Distinct(t) && Filed(t) && HasKey(item) && DataKey(item) == key
    ensures var r := Without(t, key) + [Member(key, item)];
      && Distinct(r) && Filed(r)
      && Find(r, other) == (if other == key then Some(item) else Find(t, other))
  {
    hide HasKey, DataKey, Without, Find;
    var kept := Without(t, key);
    var r := kept + [Member(key, item)];
    WithoutKeeps(t, key);
    assert forall j :: 0 <= j < |kept| ==> r[j] == kept[j];
    assert r[|kept|] == Member(key, item);
    FindNone(t, other);
    FindNone(r, other);
    if other == key {
      FindIs(r, key, item);
    } else if Find(t, other).Some? {
      FindMember(t, other);
      FindIs(r, other, Find(t, other).value);
    } else {
      assert forall j :: 0 <= j < |kept| ==> kept[j] in t;
    }
  }

  lemma FindMember(t: Table, key: string)
    ensures Find(t, key).Some? ==> Member(key, Find(t, key).value) in t
  {
  }

  /** Removal takes out the entry of one key. */
  lemma WithoutKeeps(t: Table, key: string)
    requires Distinct(t)
    ensures var r := Without(t, key);
      && Distinct(r) && (Filed(t) ==> Filed(r))
      && (forall i :: 0 <= i < |r| ==> r[i].key != key && r[i] in t)
      && (forall m :: m in t && m.key != key ==> m in r)
  {
    hide HasKey, DataKey, FirstIndex;
    var i := FirstIndex(t, key);
    if i < |t| {
      RemoveAt(t, i);
    }
  }

  lemma RemoveAt(t: Table, i: nat)
    requires Distinct(t) && i < |t|
    ensures var r := t[..i] + t[i + 1..];
      && Distinct(r) && (Filed(t) ==> Filed(r))
      && (forall j :: 0 <= j < |r| ==> r[j].key != t[i].key && r[j] in t)
      && (forall m :: m in t && m.key != t[i].key ==> m in r)
  {
    hide HasKey, DataKey;
    var r := t[..i] + t[i + 1..];
    assert forall j :: 0 <= j < |r| ==> r[j] == t[if j < i then j else j + 1];
    forall m | m in t && m.key != t[i].key
      ensures m in r
    {
      var j :| 0 <= j < |t| && t[j] == m;
      assert r[if j < i then j else j - 1] == m;
    }
  }

  /** The values of a collection, as an iterator visits them. */
  function Values(v: Json): seq<Json> {
    match v
    case Array(items) => items
    case Object(members) => MemberValues(members)
    case _ => []
  }

  function MemberValues(members: seq<Member>): (r: seq<Json>)
    ensures |r| == |members|
    ensures forall i :: 0 <= i < |r| ==> r[i] == members[i].value
  {
    if members == [] then [] else [members[0].value] + MemberValues(members[1..])
  }

  /** What a put holds for a kind: the values of every collection so named. */
  function PutItems(data: seq<Member>, kind: Kind): seq<Json> {
    if data == [] then []
    else
      var n := |data| - 1;
      PutItems(data[..n], kind) + (if KindNamed(data[n].key) == Some(kind) then Values(data[n].value) else [])
  }

  ghost predicate AllKeyed(items: seq<Json>) {
    forall i :: 0 <= i < |items| ==> HasKey(items[i])
  }

  ghost predicate Keyed(items: seq<Json>) {
    && AllKeyed(items)
    && (forall i, j :: 0 <= i < j < |items| ==> DataKey(items[i]) != DataKey(items[j]))
  }

  ghost function Filing(items: seq<Json>): (r: Table)
    requires AllKeyed(items)
    ensures Filed(r) && (Keyed(items) ==> Distinct(r))
  {
    seq(|items|, i requires 0 <= i < |items| => Member(DataKey(items[i]), items[i]))
  }

  lemma FilingGrows(items: seq<Json>, item: Json)
    requires AllKeyed(items) && HasKey(item)
    ensures AllKeyed(items + [item])
    ensures Filing(items + [item]) == Filing(items) + [Member(DataKey(item), item)]
  {
    hide HasKey, DataKey;
  }

  class MemoryStore {
    var features: Table
    var segments: Table
    var initialized: bool

    ghost predicate Valid()
      reads this
    {
      Distinct(features) && Filed(features) && Distinct(segments) && Filed(segments)
    }

    function Of(kind: Kind): Table
      reads this
    {
      if kind == Flag then features else segments
    }

    constructor ()
      ensures Valid() && features == [] && segments == [] && !initialized
    {
      features, segments, initialized := [], [], false;
    }

    /** `storeInit`: every known collection of the put is taken over; keys must be
        unique within a kind, as the hash tables demand. */
    method Init(data: seq<Member>)
      requires Keyed(PutItems(data, Flag)) && Keyed(PutItems(data, Segment))
      modifies this
      ensures Valid() && initialized
      ensures features == Filing(PutItems(data, Flag)) && segments == Filing(PutItems(data, Segment))
    {
      hide PutItems, Filing, Filed, Distinct, KindNamed, HasKey, DataKey;
      features, segments := [], [];
      PutItemsNone(data, Flag);
      PutItemsNone(data, Segment);
      var i := 0;
      while i < |data|
        invariant 0 <= i <= |data|
        invariant KeyedPrefix(data, i, Flag) && KeyedPrefix(data, i, Segment)
        invariant features == Filing(PutItems(data[..i], Flag))
        invariant segments == Filing(PutItems(data[..i], Segment))
      {
        PutItemsStep(data, i, Flag);
        PutItemsStep(data, i, Segment);
        var kind := KindNamed(data[i].key);
        if kind.Some? {
          assert kind.value == Flag || kind.value == Segment;
          AddAll(kind.value, Values(data[i].value), PutItems(data[..i], kind.value));
        }
        i := i + 1;
      }
      assert data[..i] == data;
      initialized := true;
    }

    /** The inner loop of `storeInit`. */
    method AddAll(kind: Kind, items: seq<Json>, ghost before: seq<Json>)
      requires Keyed(before + items) && Keyed(before) && Of(kind) == Filing(before)
      modifies this`features, this`segments
      ensures Of(kind) == Filing(before + items)
      ensures kind == Flag ==> segments == old(segments)
      ensures kind == Segment ==> features == old(features)
    {
      hide HasKey, DataKey, Filing;
      var i := 0;
      assert before + items[..0] == before;
      while i < |items|
        invariant 0 <= i <= |items|
        invariant AllKeyed(before + items[..i])
        invariant Of(kind) == Filing(before + items[..i])
        invariant kind == Flag ==> segments == old(segments)
        invariant kind == Segment ==> features == old(features)
      {
        assert (before + items)[|before| + i] == items[i];
        assert before + items[..i + 1] == before + items[..i] + [items[i]];
        FilingGrows(before + items[..i], items[i]);
        Add(kind, DataKey(items[i]), items[i]);
        i := i + 1;
      }
      assert items[..i] == items;
    }

    /** `addToStore`. */
    method Add(kind: Kind, key: string, item: Json)
      modifies this`features, this`segments
      ensures features == if kind == Flag then old(features) + [Member(key, item)] else old(features)
      ensures segments == if kind == Segment then old(segments) + [Member(key, item)] else old(segments)
    {
      if kind == Flag {
        features := features + [Member(key, item)];
      } else {
        segments := segments + [Member(key, item)];
      }
    }

    /** `storeGet`: what is there and not deleted. */
    method Get(kind: Kind, key: string) returns (item: Option<Json>)
      ensures item == Live(Of(kind), key)
    {
      item := Find(Of(kind), key);
      if item.Some? {
        DeletedIs(item.value);
        if IsDeleted(item.value) {
          item := None;
        }
      }
    }

    /** `storeAll`: an object of everything not deleted. */
    method All(kind: Kind) returns (all: Json)
      requires Valid()
      ensures all.Object? && Distinct(all.members)
      ensures forall key :: Lookup(all, key) == Live(Of(kind), key)
    {
      var t, members, i := Of(kind), [], 0;
      while i < |t|
        invariant 0 <= i <= |t| && t == Of(kind)
        invariant members == LiveMembers(t[..i])
      {
        assert t[..i + 1][..i] == t[..i];
        DeletedIs(t[i].value);
        if !IsDeleted(t[i].value) {
          members := members + [t[i]];
        }
        i := i + 1;
      }
      assert t[..i] == t;
      all := Object(members);
      LiveMembersKept(t);
      forall key
        ensures Lookup(all, key) == Live(t, key)
      {
        LiveMembersFind(t, key);
      }
    }

    /** `storeUpsert`. */
    method Upsert(kind: Kind, key: string, item: Json) returns (ok: bool)
      requires Valid()
      requires ValidData(item) ==> DataKey(item) == key
      modifies this`features, this`segments
      ensures Valid() && ok == ValidData(item)
      ensures Of(kind) == if ok then Merge(old(Of(kind)), key, item) else old(Of(kind))
      ensures kind == Flag ==> segments == old(segments)
      ensures kind == Segment ==> features == old(features)
    {
      if !ValidData(item) {
        return false;
      }
      MergeFinds(Of(kind), key, item, key);
      var existing := Find(Of(kind), key);
      if existing.Some? {
        if DataVersion(existing.value) >= DataVersion(item) {
          return true;
        }
        Drop(kind, key);
      }
      Add(kind, key, item);
      ok := true;
    }

    /** `removeAndDeleteItem`. */
    method Drop(kind: Kind, key: string)
      modifies this`features, this`segments
      ensures features == if kind == Flag then Without(old(features), key) else old(features)
      ensures segments == if kind == Segment then Without(old(segments), key) else old(segments)
    {
      var i := FirstIndex(Of(kind), key);
      if kind == Flag && i < |features| {
        features := features[..i] + features[i + 1..];
      } else if kind == Segment && i < |segments| {
        segments := segments[..i] + segments[i + 1..];
      }
    }

    /** `LDStoreUpsert`. */
    method Patch(kind: Kind, item: Json) returns (ok: bool)
      requires Valid()
      modifies this`features, this`segments
      ensures Valid() && ok == ValidData(item)
      ensures Of(kind) == if ok then Apply(old(Of(kind)), item) else old(Of(kind))
      ensures kind == Flag ==> segments == old(segments)
      ensures kind == Segment ==> features == old(features)
    {
      if ValidData(item) {
        ok := Upsert(kind, DataKey(item), item);
      } else {
        ok := false;
      }
    }

    /** `LDStoreRemove`. */
    method Remove(kind: Kind, key: string, version: nat) returns (ok: bool)
      requires Valid() && version < UINT_RANGE
      modifies this`features, this`segments
      ensures Valid() && ok
      ensures Of(kind) == Apply(old(Of(kind)), Removal(key, version))
      ensures kind == Flag ==> segments == old(segments)
      ensures kind == Segment ==> features == old(features)
    {
      var item := Removal(key, version);
      TombstoneReads(key, version, item);
      ok := Upsert(kind, key, item);
    }

    /** A whole run of patches and deletes of one kind. */
    method ApplyAll(kind: Kind, changes: seq<Json>)
      requires Valid() && AllKeyed(changes) && forall i :: 0 <= i < |changes| ==> ValidData(changes[i])
      modifies this`features, this`segments
      ensures Valid() && Of(kind) == After(old(Of(kind)), changes)
      ensures kind == Flag ==> segments == old(segments)
      ensures kind == Segment ==> features == old(features)
    {
      hide After, Merge, Filed, Distinct, ValidData, HasKey, DataKey;
      var i := 0;
      AfterNothing(Of(kind), changes[..0]);
      while i < |changes|
        invariant 0 <= i <= |changes| && Valid() && AllKeyed(changes[..i])
        invariant Of(kind) == After(old(Of(kind)), changes[..i])
        invariant kind == Flag ==> segments == old(segments)
        invariant kind == Segment ==> features == old(features)
      {
        AfterStep(old(Of(kind)), changes, i);
        var ok := Patch(kind, changes[i]);
        i := i + 1;
      }
      assert changes[..i] == changes;
    }
  }

  lemma PutItemsNone(data: seq<Member>, kind: Kind)
    ensures KeyedPrefix(data, 0, kind) && AllKeyed(PutItems(data[..0], kind)) && Filing(PutItems(data[..0], kind)) == []
  {
  }

  /** One more collection of a put adds its values if it is of the kind. */
  lemma PutItemsStep(data: seq<Member>, i: nat, kind: Kind)
    requires i < |data| && Keyed(PutItems(data, kind)) && KeyedPrefix(data, i, kind)
    ensures KeyedPrefix(data, i + 1, kind)
    ensures AllKeyed(PutItems(data[..i], kind)) && AllKeyed(PutItems(data[..i + 1], kind))
    ensures PutItems(data[..i + 1], kind) ==
      if KindNamed(data[i].key) == Some(kind) then PutItems(data[..i], kind) + Values(data[i].value)
      else PutItems(data[..i], kind)
  {
    hide HasKey, DataKey, Values, KindNamed;
    assert data[..i + 1][..i] == data[..i];
    KeyedStep(data, i, kind);
    assert PutItems(data[..i], kind) + [] == PutItems(data[..i], kind);
  }

  ghost predicate KeyedPrefix(data: seq<Member>, i: nat, kind: Kind)
    requires i <= |data|
  {
    Keyed(PutItems(data[..i], kind))
  }

  lemma {:induction false} KeyedStep(data: seq<Member>, i: nat, kind: Kind)
    requires i < |data| && Keyed(PutItems(data, kind))
    ensures KeyedPrefix(data, i + 1, kind)
    decreases |data|
  {
    var n := |data| - 1;
    if i < n {
      KeyedPrefixOf(PutItems(data[..n], kind), PutItems(data, kind));
      KeyedStep(data[..n], i, kind);
      assert data[..n][..i + 1] == data[..i + 1];
    } else {
      assert data[..i + 1] == data;
    }
  }

  lemma KeyedPrefixOf(a: seq<Json>, b: seq<Json>)
    requires a <= b && Keyed(b)
    ensures Keyed(a)
  {
    assert forall i :: 0 <= i < |a| ==> a[i] == b[i];
  }

  /** What the store answers for a key. */
  function Live(t: Table, key: string): Option<Json> {
    match Find(t, key)
    case Some(item) => if Shows(item) then Some(item) else None
    case None => None
  }

  function LiveMembers(t: Table): Table {
    if t == [] then []
    else
      var n := |t| - 1;
      LiveMembers(t[..n]) + (if Shows(t[n].value) then [t[n]] else [])
  }

  lemma {:induction false} LiveMembersKept(t: Table)
    requires Distinct(t)
    ensures Distinct(LiveMembers(t))
    ensures forall m :: m in LiveMembers(t) <==> m in t && Shows(m.value)
  {
    if t != [] {
      var n := |t| - 1;
      LiveMembersKept(t[..n]);
      assert t == t[..n] + [t[n]];
      forall i | 0 <= i < |LiveMembers(t[..n])|
        ensures LiveMembers(t[..n])[i].key != t[n].key
      {
        assert LiveMembers(t[..n])[i] in t[..n];
      }
    }
  }

  lemma LiveMembersFind(t: Table, key: string)
    requires Distinct(t)
    ensures Find(LiveMembers(t), key) == Live(t, key)
  {
    hide LiveMembers;
    LiveMembersKept(t);
    var found := Find(LiveMembers(t), key);
    if found.Some? {
      FindIs(t, key, found.value);
    } else if Live(t, key).Some? {
      FindIs(LiveMembers(t), key, Live(t, key).value);
    }
  }

  function Apply(t: Table, change: Json): Table
    requires HasKey(change)
  {
    Merge(t, DataKey(change), change)
  }

  /** The table after patches and deletes in turn. */
  function After(t: Table, changes: seq<Json>): Table
    requires AllKeyed(changes)
  {
    if changes == [] then t
    else Apply(After(t, changes[..|changes| - 1]), changes[|changes| - 1])
  }

  lemma AfterNothing(t: Table, changes: seq<Json>)
    requires changes == []
    ensures AllKeyed(changes) && After(t, changes) == t
  {
  }

  lemma AfterStep(t: Table, changes: seq<Json>, i: nat)
    requires i < |changes| && AllKeyed(changes)
    ensures AllKeyed(changes[..i + 1]) && AllKeyed(changes[..i]) && HasKey(changes[i])
    ensures After(t, changes[..i + 1]) == Apply(After(t, changes[..i]), changes[i])
  {
    hide HasKey, Merge, DataKey;
    assert changes[..i + 1][..i] == changes[..i];
  }

  /** Everything offered for a key, oldest first. */
  function Offers(t: Table, changes: seq<Json>, key: string): seq<Json>
    requires AllKeyed(changes)
  {
    if changes == [] then
      var found := Find(t, key);
      if found.Some? then [found.value] else []
    else
      var n := |changes| - 1;
      Offers(t, changes[..n], key) + (if DataKey(changes[n]) == key then [changes[n]] else [])
  }

  /** The highest version offered, and the earliest of those. */
  ghost predicate Wins(offers: seq<Json>, item: Json, i: nat) {
    && i < |offers| && offers[i] == item
    && (forall j :: 0 <= j < i ==> DataVersion(offers[j]) < DataVersion(item))
    && (forall j :: i < j < |offers| ==> DataVersion(offers[j]) <= DataVersion(item))
  }

  ghost predicate Winner(offers: seq<Json>, item: Json) {
    exists i :: Wins(offers, item, i)
  }

  /** Convergence: each key ends with the winner of what was offered for it. */
  lemma {:induction false} WinnerIsKept(t: Table, changes: seq<Json>, key: string)
    requires Distinct(t) && Filed(t)
    requires AllKeyed(changes)
    ensures Distinct(After(t, changes)) && Filed(After(t, changes))
    ensures var kept, offers := Find(After(t, changes), key), Offers(t, changes, key);
      && (kept.None? <==> offers == [])
      && (kept.Some? ==> Winner(offers, kept.value))
    decreases |changes|
  {
    hide Merge, DataKey, HasKey, Distinct, Filed, Newer, Find, Winner;
    if changes == [] {
      FirstWins(t, changes, key);
    } else {
      var n := |changes| - 1;
      var change, before := changes[n], After(t, changes[..n]);
      WinnerIsKept(t, changes[..n], key);
      MergeFinds(before, DataKey(change), change, key);
      if DataKey(change) == key {
        WinnerOfOneMore(Offers(t, changes[..n], key), Find(before, key), change);
        assert Offers(t, changes, key) == Offers(t, changes[..n], key) + [change];
      } else {
        assert Offers(t, changes, key) == Offers(t, changes[..n], key);
      }
    }
  }

  lemma FirstWins(t: Table, changes: seq<Json>, key: string)
    requires changes == []
    ensures var offers := Offers(t, changes, key);
      if Find(t, key).Some? then offers != [] && Winner(offers, Find(t, key).value) else offers == []
  {
    if Find(t, key).Some? {
      assert Wins(Offers(t, changes, key), Find(t, key).value, 0);
    }
  }

  lemma WinnerOfOneMore(offers: seq<Json>, kept: Option<Json>, change: Json)
    requires kept.None? <==> offers == []
    requires kept.Some? ==> Winner(offers, kept.value)
    ensures Winner(offers + [change], Newer(kept, change))
  {
    if kept.Some? && DataVersion(kept.value) >= DataVersion(change) {
      var i :| Wins(offers, kept.value, i);
      assert Newer(kept, change) == kept.value;
      assert Wins(offers + [change], kept.value, i);
    } else {
      forall j | 0 <= j < |offers|
        ensures DataVersion(offers[j]) < DataVersion(change)
      {
        var i :| Wins(offers, kept.value, i);
      }
      assert Newer(kept, change) == change;
      assert Wins(offers + [change], change, |offers|);
    }
  }

  lemma {:induction false} OfferedIff(t: Table, changes: seq<Json>, key: string, item: Json)
    requires AllKeyed(changes)
    ensures item in Offers(t, changes, key)
       <==> Find(t, key) == Some(item) || (item in changes && DataKey(item) == key)
    decreases |changes|
  {
    if changes != [] {
      var n := |changes| - 1;
      OfferedIff(t, changes[..n], key, item);
      assert changes == changes[..n] + [changes[n]];
    }
  }

  /** Versions tell apart what is offered for a key. */
  ghost predicate VersionsTell(t: Table, changes: seq<Json>) {
    forall a, b :: (a in changes || Stored(t, a)) && (b in changes || Stored(t, b)) && Alike(a, b) ==> a == b
  }

  predicate Alike(a: Json, b: Json) {
    HasKey(a) && HasKey(b) && DataKey(a) == DataKey(b) && DataVersion(a) == DataVersion(b)
  }

  predicate Stored(t: Table, item: Json) {
    HasKey(item) && Find(t, DataKey(item)) == Some(item)
  }

  /** The same changes in any order, repeated or not, end with the same answers. */
  lemma OrderDoesNotMatter(t: Table, one: seq<Json>, two: seq<Json>, key: string)
    requires Distinct(t) && Filed(t)
    requires AllKeyed(one) && AllKeyed(two)
    requires forall c :: c in one <==> c in two
    requires VersionsTell(t, one)
    ensures Find(After(t, one), key) == Find(After(t, two), key)
  {
    hide After, Offers, DataVersion, DataKey, HasKey, Find;
    WinnerIsKept(t, one, key);
    WinnerIsKept(t, two, key);
    var a, b := Offers(t, one, key), Offers(t, two, key);
    forall item
      ensures item in a <==> item in b
    {
      OfferedIff(t, one, key, item);
      OfferedIff(t, two, key, item);
    }
    assert forall i :: 0 <= i < |a| ==> a[i] in b;
    assert forall i :: 0 <= i < |b| ==> b[i] in a;
    if a != [] {
      var x, y := Find(After(t, one), key).value, Find(After(t, two), key).value;
      var i :| Wins(a, x, i);
      var j :| Wins(b, y, j);
      assert x in b && y in a;
      OfferedIff(t, one, key, x);
      OfferedIff(t, one, key, y);
      FiledFind(t, key);
      assert Alike(x, y);
    }
  }

  lemma FiledFind(t: Table, key: string)
    requires Distinct(t) && Filed(t)
    ensures Find(t, key).Some? ==> HasKey(Find(t, key).value) && DataKey(Find(t, key).value) == key
  {
  }

  /** Nothing as old as a delete brings the item back. */
  lemma {:induction false} DeleteIsFinal(t: Table, version: nat, changes: seq<Json>, key: string)
    requires Distinct(t) && Filed(t)
    requires Find(t, key).Some? && !Shows(Find(t, key).value) && DataVersion(Find(t, key).value) == version
    requires AllKeyed(changes)
    requires forall i :: 0 <= i < |changes| && DataKey(changes[i]) == key ==> DataVersion(changes[i]) <= version
    ensures Live(After(t, changes), key) == None
    ensures Find(After(t, changes), key) == Find(t, key)
    ensures Distinct(After(t, changes)) && Filed(After(t, changes))
    decreases |changes|
  {
    hide Merge, DataVersion, Distinct, Filed;
    if changes != [] {
      var n := |changes| - 1;
      DeleteIsFinal(t, version, changes[..n], key);
      MergeFinds(After(t, changes[..n]), DataKey(changes[n]), changes[n], key);
    }
  }
}
