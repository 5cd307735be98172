/** What a put leaves in the backend and in the cache. */
module PutSpec {
  import opened Wrappers
  import opened JsonTree
  import opened JsonNumber
  import opened Matching
  import opened StoreData
  import opened MemoryStore
  import opened CacheSpec
  import opened Backend

  /** The valid items, serialized, in order. */
  ghost function ValidRows(codec: NumberCodec, items: seq<Json>): seq<Row> {
    if items == [] then []
    else
      var n := |items| - 1;
      var item := items[n];
      ValidRows(codec, items[..n]) + (if ValidData(item) then [Row(DataKey(item), Serialize(codec, item))] else [])
  }

  /** The valid members, each under the key it carries: what a backend is given. */
  function Kept(members: seq<Member>): seq<Member> {
    if members == [] then []
    else
      var n := |members| - 1;
      var item := members[n].value;
      Kept(members[..n]) + (if ValidData(item) then [Member(DataKey(item), item)] else [])
  }

  /** A member that has a key, and can be read back if it is valid. */
  predicate Fit(codec: NumberCodec, m: Member) {
    HasKey(m.value) && (ValidData(m.value) ==> Storable(codec, m.value))
  }

  ghost predicate AllFit(codec: NumberCodec, members: seq<Member>) {
    && (forall i :: 0 <= i < |members| ==> Fit(codec, members[i]))
    && (forall i, j :: 0 <= i < j < |members| ==> OwnKey(members[i]) != OwnKey(members[j]))
  }

  function OwnKey(m: Member): string {
    if HasKey(m.value) then DataKey(m.value) else ""
  }

  ghost predicate KindFit(codec: NumberCodec, m: Member) {
    KindNamed(m.key).Some? && m.value.Object? && AllFit(codec, m.value.members)
  }

  /** A put of known kinds in which no key comes twice. */
  ghost predicate PutFit(codec: NumberCodec, data: seq<Member>) {
    && (forall i :: 0 <= i < |data| ==> KindFit(codec, data[i]))
    && Distinct(data)
  }

  ghost function Kinds(codec: NumberCodec, data: seq<Member>): (r: seq<(Kind, seq<Member>)>)
    requires PutFit(codec, data)
    ensures |r| == |data|
    ensures forall i :: 0 <= i < |r| ==> r[i] == (KindNamed(data[i].key).value, Kept(data[i].value.members))
  {
    seq(|data|, i requires 0 <= i < |data| =>
      assert KindFit(codec, data[i]); (KindNamed(data[i].key).value, Kept(data[i].value.members)))
  }

  /** A member the cache and the backend read alike: valid, not deleted, filed under
      its own key. */
  predicate Sound(codec: NumberCodec, m: Member) {
    Storable(codec, m.value) && DataKey(m.value) == m.key && Shows(m.value)
  }

  predicate AllSound(codec: NumberCodec, members: seq<Member>) {
    forall i :: 0 <= i < |members| ==> Sound(codec, members[i])
  }

  /** Invalid items are cached all the same. */
  function ItemsDoubt(d: Doubt, kind: Kind, members: seq<Member>, now: real): Doubt {
    if members == [] then d
    else
      var n := |members| - 1;
      var r := ItemsDoubt(d, kind, members[..n], now);
      if ValidData(members[n].value) then r else r[ItemSlot(kind, OwnKey(members[n])) := now]
  }

  /** The list is cached as it came, with deleted and misfiled members. */
  function KindDoubt(codec: NumberCodec, d: Doubt, kind: Kind, members: seq<Member>, now: real): Doubt {
    ItemsDoubt(if AllSound(codec, members) then d else d[AllSlot(kind) := now], kind, members, now)
  }

  /** What a put leaves in doubt. */
  function PutDoubt(codec: NumberCodec, data: seq<Member>, now: real): Doubt {
    if data == [] then map[]
    else
      var n := |data| - 1;
      var d, kind := PutDoubt(codec, data[..n], now), KindNamed(data[n].key);
      if kind.Some? && data[n].value.Object? then KindDoubt(codec, d, kind.value, data[n].value.members, now) else d
  }

  ghost predicate PutSound(codec: NumberCodec, data: seq<Member>) {
    forall i :: 0 <= i < |data| && data[i].value.Object? ==> AllSound(codec, data[i].value.members)
  }

  /** A put of sound members leaves no doubt. */
  lemma {:induction false} SoundPutLeavesNoDoubt(codec: NumberCodec, data: seq<Member>, now: real)
    requires PutSound(codec, data)
    ensures PutDoubt(codec, data, now) == map[]
    decreases |data|
  {
    hide AllSound, KindNamed, ItemsDoubt;
    if data != [] {
      var n := |data| - 1;
      SoundPutLeavesNoDoubt(codec, data[..n], now);
      if KindNamed(data[n].key).Some? && data[n].value.Object? {
        SoundItemsLeaveNoDoubt(codec, map[], KindNamed(data[n].key).value, data[n].value.members, now);
      }
    }
  }

  lemma {:induction false} SoundItemsLeaveNoDoubt(
      codec: NumberCodec, d: Doubt, kind: Kind, members: seq<Member>, now: real)
    requires AllSound(codec, members)
    ensures ItemsDoubt(d, kind, members, now) == d
    decreases |members|
  {
    hide ValidData, DataKey, Shows;
    if members != [] {
      var n := |members| - 1;
      assert Sound(codec, members[n]);
      SoundItemsLeaveNoDoubt(codec, d, kind, members[..n], now);
    }
  }

  lemma {:induction false} KeptIs(codec: NumberCodec, members: seq<Member>)
    requires AllFit(codec, members)
    ensures Distinct(Kept(members))
    ensures forall i :: 0 <= i < |members| && ValidData(members[i].value) ==>
      Member(OwnKey(members[i]), members[i].value) in Kept(members)
    ensures forall m :: m in Kept(members) ==> From(members, m)
    decreases |members|
  {
    hide Kept, Fit, OwnKey, ValidData, Distinct;
    if members == [] {
      KeptNothing();
    } else {
      var n := |members| - 1;
      var front, kept := members[..n], Kept(members[..n]);
      FitFront(codec, members);
      KeptIs(codec, front);
      KeptStep(codec, members);
      var last := Member(OwnKey(members[n]), members[n].value);
      forall i | 0 <= i < |kept|
        ensures kept[i].key != last.key && From(members, kept[i])
      {
        assert kept[i] in kept;
        var j :| 0 <= j < |front| && kept[i] == Member(OwnKey(front[j]), front[j].value);
        assert members[j] == front[j];
      }
      assert kept + [] == kept;
      if ValidData(members[n].value) {
        DistinctGrows(kept, last);
        assert From(members, last);
      }
    }
  }

  lemma KeptNothing()
    ensures Kept([]) == [] && Distinct(Kept([]))
  {
  }

  ghost predicate From(members: seq<Member>, m: Member) {
    exists i :: 0 <= i < |members| && m == Member(OwnKey(members[i]), members[i].value)
  }

  lemma FitAt(codec: NumberCodec, members: seq<Member>, i: nat)
    requires AllFit(codec, members) && i < |members|
    ensures Fit(codec, members[i])
  {
  }

  lemma DistinctGrows(t: Table, m: Member)
    requires Distinct(t) && forall i :: 0 <= i < |t| ==> t[i].key != m.key
    ensures Distinct(t + [m])
  {
  }

  lemma FitFront(codec: NumberCodec, members: seq<Member>)
    requires AllFit(codec, members) && members != []
    ensures AllFit(codec, members[..|members| - 1])
  {
    hide Fit, OwnKey;
  }

  lemma KeptStep(codec: NumberCodec, members: seq<Member>)
    requires members != [] && AllFit(codec, members)
    ensures
      var n := |members| - 1;
      var item := members[n].value;
      Kept(members) == Kept(members[..n]) + (if ValidData(item) then [Member(OwnKey(members[n]), item)] else [])
  {
    hide ValidData, DataKey, HasKey, Storable;
    assert Fit(codec, members[|members| - 1]);
  }

  /** Sound members are kept as they are. */
  lemma {:induction false} SoundIsKept(codec: NumberCodec, members: seq<Member>)
    requires AllSound(codec, members)
    ensures Kept(members) == members
    decreases |members|
  {
    hide Kept, Sound;
    if members == [] {
      KeptNothing();
    } else {
      var n := |members| - 1;
      assert Sound(codec, members[n]);
      SoundIsKept(codec, members[..n]);
      SoundKept(codec, members);
      assert members == members[..n] + [members[n]];
    }
  }

  lemma SoundKept(codec: NumberCodec, members: seq<Member>)
    requires members != [] && Sound(codec, members[|members| - 1])
    ensures var n := |members| - 1; Kept(members) == Kept(members[..n]) + [members[n]]
  {
    hide HasKey, DataKey, Shows;
  }

  lemma {:induction false} ValidRowsAll(codec: NumberCodec, members: seq<Member>)
    requires AllFit(codec, members)
    ensures RowsOf(codec, ValidRows(codec, MemberValues(members)), Kept(members))
    decreases |members|
  {
    hide *;
    if members == [] {
      NoRows(codec);
    } else {
      var n := |members| - 1;
      var values, m := MemberValues(members), members[n];
      FitFront(codec, members);
      ValidRowsAll(codec, members[..n]);
      assert values[..n] == MemberValues(members[..n]);
      FitAt(codec, members, n);
      ValidRowsStep(codec, values, m);
      KeptStep(codec, members);
      var before := ValidRows(codec, values[..n]);
      assert before + [] == before && Kept(members[..n]) + [] == Kept(members[..n]);
      if ValidData(m.value) {
        FitRow(codec, m);
        RowsGrow(codec, ValidRows(codec, values[..n]), Kept(members[..n]), Row(OwnKey(m), Serialize(codec, m.value)),
                 Member(OwnKey(m), m.value));
      }
    }
  }

  lemma NoRows(codec: NumberCodec)
    ensures RowsOf(codec, ValidRows(codec, MemberValues([])), Kept([]))
  {
  }

  lemma ValidRowsStep(codec: NumberCodec, items: seq<Json>, m: Member)
    requires items != [] && m.value == items[|items| - 1]
    ensures var n := |items| - 1;
      ValidRows(codec, items) == ValidRows(codec, items[..n])
        + (if ValidData(m.value) then [Row(OwnKey(m), Serialize(codec, m.value))] else [])
  {
    hide Serialize, DataKey, HasKey;
  }

  lemma RowsGrow(codec: NumberCodec, rows: seq<Row>, members: seq<Member>, row: Row, m: Member)
    requires RowsOf(codec, rows, members) && RowOf(codec, row, m)
    ensures RowsOf(codec, rows + [row], members + [m])
  {
    hide RowOf;
  }

  lemma FitRow(codec: NumberCodec, m: Member)
    requires Fit(codec, m) && ValidData(m.value)
    ensures RowOf(codec, Row(OwnKey(m), Serialize(codec, m.value)), Member(OwnKey(m), m.value))
  {
    hide Serialize, Deserialize, DataKey;
    SerializeReads(codec, m.value);
  }

  lemma PutFitAt(codec: NumberCodec, data: seq<Member>, i: nat)
    requires PutFit(codec, data) && i < |data|
    ensures KindFit(codec, data[i])
  {
  }

  lemma {:induction false} FindAppend(t: Table, m: Member, key: string)
    ensures Find(t + [m], key)
         == if Find(t, key).Some? then Find(t, key) else if m.key == key then Some(m.value) else None
  {
    if t != [] {
      assert (t + [m])[1..] == t[1..] + [m];
      FindAppend(t[1..], m, key);
    }
  }

  /** Filling makes one kind answer as the members do, over what was there. */
  lemma {:induction false} FilledAt(b: Items, kind: Kind, members: seq<Member>, k: Kind, key: string)
    requires Distinct(members)
    ensures var r := Filled(b, kind, members);
      var found := if k == kind then Find(members, key) else None;
      && ((k, key) in r <==> found.Some? || (k, key) in b)
      && ((k, key) in r ==> r[(k, key)] == if found.Some? then found.value else b[(k, key)])
    decreases |members|
  {
    hide Find;
    if members == [] {
      FindNone(members, key);
    } else {
      var n := |members| - 1;
      FilledAt(b, kind, members[..n], k, key);
      assert members[..n] + [members[n]] == members;
      FindAppend(members[..n], members[n], key);
      FindNone(members[..n], key);
      FindNone(members[..n], members[n].key);
    }
  }

  function Replaced(b: Items, kind: Kind, members: seq<Member>): Items {
    Filled(Cleared(b, kind), kind, members)
  }

  /** A kind that was replaced holds its members, and the other kinds what they had. */
  lemma ReplacedAt(b: Items, kind: Kind, members: seq<Member>, k: Kind, key: string)
    requires Distinct(members)
    ensures var r := Replaced(b, kind, members);
      if k == kind
      then ((k, key) in r <==> Find(members, key).Some?) && ((k, key) in r ==> Find(members, key) == Some(r[(k, key)]))
      else Same(b, r, k, key)
  {
    hide Find, Filled;
    FilledAt(Cleared(b, kind), kind, members, k, key);
  }

  /** Sound members list exactly what the backend then has. */
  lemma ReplacedLists(codec: NumberCodec, b: Items, kind: Kind, members: seq<Member>)
    requires AllFit(codec, members) && AllSound(codec, members)
    ensures Lists(Object(members), Replaced(b, kind, Kept(members)), kind)
  {
    hide Storable, DataKey, Shows, Replaced, Kept, AllFit;
    KeptIs(codec, members);
    SoundIsKept(codec, members);
    var r := Replaced(b, kind, members);
    forall key
      ensures Lookup(Object(members), key) == LiveItem(r, kind, key)
    {
      ReplacedAt(b, kind, members, kind, key);
      if Find(members, key).Some? {
        var i := FirstIndex(members, key);
        assert Sound(codec, members[i]);
      }
    }
  }

  /** A valid member is the backend's copy. */
  lemma ReplacedCopy(codec: NumberCodec, b: Items, kind: Kind, members: seq<Member>, i: nat)
    requires AllFit(codec, members) && i < |members| && ValidData(members[i].value)
    ensures Copy(Replaced(b, kind, Kept(members)), kind, OwnKey(members[i])) == members[i].value
  {
    hide AllFit, Kept, Replaced, ValidData, OwnKey, Find;
    KeptIs(codec, members);
    FindIs(Kept(members), OwnKey(members[i]), members[i].value);
    ReplacedAt(b, kind, Kept(members), kind, OwnKey(members[i]));
  }

  ghost predicate KindAbsent(c: Cache, kind: Kind) {
    forall e :: e in c ==> !e.slot.InitSlot? && e.slot.kind != kind
  }

  /** Replacing a kind the cache knows nothing of changes nothing between them. */
  lemma ReplacedKeeps(ttl: nat, c: Cache, b: Items, kind: Kind, members: seq<Member>, now: real, d: Doubt)
    requires Coherent(ttl, c, b, now, d) && Distinct(members) && KindAbsent(c, kind)
    ensures Coherent(ttl, c, Replaced(b, kind, members), now, d)
  {
    hide Replaced, Copy, Current, Shaped, Doubted, EntryAgrees;
    var r := Replaced(b, kind, members);
    forall i | 0 <= i < |c|
      ensures EntryAgrees(ttl, c[i], r, now) || Doubted(c[i], d)
    {
      assert c[i] in c;
      if EntryAgrees(ttl, c[i], b, now) {
        OtherKindAgrees(ttl, c[i], b, kind, members, now);
      }
    }
  }

  lemma OtherKindAgrees(ttl: nat, o: Entry, b: Items, kind: Kind, members: seq<Member>, now: real)
    requires EntryAgrees(ttl, o, b, now) && !o.slot.InitSlot? && o.slot.kind != kind && Distinct(members)
    ensures EntryAgrees(ttl, o, Replaced(b, kind, members), now)
  {
    hide Replaced, Current;
    var r := Replaced(b, kind, members);
    if o.slot.ItemSlot? {
      ReplacedAt(b, kind, members, o.slot.kind, o.slot.key);
    } else {
      forall x
        ensures LiveItem(b, o.slot.kind, x) == LiveItem(r, o.slot.kind, x)
      {
        ReplacedAt(b, kind, members, o.slot.kind, x);
      }
    }
  }

  /** An entry of a slot not yet cached may be added if it is right or in doubt. */
  lemma AddedFine(ttl: nat, c: Cache, b: Items, e: Entry, now: real, d: Doubt, more: Doubt)
    requires Coherent(ttl, c, b, now, d) && e.updatedOn == now
    requires forall o :: o in c ==> o.slot != e.slot
    requires (more == d && EntryAgrees(ttl, e, b, now)) || more == d[e.slot := now]
    ensures Coherent(ttl, [e] + c, b, now, more)
  {
    hide Current, EntryAgrees;
    AddedKeeps(ttl, c, e, now);
    var r := [e] + c;
    forall j | 0 < j < |r|
      ensures EntryAgrees(ttl, r[j], b, now) || Doubted(r[j], more)
    {
      assert r[j] == c[j - 1] && r[j] in c;
    }
  }

  lemma CopyAgrees(ttl: nat, b: Items, kind: Kind, key: string, now: real)
    ensures EntryAgrees(ttl, Entry(ItemSlot(kind, key), Copy(b, kind, key), now), b, now)
  {
  }

  lemma NothingCached(ttl: nat, b: Items, now: real, d: Doubt)
    ensures Coherent(ttl, [], b, now, d)
  {
  }

  lemma PutStep(b: Items, kinds: seq<(Kind, seq<Member>)>, i: nat)
    requires i < |kinds|
    ensures PutAll(b, kinds[..i + 1]) == Replaced(PutAll(b, kinds[..i]), kinds[i].0, kinds[i].1)
  {
    assert kinds[..i + 1][..i] == kinds[..i];
  }

  lemma PutDoubtStep(codec: NumberCodec, data: seq<Member>, i: nat, now: real)
    requires PutFit(codec, data) && i < |data|
    ensures KindFit(codec, data[i])
    ensures PutDoubt(codec, data[..i + 1], now)
         == KindDoubt(codec, PutDoubt(codec, data[..i], now), KindNamed(data[i].key).value, data[i].value.members, now)
  {
    hide KindDoubt, AllFit, KindNamed;
    assert KindFit(codec, data[i]);
    assert data[..i + 1][..i] == data[..i];
  }

  lemma ItemsDoubtStep(d: Doubt, kind: Kind, members: seq<Member>, i: nat, now: real)
    requires i < |members|
    ensures ItemsDoubt(d, kind, members[..i + 1], now) ==
      var r := ItemsDoubt(d, kind, members[..i], now);
      if ValidData(members[i].value) then r else r[ItemSlot(kind, OwnKey(members[i])) := now]
  {
    hide ValidData, OwnKey;
    assert members[..i + 1][..i] == members[..i];
  }

  ghost predicate KindBefore(kinds: seq<(Kind, seq<Member>)>, i: nat, kind: Kind) {
    exists j :: 0 <= j < i && j < |kinds| && kinds[j].0 == kind
  }

  lemma KindsDiffer(codec: NumberCodec, data: seq<Member>, i: nat)
    requires PutFit(codec, data) && i < |data|
    ensures KindFit(codec, data[i]) && !KindBefore(Kinds(codec, data), i, KindNamed(data[i].key).value)
  {
    hide AllFit, Kept;
    assert KindFit(codec, data[i]);
    forall j | 0 <= j < i
      ensures Kinds(codec, data)[j].0 != KindNamed(data[i].key).value
    {
      assert KindFit(codec, data[j]);
      KindNamesAreInverse(data[i].key, KindNamed(data[i].key).value);
      KindNamesAreInverse(data[j].key, KindNamed(data[j].key).value);
    }
  }
}
