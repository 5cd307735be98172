/** The cache in front of a persistent store. Each call reads the clock once, as `now`. A
    read finds the backend `up` or not; a write may also take effect in the backend while
    its caller is told that it failed. */
module CachingWrapper {
  import opened Wrappers
  import opened JsonTree
  import opened JsonNumber
  import opened Matching
  import opened StoreData
  import opened MemoryStore
  import opened CacheSpec
  import opened Backend
  import opened PutSpec

  /** `LDi_makeKindCollection`: invalid items are skipped. */
  method MakeKindCollection(codec: NumberCodec, items: seq<Json>) returns (rows: seq<Row>)
    ensures rows == ValidRows(codec, items)
  {
    hide ValidRows, ValidData, DataKey, HasKey, Serialize;
    NoValidRows(codec, items[..0]);
    rows := [];
    var i := 0;
    while i < |items|
      invariant 0 <= i <= |items| && rows == ValidRows(codec, items[..i])
    {
      NextValidRow(codec, items, i);
      if ValidData(items[i]) {
        rows := rows + [Row(DataKey(items[i]), Serialize(codec, items[i]))];
      }
      i := i + 1;
    }
    assert items[..i] == items;
  }

  lemma NoValidRows(codec: NumberCodec, items: seq<Json>)
    requires items == []
    ensures ValidRows(codec, items) == []
  {
  }

  lemma NextValidRow(codec: NumberCodec, items: seq<Json>, i: nat)
    requires i < |items|
    ensures ValidData(items[i]) ==> HasKey(items[i])
    ensures ValidRows(codec, items[..i + 1]) ==
      if ValidData(items[i]) then ValidRows(codec, items[..i]) + [Row(DataKey(items[i]), Serialize(codec, items[i]))]
      else ValidRows(codec, items[..i])
  {
    hide Serialize, DataKey, HasKey;
    assert items[..i + 1][..i] == items[..i];
    assert ValidRows(codec, items[..i]) + [] == ValidRows(codec, items[..i]);
  }

  /** `LDi_makeCollections`. */
  method MakeCollections(codec: NumberCodec, data: seq<Member>) returns (collections: seq<Collection>)
    requires PutFit(codec, data)
    ensures CollectionsOf(codec, collections, Kinds(codec, data))
  {
    hide AllFit, RowsOf, Distinct, ValidRows, KindNamed, PutFit, Kept, CollectionsOf;
    collections := [];
    ghost var kinds := Kinds(codec, data);
    var i := 0;
    NoCollections(codec);
    while i < |data|
      invariant 0 <= i <= |data|
      invariant CollectionsOf(codec, collections, kinds[..i])
    {
      PutFitAt(codec, data, i);
      var rows := MakeKindCollection(codec, Values(data[i].value));
      ValidRowsAll(codec, data[i].value.members);
      var more := Collection(KindNamed(data[i].key).value, rows);
      CollectionsGrow(codec, collections, kinds, i, more);
      collections := collections + [more];
      i := i + 1;
    }
    assert kinds[..i] == kinds;
  }

  lemma NoCollections(codec: NumberCodec)
    ensures CollectionsOf(codec, [], [])
  {
  }

  lemma CollectionsGrow(
      codec: NumberCodec, collections: seq<Collection>, kinds: seq<(Kind, seq<Member>)>, i: nat, more: Collection)
    requires i < |kinds| && CollectionsOf(codec, collections, kinds[..i])
    requires more.kind == kinds[i].0 && RowsOf(codec, more.rows, kinds[i].1)
    ensures CollectionsOf(codec, collections + [more], kinds[..i + 1])
  {
    hide RowsOf;
  }

  class CachingWrapper {
    const backend: Backend
    const ttl: nat
    var cache: Cache
    var initialized: bool
    ghost var clock: real
    /** Slots whose entries may differ from the backend. */
    ghost var doubt: Doubt

    constructor (backend: Backend, ttl: nat)
      requires backend.Valid()
      ensures this.backend == backend && this.ttl == ttl && cache == [] && !initialized && clock == 0.0
      ensures Valid() && doubt == map[]
    {
      hide AllReadable, Decoded;
      this.backend, this.ttl, cache, initialized, clock, doubt := backend, ttl, [], false, 0.0, map[];
    }

    /** What every call keeps, whatever was upserted: one entry per item and one note,
        none from the future, and no claim to be initialized that the backend denies. */
    ghost predicate Shape()
      reads this, backend
    {
      && backend.Valid()
      && Shaped(ttl, cache, clock)
      && (initialized ==> backend.ready)
    }

    /** Besides, whatever is current in the cache is what the backend has, or in doubt. */
    ghost predicate Valid()
      reads this, backend
    {
      Shape() && Coherent(ttl, cache, backend.Stored(), clock, doubt)
    }

    /** `storeInit`: a put settles everything but what it brings itself. If the backend took
        it and its reply was lost, everything cached is in doubt. */
    method Init(data: seq<Member>, now: real, reply: Reply) returns (ok: bool)
      requires Shape() && clock <= now && PutFit(backend.codec, data)
      modifies this, backend
      ensures Shape() && ok == reply.Fine? && clock == now && initialized == old(initialized)
      ensures backend.Stored() ==
        if reply.Down? then old(backend.Stored()) else PutAll(old(backend.Stored()), Kinds(backend.codec, data))
      ensures ok ==> Valid() && doubt == PutDoubt(backend.codec, data, now)
      ensures ok ==> backend.ready && forall e :: e in cache ==> !e.slot.InitSlot?
      ensures !ok ==> cache == old(cache)
      ensures reply.Down? ==> doubt == old(doubt) && (old(Valid()) ==> Valid())
      ensures reply.Lost? ==> doubt == Everything(cache, now) && Valid()
    {
      hide Coherent, Shaped, PutFit, AllReadable, Decoded, PutAll, CollectionsOf, PutDoubt, Everything;
      ghost var kinds := Kinds(backend.codec, data);
      ghost var before := backend.Stored();
      Later(now);
      var collections := MakeCollections(backend.codec, data);
      ok := backend.Init(collections, reply, kinds);
      if ok {
        MemoryInit(data, now, before);
        CoherentIsShaped(ttl, cache, backend.Stored(), now, PutDoubt(backend.codec, data, now));
        doubt := PutDoubt(backend.codec, data, now);
      } else if reply.Lost? {
        EverythingInDoubt(ttl, cache, backend.Stored(), now);
        doubt := Everything(cache, now);
      }
    }

    /** The time of a call. */
    ghost method Later(now: real)
      requires Shape() && clock <= now
      modifies this`clock
      ensures Shape() && clock == now && (old(Valid()) ==> Valid())
    {
      hide Coherent, Shaped, AllReadable, Decoded;
      ShapedLater(ttl, cache, clock, now);
      if Coherent(ttl, cache, backend.Stored(), clock, doubt) {
        CoherentLater(ttl, cache, backend.Stored(), clock, now, doubt);
      }
      clock := now;
    }

    /** `memoryInit`: the cache starts over with the put. */
    method MemoryInit(data: seq<Member>, now: real, ghost before: Items)
      requires PutFit(backend.codec, data)
      modifies this`cache
      ensures Coherent(ttl, cache, PutAll(before, Kinds(backend.codec, data)), now, PutDoubt(backend.codec, data, now))
      ensures forall e :: e in cache ==> !e.slot.InitSlot?
    {
      hide Coherent, AllFit, KindNamed, PutFit, Replaced, Kept, KindDoubt, PutAll, PutDoubt;
      ghost var kinds := Kinds(backend.codec, data);
      cache := [];
      PutNothing(ttl, backend.codec, before, now, kinds, data);
      var i := 0;
      while i < |data|
        invariant 0 <= i <= |data|
        invariant Coherent(ttl, cache, PutAll(before, kinds[..i]), now, PutDoubt(backend.codec, data[..i], now))
        invariant forall e :: e in cache ==> !e.slot.InitSlot? && KindBefore(kinds, i, e.slot.kind)
      {
        PutStep(before, kinds, i);
        PutDoubtStep(backend.codec, data, i, now);
        KindsDiffer(backend.codec, data, i);
        CacheKind(KindNamed(data[i].key).value, data[i].value.members, now, PutAll(before, kinds[..i]),
                  PutDoubt(backend.codec, data[..i], now));
        i := i + 1;
      }
      assert kinds[..i] == kinds && data[..i] == data;
    }

    /** One kind of the put: its list, then its items, valid or not. */
    method CacheKind(kind: Kind, members: seq<Member>, now: real, ghost before: Items, ghost d: Doubt)
      requires Coherent(ttl, cache, before, now, d) && KindAbsent(cache, kind)
      requires AllFit(backend.codec, members)
      modifies this`cache
      ensures Coherent(ttl, cache, Replaced(before, kind, Kept(members)), now,
        KindDoubt(backend.codec, d, kind, members, now))
      ensures forall e :: e in cache ==> e in old(cache) || (!e.slot.InitSlot? && e.slot.kind == kind)
    {
      hide Coherent, Lists, Replaced, AllFit, Kept, AllSound, ItemsDoubt, Distinct, EntryAgrees, OwnKey;
      hide ValidData, Copy, Fit, DataKey, HasKey;
      ghost var after := Replaced(before, kind, Kept(members));
      ghost var listed := if AllSound(backend.codec, members) then d else d[AllSlot(kind) := now];
      KeptIs(backend.codec, members);
      ReplacedKeeps(ttl, cache, before, kind, Kept(members), now, d);
      if AllSound(backend.codec, members) {
        ReplacedLists(backend.codec, before, kind, members);
        ListAgrees(ttl, after, kind, Object(members), now);
      }
      AddedFine(ttl, cache, after, Entry(AllSlot(kind), Object(members), now), now, d, listed);
      cache := [Entry(AllSlot(kind), Object(members), now)] + cache;
      ItemsDoubtNothing(listed, kind, members[..0], now);
      var i := 0;
      while i < |members|
        invariant 0 <= i <= |members|
        invariant Coherent(ttl, cache, after, now, ItemsDoubt(listed, kind, members[..i], now))
        invariant forall e :: e in cache ==>
          e in old(cache) || e.slot == AllSlot(kind) || KeyBefore(members, i, e.slot, kind)
      {
        OwnKeys(backend.codec, members, i);
        ItemsDoubtStep(listed, kind, members, i, now);
        var key := DataKey(members[i].value);
        if ValidData(members[i].value) {
          ReplacedCopy(backend.codec, before, kind, members, i);
          CopyAgrees(ttl, after, kind, key, now);
        }
        ghost var e := Entry(ItemSlot(kind, key), members[i].value, now);
        AddedFine(ttl, cache, after, e, now, ItemsDoubt(listed, kind, members[..i], now),
          ItemsDoubt(listed, kind, members[..i + 1], now));
        cache := [Entry(ItemSlot(kind, key), members[i].value, now)] + cache;
        i := i + 1;
      }
      assert members[..i] == members;
    }

    /** `storeGet`: from the cache while current, else from the backend. What is served
        was put in at most the TTL ago; unless the item is in doubt it is what the
        backend has. */
    method Get(kind: Kind, key: string, now: real, up: bool) returns (ok: bool, item: Option<Json>)
      requires Shape() && clock <= now
      modifies this
      ensures Shape() && (old(Valid()) ==> Valid()) && clock == now && initialized == old(initialized)
      ensures ok == (up || old(Held(ttl, cache, ItemSlot(kind, key), now)).Some?)
      ensures doubt == if up && old(Held(ttl, cache, ItemSlot(kind, key), now)).None?
                       then old(doubt) - {ItemSlot(kind, key), AllSlot(kind)} else old(doubt)
      ensures old(Held(ttl, cache, ItemSlot(kind, key), now)).Some? ==>
        exists e ::
          && e in old(cache) && 0.0 <= now - e.updatedOn <= ttl as real && item == LiveEntry(e)
          && e.slot == ItemSlot(kind, key)
      ensures ttl != 0 ==>
        forall e :: e in old(cache) && e.slot == ItemSlot(kind, key) && now - e.updatedOn <= ttl as real ==>
          ok && item == LiveEntry(e)
      ensures ok && old(Held(ttl, cache, ItemSlot(kind, key), now)).None? ==>
        item == LiveItem(backend.Stored(), kind, key)
      ensures ok && old(Valid()) && !Doubtful(ttl, old(doubt), ItemSlot(kind, key), now) ==>
        item == LiveItem(backend.Stored(), kind, key)
      ensures !ok ==> item == None
    {
      hide Coherent, Newest, IsDeleted, Shows, Shaped, Decoded, AllReadable, Doubtful, Tombstone, Stamped;
      Later(now);
      var slot := ItemSlot(kind, key);
      RecentAreHeld(ttl, cache, slot, now);
      var i := Newest(cache, slot);
      if i < |cache| && Current(ttl, cache[i], now) {
        ShapedIsStamped(ttl, cache, now);
        StampedBefore(cache, now, i);
        if Coherent(ttl, cache, backend.Stored(), now, doubt) && !Doubtful(ttl, doubt, slot, now) {
          HeldAgrees(ttl, cache, backend.Stored(), now, doubt, slot);
          CopyIsLive(backend.Stored(), kind, key);
        }
        DeletedIs(cache[i].item);
        return true, if IsDeleted(cache[i].item) then None else Some(cache[i].item);
      }
      ok, item := GetFromBackend(kind, key, now, up);
    }

    /** `getSingleItemFromBackend`. */
    method GetFromBackend(kind: Kind, key: string, now: real, up: bool) returns (ok: bool, item: Option<Json>)
      requires Shape() && clock == now && Held(ttl, cache, ItemSlot(kind, key), now).None?
      modifies this`cache, this`doubt
      ensures Shape() && (old(Valid()) ==> Valid()) && ok == up
      ensures doubt == if ok then old(doubt) - {ItemSlot(kind, key), AllSlot(kind)} else old(doubt)
      ensures item == if ok then LiveItem(backend.Stored(), kind, key) else None
    {
      hide Coherent, Newest, IsDeleted, Shows, Deserialize, DataKey, HasKey, ValidData, Held, Entered, DataVersion;
      hide Shaped, AllReadable, Decoded;
      item := None;
      var text;
      ok, text := backend.Get(kind, key, up);
      if !ok {
        return;
      }
      ghost var stored := backend.Stored();
      EnteredShaped(ttl, cache, kind, key, Copy(stored, kind, key), now);
      if Coherent(ttl, cache, stored, now, doubt) {
        FetchKeeps(ttl, cache, stored, kind, key, now, doubt);
      }
      doubt := doubt - {ItemSlot(kind, key), AllSlot(kind)};
      if text.None? {
        var missing := MakeDeleted(key, 0);
        TombstoneReads(key, 0, missing);
        UpsertMemory(kind, missing, now);
        return;
      }
      StoredItem(backend.codec, backend.texts, kind, key);
      var found := Deserialize(backend.codec, text.value).value;
      UpsertMemory(kind, found, now);
      DeletedIs(found);
      if !IsDeleted(found) {
        item := Some(found);
      }
    }

    /** `upsertMemory`. */
    method UpsertMemory(kind: Kind, item: Json, now: real)
      requires HasKey(item)
      modifies this`cache
      ensures cache == Cached(ttl, old(cache), kind, DataKey(item), item, now)
    {
      hide DataVersion, DataKey, HasKey;
      var slot := ItemSlot(kind, DataKey(item));
      var i := Newest(cache, slot);
      if i < |cache| && Current(ttl, cache[i], now) && DataVersion(cache[i].item) >= DataVersion(item) {
        return;
      }
      cache := Removed(cache, AllSlot(kind));
      cache := Removed(cache, slot);
      cache := [Entry(slot, item, now)] + cache;
    }

    /** `storeAll`: from the cache while current, else from the backend; unless the list
        is in doubt, exactly the live items of the backend. */
    method All(kind: Kind, now: real, up: bool) returns (ok: bool, list: Json)
      requires Shape() && clock <= now
      modifies this
      ensures Shape() && (old(Valid()) ==> Valid()) && clock == now && initialized == old(initialized)
      ensures ok == (up || old(Held(ttl, cache, AllSlot(kind), now)).Some?)
      ensures doubt
           == if up && old(Held(ttl, cache, AllSlot(kind), now)).None?
              then old(doubt) - {AllSlot(kind)}
              else old(doubt)
      ensures old(Held(ttl, cache, AllSlot(kind), now)).Some? ==>
        exists e ::
          && e in old(cache) && 0.0 <= now - e.updatedOn <= ttl as real && list == e.item
          && e.slot == AllSlot(kind)
      ensures ttl != 0 ==>
        forall e :: e in old(cache) && e.slot == AllSlot(kind) && now - e.updatedOn <= ttl as real ==>
          ok && list == e.item
      ensures ok && old(Held(ttl, cache, AllSlot(kind), now)).None? ==> Lists(list, backend.Stored(), kind)
      ensures ok && old(Valid()) && !Doubtful(ttl, old(doubt), AllSlot(kind), now) ==>
        Lists(list, backend.Stored(), kind)
    {
      hide Coherent, Newest, Lists, Readable, Deserialize, Decoded, Shaped, AllReadable, Doubtful;
      Later(now);
      var slot := AllSlot(kind);
      RecentAreHeld(ttl, cache, slot, now);
      var i := Newest(cache, slot);
      if i < |cache| && Current(ttl, cache[i], now) {
        ShapedIsStamped(ttl, cache, now);
        assert cache[i] in cache;
        if Coherent(ttl, cache, backend.Stored(), now, doubt) && !Doubtful(ttl, doubt, slot, now) {
          HeldAgrees(ttl, cache, backend.Stored(), now, doubt, slot);
        }
        return true, cache[i].item;
      }
      var rows;
      list := Null;
      ok, rows := backend.All(kind, up);
      if ok {
        list := ReadRows(kind, rows);
        ListedShaped(ttl, cache, kind, list, now);
        if Coherent(ttl, cache, backend.Stored(), now, doubt) {
          ListedKeeps(ttl, cache, backend.Stored(), kind, list, now, doubt);
        }
        cache := [Entry(slot, list, now)] + cache;
        doubt := doubt - {slot};
      }
    }

    /** The loop of `getAllItemsFromBackend`. */
    method ReadRows(kind: Kind, rows: seq<Row>) returns (list: Json)
      requires backend.Valid()
      requires forall i, j :: 0 <= i < j < |rows| ==> rows[i].key != rows[j].key
      requires forall i :: 0 <= i < |rows| ==>
        (kind, rows[i].key) in backend.texts && backend.texts[(kind, rows[i].key)] == rows[i].text
      requires forall k :: k in backend.texts && k.0 == kind ==> Row(k.1, backend.texts[k]) in rows
      ensures Lists(list, backend.Stored(), kind)
    {
      hide Deserialize, ValidData, DataKey, HasKey, IsDeleted, Shows, Readable, Read, Lists;
      ghost var stored := backend.Stored();
      var members: seq<Member>, i := [], 0;
      ReadNothing(rows, stored, kind);
      while i < |rows|
        invariant 0 <= i <= |rows| && Read(rows, i, members, stored, kind)
      {
        ReadableItem(backend.codec, rows[i].key, backend.texts[(kind, rows[i].key)]);
        var item := Deserialize(backend.codec, rows[i].text).value;
        DeletedIs(item);
        if !IsDeleted(item) {
          ReadLive(rows, i, members, stored, kind, item);
          members := members + [Member(DataKey(item), item)];
        } else {
          ReadDead(rows, i, members, stored, kind);
        }
        i := i + 1;
      }
      list := Object(members);
      forall k | k in stored && k.0 == kind
        ensures exists j :: 0 <= j < |rows| && rows[j].key == k.1
      {
        var j :| 0 <= j < |rows| && rows[j] == Row(k.1, backend.texts[k]);
      }
      ReadAll(rows, members, stored, kind);
    }

    /** `storeUpsert` of a valid item, of any version: it leaves in doubt at most its own
        slot and its kind's list, and a cache in no doubt at all stays so exactly when the
        upsert was safe. */
    method Upsert(kind: Kind, item: Json, now: real, reply: Reply) returns (ok: bool)
      requires Shape() && clock <= now && Storable(backend.codec, item)
      modifies this, backend`texts
      ensures Shape() && (old(Valid()) ==> Valid())
      ensures ok == reply.Fine? && clock == now && initialized == old(initialized)
      ensures backend.Stored() ==
        if reply.Down? then old(backend.Stored())
        else Upserted(backend.keeps, old(backend.Stored()), kind, DataKey(item), item)
      ensures doubt ==
        match reply
        case Fine =>
          UpsertDoubt(backend.keeps, ttl, old(cache), old(backend.Stored()), kind, DataKey(item), item, now, old(doubt))
        case Down => old(doubt)
        case Lost => LostDoubt(backend.keeps, old(backend.Stored()), kind, DataKey(item), item, now, old(doubt))
      ensures ok && old(Valid()) && old(doubt) == map[] ==>
        (Coherent(ttl, cache, backend.Stored(), now, map[])
         <==> Safe(backend.keeps, ttl, old(cache), old(backend.Stored()), kind, DataKey(item), item, now))
    {
      hide Coherent, Shaped, Deserialize, Serialize, DataVersion, IsDeleted, Shows, DataKey, ValidData;
      hide Upserted, Cached, Safe;
      hide UpsertDoubt, LostDoubt, AllReadable, Decoded;
      StorableHasKey(backend.codec, item);
      SerializeReads(backend.codec, item);
      Later(now);
      ghost var stored, key, keeps := backend.Stored(), DataKey(item), backend.keeps;
      CachedShaped(ttl, cache, kind, key, item, now);
      if Coherent(ttl, cache, stored, now, doubt) {
        UpsertKeeps(keeps, ttl, cache, stored, kind, key, item, now, doubt);
        LostKeeps(keeps, ttl, cache, stored, kind, key, item, now, doubt);
        if doubt == map[] {
          UpsertAgreesExactlyWhenSafe(keeps, ttl, cache, stored, kind, key, item, now);
        }
      }
      ok := backend.Upsert(kind, DataKey(item), Serialize(backend.codec, item), DataVersion(item), reply);
      if ok {
        doubt := UpsertDoubt(keeps, ttl, cache, stored, kind, key, item, now, doubt);
        UpsertMemory(kind, item, now);
      } else if reply.Lost? {
        doubt := LostDoubt(keeps, stored, kind, key, item, now, doubt);
      }
    }

    /** `storeInitialized`: true stays true, and false is believed for a while. */
    method Initialized(now: real, up: bool) returns (r: bool)
      requires Shape() && clock <= now
      modifies this`cache, this`initialized, this`clock
      ensures Shape() && (old(Valid()) ==> Valid()) && clock == now
      ensures r == initialized && (old(initialized) ==> r)
      ensures r ==> backend.ready
      ensures !r && backend.ready && up ==> old(Held(ttl, cache, InitSlot, now)).Some?
    {
      hide Coherent, Newest, Shaped, Decoded, AllReadable;
      Later(now);
      NoteShaped(ttl, cache, now);
      if Coherent(ttl, cache, backend.Stored(), now, doubt) {
        NoteAgrees(ttl, cache, backend.Stored(), now, doubt);
      }
      if initialized {
        return true;
      }
      var i := Newest(cache, InitSlot);
      if ttl != 0 && i < |cache| && now - cache[i].updatedOn <= ttl as real {
        return false;
      }
      cache := Removed(cache, InitSlot);
      r := backend.Initialized(up);
      if r {
        initialized := true;
        return;
      }
      cache := [Entry(InitSlot, Null, now)] + cache;
    }
  }

  /** What a cached item answers. */
  function LiveEntry(e: Entry): Option<Json> {
    if Shows(e.item) then Some(e.item) else None
  }

  lemma StampedBefore(c: Cache, now: real, i: nat)
    requires Stamped(c, now) && i < |c|
    ensures c[i] in c && c[i].updatedOn <= now
  {
  }

  /** The copy of an item answers as the backend does. */
  lemma RecentAreHeld(ttl: nat, c: Cache, s: Slot, now: real)
    requires Shaped(ttl, c, now)
    ensures forall e :: e in c && e.slot == s && ttl != 0 && now - e.updatedOn <= ttl as real ==>
      Held(ttl, c, s, now) == Some(e.item)
  {
    hide Shaped, Held;
    forall e | e in c && e.slot == s && ttl != 0 && now - e.updatedOn <= ttl as real
      ensures Held(ttl, c, s, now) == Some(e.item)
    {
      HeldWhenRecent(ttl, c, now, e);
    }
  }

  lemma CopyIsLive(b: Items, kind: Kind, key: string)
    ensures (if Shows(Copy(b, kind, key)) then Some(Copy(b, kind, key)) else None) == LiveItem(b, kind, key)
  {
    TombstoneReads(key, 0, Tombstone(key, 0));
  }

  lemma ShapedIsStamped(ttl: nat, c: Cache, now: real)
    requires Shaped(ttl, c, now)
    ensures Stamped(c, now)
  {
  }

  lemma PutNothing(
      ttl: nat, codec: NumberCodec, b: Items, now: real, kinds: seq<(Kind, seq<Member>)>, data: seq<Member>)
    ensures Coherent(ttl, [], PutAll(b, kinds[..0]), now, PutDoubt(codec, data[..0], now))
  {
    NothingCached(ttl, PutAll(b, kinds[..0]), now, PutDoubt(codec, data[..0], now));
  }

  lemma ItemsDoubtNothing(d: Doubt, kind: Kind, members: seq<Member>, now: real)
    requires members == []
    ensures ItemsDoubt(d, kind, members, now) == d
  {
  }

  lemma OwnKeys(codec: NumberCodec, members: seq<Member>, i: nat)
    requires AllFit(codec, members) && i < |members|
    ensures HasKey(members[i].value) && DataKey(members[i].value) == OwnKey(members[i])
    ensures forall j :: 0 <= j < i ==> OwnKey(members[j]) != OwnKey(members[i])
  {
    hide ValidData, Storable;
    assert Fit(codec, members[i]);
  }

  lemma NoteShaped(ttl: nat, c: Cache, now: real)
    requires Shaped(ttl, c, now)
    ensures Shaped(ttl, Removed(c, InitSlot), now)
      && Shaped(ttl, [Entry(InitSlot, Null, now)] + Removed(c, InitSlot), now)
  {
    hide Current, Removed;
    RemovedKeeps(ttl, c, InitSlot, now);
    AddedKeeps(ttl, Removed(c, InitSlot), Entry(InitSlot, Null, now), now);
  }

  /** The note is moved without disturbing the rest. */
  lemma NoteAgrees(ttl: nat, c: Cache, b: Items, now: real, d: Doubt)
    requires Coherent(ttl, c, b, now, d)
    ensures Coherent(ttl, Removed(c, InitSlot), b, now, d)
    ensures Coherent(ttl, [Entry(InitSlot, Null, now)] + Removed(c, InitSlot), b, now, d)
  {
    hide Copy, Lists, Current, Removed, Doubted;
    var rest, e := Removed(c, InitSlot), Entry(InitSlot, Null, now);
    RemovedKeeps(ttl, c, InitSlot, now);
    NoteShaped(ttl, c, now);
    forall i | 0 <= i < |rest|
      ensures EntryAgrees(ttl, rest[i], b, now) || Doubted(rest[i], d)
    {
      assert rest[i] in c;
    }
    var r := [e] + rest;
    assert forall j :: 0 < j < |r| ==> r[j] == rest[j - 1];
  }

  ghost predicate KeyBefore(members: seq<Member>, i: nat, slot: Slot, kind: Kind) {
    slot.ItemSlot? && slot.kind == kind && exists j :: 0 <= j < i && j < |members| && OwnKey(members[j]) == slot.key
  }

  ghost predicate KeyIn(rows: seq<Row>, i: nat, key: string) {
    exists j :: 0 <= j < i && j < |rows| && rows[j].key == key
  }

  lemma StorableHasKey(codec: NumberCodec, item: Json)
    requires Storable(codec, item)
    ensures ValidData(item) && HasKey(item)
  {
  }

  lemma ReadableItem(codec: NumberCodec, key: string, text: string)
    requires Readable(codec, key, text)
    ensures var item := Deserialize(codec, text); item.Some? && HasKey(item.value) && DataKey(item.value) == key
  {
    hide Deserialize;
  }

  /** Members that are the live items among the first rows. */
  ghost predicate Read(rows: seq<Row>, i: nat, members: seq<Member>, b: Items, kind: Kind) {
    && i <= |rows| && Distinct(members)
    && (forall m :: m in members ==> LiveItem(b, kind, m.key) == Some(m.value) && KeyIn(rows, i, m.key))
    && (forall j :: 0 <= j < i ==> RowIn(rows[j], members, b, kind))
  }

  ghost predicate RowIn(row: Row, members: seq<Member>, b: Items, kind: Kind) {
    var item := LiveItem(b, kind, row.key);
    item.Some? ==> Member(row.key, item.value) in members
  }

  lemma ReadNothing(rows: seq<Row>, b: Items, kind: Kind)
    ensures Read(rows, 0, [], b, kind)
  {
  }

  lemma ReadLive(rows: seq<Row>, i: nat, members: seq<Member>, b: Items, kind: Kind, item: Json)
    requires Read(rows, i, members, b, kind) && i < |rows| && LiveItem(b, kind, rows[i].key) == Some(item)
    requires forall j, k :: 0 <= j < k < |rows| ==> rows[j].key != rows[k].key
    ensures Read(rows, i + 1, members + [Member(rows[i].key, item)], b, kind)
  {
    hide LiveItem;
    var more := members + [Member(rows[i].key, item)];
    assert forall m :: m in members ==> m.key != rows[i].key;
    forall m | m in more
      ensures KeyIn(rows, i + 1, m.key)
    {
      if m in members {
        assert KeyIn(rows, i, m.key);
      }
    }
    forall j | 0 <= j < i + 1
      ensures RowIn(rows[j], more, b, kind)
    {
      assert j < i ==> RowIn(rows[j], members, b, kind);
    }
  }

  lemma ReadDead(rows: seq<Row>, i: nat, members: seq<Member>, b: Items, kind: Kind)
    requires Read(rows, i, members, b, kind) && i < |rows| && LiveItem(b, kind, rows[i].key).None?
    ensures Read(rows, i + 1, members, b, kind)
  {
    hide LiveItem;
    forall m | m in members
      ensures KeyIn(rows, i + 1, m.key)
    {
      assert KeyIn(rows, i, m.key);
    }
  }

  lemma ReadAll(rows: seq<Row>, members: seq<Member>, b: Items, kind: Kind)
    requires Read(rows, |rows|, members, b, kind)
    requires forall k :: k in b && k.0 == kind ==> exists j :: 0 <= j < |rows| && rows[j].key == k.1
    ensures Lists(Object(members), b, kind)
  {
    hide IsDeleted, Shows;
    forall key
      ensures Lookup(Object(members), key) == LiveItem(b, kind, key)
    {
      if (kind, key) in b {
        var j :| 0 <= j < |rows| && rows[j].key == key;
        assert RowIn(rows[j], members, b, kind);
      }
      MembersList(members, LiveItem(b, kind, key), key);
    }
  }

  /** Members with distinct keys answer a lookup by membership. */
  lemma MembersList(members: seq<Member>, answer: Option<Json>, key: string)
    requires Distinct(members)
    requires answer.Some? ==> Member(key, answer.value) in members
    requires answer.None? ==> forall m :: m in members ==> m.key != key
    ensures Lookup(Object(members), key) == answer
  {
    if answer.Some? {
      FindIs(members, key, answer.value);
    } else {
      FindNone(members, key);
    }
  }
}
