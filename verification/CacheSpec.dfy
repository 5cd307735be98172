/** What a cache in front of a backend holds, and when the two agree.

    A cache is a list of entries, newest first; looking a slot up finds its newest
    entry. */
module CacheSpec {
  import opened Wrappers
  import opened JsonTree
  import opened Matching
  import opened StoreData

  /** What a cache entry is filed under: an item, the list of a kind, or the note
      that the backend was found uninitialized. */
  datatype Slot = ItemSlot(kind: Kind, key: string) | AllSlot(kind: Kind) | InitSlot

  datatype Entry = Entry(slot: Slot, item: Json, updatedOn: real)

  type Cache = seq<Entry>

  type Items = map<(Kind, string), Json>

  /** The text a slot is filed under. */
  function SlotText(s: Slot): string {
    match s
    case ItemSlot(kind, key) => KindName(kind) + ":" + key
    case AllSlot(kind) => "all:" + KindName(kind)
    case InitSlot => "$initChecked"
  }

  /** Different slots have different texts, so filing by slot is filing by text. */
  lemma SlotTextsDiffer(a: Slot, b: Slot)
    ensures SlotText(a) == SlotText(b) <==> a == b
  {
    if SlotText(a) == SlotText(b) {
      assert SlotText(a)[0] == SlotText(b)[0];
      assert a.InitSlot? <==> SlotText(a)[0] == '$';
      assert b.InitSlot? <==> SlotText(b)[0] == '$';
      assert a.AllSlot? <==> SlotText(a)[0] == 'a';
      assert b.AllSlot? <==> SlotText(b)[0] == 'a';
      if a.ItemSlot? {
        assert b.ItemSlot?;
        assert KindName(a.kind)[0] == SlotText(a)[0] && KindName(b.kind)[0] == SlotText(b)[0];
        assert a.kind == b.kind;
        assert a.key == SlotText(a)[|KindName(a.kind)| + 1..];
        assert b.key == SlotText(b)[|KindName(b.kind)| + 1..];
      } else if a.AllSlot? {
        assert b.AllSlot?;
        assert KindName(a.kind)[0] == SlotText(a)[4] && KindName(b.kind)[0] == SlotText(b)[4];
      }
    }
  }

  /** The texts as the cache has them. */
  lemma SlotTextsAre(key: string)
    ensures SlotText(ItemSlot(Flag, key)) == "features:" + key && SlotText(ItemSlot(Segment, key)) == "segments:" + key
    ensures SlotText(AllSlot(Flag)) == "all:features" && SlotText(AllSlot(Segment)) == "all:segments"
    ensures SlotText(InitSlot) == "$initChecked"
  {
    assert "features" + ":" == "features:" && "segments" + ":" == "segments:";
  }

  /** Kinds of other names may collide with these: an item "features" of a kind "all" would
      be filed where the list of flags is. */
  lemma OtherKindsMayCollide()
    ensures "all" + ":" + "features" == SlotText(AllSlot(Flag))
    ensures "features:a" + ":" + "b" == SlotText(ItemSlot(Flag, "a:b"))
  {
  }

  /** `getExpirationState`: a TTL of none expires everything at once. */
  predicate Current(ttl: nat, e: Entry, now: real) {
    ttl != 0 && now - e.updatedOn <= ttl as real
  }

  /** Where the newest entry of a slot is, or the size of the cache. */
  function Newest(c: Cache, s: Slot): (i: nat)
    ensures i <= |c|
    ensures i < |c| ==> c[i].slot == s
    ensures forall j :: 0 <= j < i ==> c[j].slot != s
  {
    if c == [] || c[0].slot == s then 0 else 1 + Newest(c[1..], s)
  }

  /** `LDi_findAndRemoveCacheItem`. */
  function Removed(c: Cache, s: Slot): Cache {
    var i := Newest(c, s);
    if i < |c| then c[..i] + c[i + 1..] else c
  }

  /** The item a slot answers with while its newest entry is current. */
  function Held(ttl: nat, c: Cache, s: Slot, now: real): Option<Json> {
    var i := Newest(c, s);
    if i < |c| && Current(ttl, c[i], now) then Some(c[i].item) else None
  }

  /** One entry per item and one note; an outdated list may linger behind a newer. */
  ghost predicate OnePerSlot(ttl: nat, c: Cache, now: real) {
    forall i, j :: 0 <= i < j < |c| && c[i].slot == c[j].slot ==>
      c[i].slot.AllSlot? && !Current(ttl, c[j], now)
  }

  /** The backend's copy; what it does not have stands as deleted at version 0. */
  function Copy(b: Items, kind: Kind, key: string): Json {
    if (kind, key) in b then b[(kind, key)] else Tombstone(key, 0)
  }

  /** What the backend has under a key, unless deleted. */
  function LiveItem(b: Items, kind: Kind, key: string): Option<Json> {
    if (kind, key) in b && Shows(b[(kind, key)]) then Some(b[(kind, key)]) else None
  }

  /** An object listing exactly the live items of a kind. */
  ghost predicate Lists(list: Json, b: Items, kind: Kind) {
    list.Object? && forall key :: Lookup(list, key) == LiveItem(b, kind, key)
  }

  /** A current entry says what the backend has. */
  ghost predicate EntryAgrees(ttl: nat, e: Entry, b: Items, now: real) {
    Current(ttl, e, now) ==>
      match e.slot
      case ItemSlot(kind, key) => e.item == Copy(b, kind, key)
      case AllSlot(kind) => Lists(e.item, b, kind)
      case InitSlot => true
  }

  ghost predicate Stamped(c: Cache, now: real) {
    forall i :: 0 <= i < |c| ==> c[i].updatedOn <= now
  }

  /** What holds of a cache whatever its entries say. */
  ghost predicate Shaped(ttl: nat, c: Cache, now: real) {
    OnePerSlot(ttl, c, now) && Stamped(c, now)
  }

  /** Slots that may disagree with the backend, each with the time up to which an
      entry of it may stem from the call that set them apart. */
  type Doubt = map<Slot, real>

  ghost predicate Doubted(e: Entry, d: Doubt) {
    e.slot in d && e.updatedOn <= d[e.slot]
  }

  /** Every entry says what the backend has or is in doubt. */
  ghost predicate Coherent(ttl: nat, c: Cache, b: Items, now: real, d: Doubt) {
    && Shaped(ttl, c, now)
    && forall i :: 0 <= i < |c| ==> EntryAgrees(ttl, c[i], b, now) || Doubted(c[i], d)
  }

  /** Doubt ends with the TTL. */
  predicate Doubtful(ttl: nat, d: Doubt, s: Slot, now: real) {
    ttl != 0 && s in d && now <= d[s] + ttl as real
  }

  /** Time only takes entries away. */
  /** Doubt ends with the TTL, and there is none without a cache. */
  lemma DoubtEnds(ttl: nat, d: Doubt, s: Slot, now: real)
    ensures Doubtful(ttl, d, s, now) <==> ttl != 0 && s in d && now - d[s] <= ttl as real
  {
  }

  lemma ShapedLater(ttl: nat, c: Cache, now: real, later: real)
    requires Shaped(ttl, c, now) && now <= later
    ensures Shaped(ttl, c, later)
  {
  }

  lemma CoherentLater(ttl: nat, c: Cache, b: Items, now: real, later: real, d: Doubt)
    requires Coherent(ttl, c, b, now, d) && now <= later
    ensures Coherent(ttl, c, b, later, d)
  {
    hide Copy, Lists, Doubted;
    ShapedLater(ttl, c, now, later);
    forall i | 0 <= i < |c|
      ensures EntryAgrees(ttl, c[i], b, later) || Doubted(c[i], d)
    {
      assert EntryAgrees(ttl, c[i], b, now) || Doubted(c[i], d);
    }
  }

  /** Whatever a slot answers with was put in at most the TTL ago, and with a TTL of
      none it answers with nothing. */
  lemma HeldIsRecent(ttl: nat, c: Cache, now: real, s: Slot)
    requires Stamped(c, now) && Held(ttl, c, s, now).Some?
    ensures ttl != 0
    ensures exists e ::
      && e in c && e.slot == s && Held(ttl, c, s, now) == Some(e.item)
      && 0.0 <= now - e.updatedOn <= ttl as real
  {
    var i := Newest(c, s);
    assert c[i] in c;
  }

  /** Whatever was put in within the TTL is served, without asking the backend. */
  lemma HeldWhenRecent(ttl: nat, c: Cache, now: real, e: Entry)
    requires Shaped(ttl, c, now) && e in c && ttl != 0 && now - e.updatedOn <= ttl as real
    ensures Held(ttl, c, e.slot, now) == Some(e.item)
  {
    hide Newest;
    var i := Newest(c, e.slot);
    var j :| 0 <= j < |c| && c[j] == e;
    assert i <= j;
    assert Current(ttl, e, now);
  }

  /** What a slot not in doubt answers with is what the backend has. */
  lemma HeldAgrees(ttl: nat, c: Cache, b: Items, now: real, d: Doubt, s: Slot)
    requires Coherent(ttl, c, b, now, d) && Held(ttl, c, s, now).Some? && !Doubtful(ttl, d, s, now)
    ensures ttl != 0
    ensures s.ItemSlot? ==> Held(ttl, c, s, now) == Some(Copy(b, s.kind, s.key))
    ensures s.AllSlot? ==> Lists(Held(ttl, c, s, now).value, b, s.kind)
  {
    hide Copy, Lists;
    var i := Newest(c, s);
    assert EntryAgrees(ttl, c[i], b, now) || Doubted(c[i], d);
  }

  /** Removal takes the newest entry of a slot and keeps the rest in order. */
  lemma RemovedKeeps(ttl: nat, c: Cache, s: Slot, now: real)
    requires OnePerSlot(ttl, c, now) && Stamped(c, now)
    ensures var r := Removed(c, s);
      && OnePerSlot(ttl, r, now) && Stamped(r, now)
      && (forall e :: e in r ==> e in c)
      && (forall e :: e in r && e.slot == s ==> s.AllSlot? && !Current(ttl, e, now))
  {
    hide Current;
    var n := Newest(c, s);
    if n < |c| {
      var r := c[..n] + c[n + 1..];
      assert forall j :: 0 <= j < |r| ==> r[j] == c[if j < n then j else j + 1];
      forall i, j | 0 <= i < j < |r| && r[i].slot == r[j].slot
        ensures r[i].slot.AllSlot? && !Current(ttl, r[j], now)
      {
        var a, b := if i < n then i else i + 1, if j < n then j else j + 1;
        assert c[a] == r[i] && c[b] == r[j] && a < b;
      }
      forall e | e in r && e.slot == s
        ensures s.AllSlot? && !Current(ttl, e, now)
      {
        var j :| 0 <= j < |r| && r[j] == e;
        assert n <= j && c[j + 1] == e && c[n].slot == s;
      }
    }
  }

  /** A new entry may stand before entries of its slot only where those are outdated
      lists. */
  lemma AddedKeeps(ttl: nat, c: Cache, e: Entry, now: real)
    requires OnePerSlot(ttl, c, now) && Stamped(c, now) && e.updatedOn <= now
    requires forall o :: o in c && o.slot == e.slot ==> o.slot.AllSlot? && !Current(ttl, o, now)
    ensures OnePerSlot(ttl, [e] + c, now) && Stamped([e] + c, now)
  {
    hide Current;
    var r := [e] + c;
    assert forall j :: 0 < j < |r| ==> r[j] == c[j - 1] && r[j] in c;
  }

  /** The entry `upsertMemory` leaves: the item's own and the kind's list go, the item
      comes. */
  function Entered(c: Cache, kind: Kind, key: string, item: Json, now: real): Cache {
    [Entry(ItemSlot(kind, key), item, now)] + Removed(Removed(c, AllSlot(kind)), ItemSlot(kind, key))
  }

  /** What is left around the item that enters: nothing of its own slot, and of the
      kind's lists only outdated ones. */
  lemma EnteredShaped(ttl: nat, c: Cache, kind: Kind, key: string, item: Json, now: real)
    requires Shaped(ttl, c, now)
    ensures Shaped(ttl, Entered(c, kind, key, item, now), now)
    ensures forall i :: 0 < i < |Entered(c, kind, key, item, now)| ==>
      Passed(ttl, Entered(c, kind, key, item, now)[i], c, kind, key, now)
  {
    hide Current;
    var without := Removed(c, AllSlot(kind));
    var rest := Removed(without, ItemSlot(kind, key));
    RemovedKeeps(ttl, c, AllSlot(kind), now);
    RemovedKeeps(ttl, without, ItemSlot(kind, key), now);
    var e := Entry(ItemSlot(kind, key), item, now);
    AddedKeeps(ttl, rest, e, now);
    var r := Entered(c, kind, key, item, now);
    forall i | 0 < i < |r|
      ensures Passed(ttl, r[i], c, kind, key, now)
    {
      assert r[i] == rest[i - 1] && r[i] in rest && r[i] in without && r[i] in c;
    }
  }

  ghost predicate Passed(ttl: nat, e: Entry, c: Cache, kind: Kind, key: string, now: real) {
    e in c && e.slot != ItemSlot(kind, key) && (e.slot == AllSlot(kind) ==> !Current(ttl, e, now))
  }

  /** One doubt covers another but for an item and the lists of its kind. */
  ghost predicate Covers(d: Doubt, more: Doubt, kind: Kind, key: string) {
    forall s :: s in d && s != ItemSlot(kind, key) && s != AllSlot(kind) ==> s in more && d[s] <= more[s]
  }

  /** After a change of one item in the backend, an item entered for it is right or in
      doubt, and the other entries are as they were. */
  lemma EnteredKeeps(ttl: nat, c: Cache, before: Items, after: Items, kind: Kind, key: string, item: Json, now: real,
                     d: Doubt, more: Doubt)
    requires Coherent(ttl, c, before, now, d) && Covers(d, more, kind, key)
    requires forall k, x :: (k, x) != (kind, key) ==> Same(before, after, k, x)
    requires item == Copy(after, kind, key) || (ItemSlot(kind, key) in more && now <= more[ItemSlot(kind, key)])
    ensures Coherent(ttl, Entered(c, kind, key, item, now), after, now, more)
  {
    hide Copy, Current, Entered, Lists, EntryAgrees;
    EnteredShaped(ttl, c, kind, key, item, now);
    var r := Entered(c, kind, key, item, now);
    EnteredFirst(ttl, c, after, kind, key, item, now);
    forall i | 0 <= i < |r|
      ensures EntryAgrees(ttl, r[i], after, now) || Doubted(r[i], more)
    {
      if i > 0 {
        assert Passed(ttl, r[i], c, kind, key, now);
        OthersKeep(ttl, c, r[i], before, after, kind, key, now, d, more);
      }
    }
  }

  lemma EnteredFirst(ttl: nat, c: Cache, b: Items, kind: Kind, key: string, item: Json, now: real)
    ensures var r := Entered(c, kind, key, item, now);
      && r != [] && r[0] == Entry(ItemSlot(kind, key), item, now)
      && (item == Copy(b, kind, key) ==> EntryAgrees(ttl, r[0], b, now))
  {
    hide Copy;
  }

  lemma OthersKeep(ttl: nat, c: Cache, e: Entry, before: Items, after: Items, kind: Kind, key: string, now: real,
                   d: Doubt, more: Doubt)
    requires Coherent(ttl, c, before, now, d) && Covers(d, more, kind, key) && Passed(ttl, e, c, kind, key, now)
    requires forall k, x :: (k, x) != (kind, key) ==> Same(before, after, k, x)
    ensures EntryAgrees(ttl, e, after, now) || Doubted(e, more)
  {
    hide Copy, Lists, Shaped;
    var i :| 0 <= i < |c| && c[i] == e;
    assert EntryAgrees(ttl, c[i], before, now) || Doubted(c[i], d);
    if EntryAgrees(ttl, e, before, now) {
      OthersAgree(ttl, e, before, after, kind, key, now);
    }
  }

  /** The same where the cache stays as it is: the item's slot and the kind's lists
      fall into doubt. */
  lemma KeptKeeps(ttl: nat, c: Cache, before: Items, after: Items, kind: Kind, key: string, now: real, d: Doubt)
    requires Coherent(ttl, c, before, now, d)
    requires forall k, x :: (k, x) != (kind, key) ==> Same(before, after, k, x)
    ensures Coherent(ttl, c, after, now, d[ItemSlot(kind, key) := now][AllSlot(kind) := now])
  {
    hide Copy, Lists, Current;
    var more := d[ItemSlot(kind, key) := now][AllSlot(kind) := now];
    forall i | 0 <= i < |c|
      ensures EntryAgrees(ttl, c[i], after, now) || Doubted(c[i], more)
    {
      assert EntryAgrees(ttl, c[i], before, now) || Doubted(c[i], d);
      if c[i].slot != ItemSlot(kind, key) && c[i].slot != AllSlot(kind) && EntryAgrees(ttl, c[i], before, now) {
        OthersAgree(ttl, c[i], before, after, kind, key, now);
      }
    }
  }

  /** Fetching the backend's copy of an item settles its slot and drops the kind's list. */
  lemma FetchKeeps(ttl: nat, c: Cache, b: Items, kind: Kind, key: string, now: real, d: Doubt)
    requires Coherent(ttl, c, b, now, d)
    ensures Coherent(ttl, Entered(c, kind, key, Copy(b, kind, key), now), b, now,
      d - {ItemSlot(kind, key), AllSlot(kind)})
  {
    hide Coherent, Copy, Entered;
    EnteredKeeps(ttl, c, b, b, kind, key, Copy(b, kind, key), now, d, d - {ItemSlot(kind, key), AllSlot(kind)});
  }

  predicate Same(before: Items, after: Items, kind: Kind, key: string) {
    && ((kind, key) in before <==> (kind, key) in after)
    && ((kind, key) in before ==> before[(kind, key)] == after[(kind, key)])
  }

  /** A change of one item does not touch what other slots say. */
  lemma OthersAgree(ttl: nat, o: Entry, before: Items, after: Items, kind: Kind, key: string, now: real)
    requires EntryAgrees(ttl, o, before, now)
    requires forall k, x :: (k, x) != (kind, key) ==> Same(before, after, k, x)
    requires o.slot == ItemSlot(kind, key) || o.slot == AllSlot(kind) ==> !Current(ttl, o, now)
    ensures EntryAgrees(ttl, o, after, now)
  {
    hide Current;
    if Current(ttl, o, now) {
      match o.slot
      case ItemSlot(k, x) =>
        assert Same(before, after, k, x);
      case AllSlot(k) =>
        forall x
          ensures LiveItem(before, k, x) == LiveItem(after, k, x)
        {
          assert Same(before, after, k, x);
        }
      case InitSlot =>
    }
  }

  /** A fetched list may be put before outdated ones, and settles the slot. */
  lemma ListedKeeps(ttl: nat, c: Cache, b: Items, kind: Kind, list: Json, now: real, d: Doubt)
    requires Coherent(ttl, c, b, now, d) && Held(ttl, c, AllSlot(kind), now).None?
    requires Lists(list, b, kind)
    ensures Coherent(ttl, [Entry(AllSlot(kind), list, now)] + c, b, now, d - {AllSlot(kind)})
  {
    hide Copy, Lists, Current, EntryAgrees, Shaped;
    var e := Entry(AllSlot(kind), list, now);
    ListedShaped(ttl, c, kind, list, now);
    ListAgrees(ttl, b, kind, list, now);
    var r := [e] + c;
    forall j | 0 < j < |r|
      ensures EntryAgrees(ttl, r[j], b, now) || Doubted(r[j], d - {AllSlot(kind)})
    {
      assert r[j] == c[j - 1];
      if r[j].slot == AllSlot(kind) {
        ShapedOne(ttl, c, now);
        NoneHeld(ttl, c, AllSlot(kind), now, r[j]);
        Outdated(ttl, r[j], b, now);
      }
    }
  }

  lemma ListAgrees(ttl: nat, b: Items, kind: Kind, list: Json, now: real)
    requires Lists(list, b, kind)
    ensures EntryAgrees(ttl, Entry(AllSlot(kind), list, now), b, now)
  {
    hide Lists;
  }

  lemma ShapedOne(ttl: nat, c: Cache, now: real)
    requires Shaped(ttl, c, now)
    ensures OnePerSlot(ttl, c, now)
  {
  }

  lemma Outdated(ttl: nat, e: Entry, b: Items, now: real)
    requires !Current(ttl, e, now)
    ensures EntryAgrees(ttl, e, b, now)
  {
  }

  lemma ListedShaped(ttl: nat, c: Cache, kind: Kind, list: Json, now: real)
    requires Shaped(ttl, c, now) && Held(ttl, c, AllSlot(kind), now).None?
    ensures Shaped(ttl, [Entry(AllSlot(kind), list, now)] + c, now)
  {
    hide Current;
    forall o | o in c && o.slot == AllSlot(kind)
      ensures !Current(ttl, o, now)
    {
      NoneHeld(ttl, c, AllSlot(kind), now, o);
    }
    AddedKeeps(ttl, c, Entry(AllSlot(kind), list, now), now);
  }

  lemma NoneHeld(ttl: nat, c: Cache, s: Slot, now: real, o: Entry)
    requires OnePerSlot(ttl, c, now) && Held(ttl, c, s, now).None? && o in c && o.slot == s
    ensures !Current(ttl, o, now)
  {
    hide Current;
    var j :| 0 <= j < |c| && c[j] == o;
    var i := Newest(c, s);
    assert i <= j;
  }

  /** Whether a backend writes an item: over nothing, over something older, and over
      any deleted item unless it `keeps` those. */
  predicate Writes(keeps: bool, b: Items, kind: Kind, key: string, item: Json) {
    || (kind, key) !in b
    || (!keeps && !Shows(b[(kind, key)]))
    || DataVersion(b[(kind, key)]) < DataVersion(item)
  }

  /** Whether the cache takes an item: over nothing current and over something older. */
  predicate Replaces(ttl: nat, c: Cache, kind: Kind, key: string, item: Json, now: real) {
    var held := Held(ttl, c, ItemSlot(kind, key), now);
    held.None? || DataVersion(held.value) < DataVersion(item)
  }

  function Upserted(keeps: bool, b: Items, kind: Kind, key: string, item: Json): Items {
    if Writes(keeps, b, kind, key, item) then b[(kind, key) := item] else b
  }

  function Cached(ttl: nat, c: Cache, kind: Kind, key: string, item: Json, now: real): Cache {
    if Replaces(ttl, c, kind, key, item, now) then Entered(c, kind, key, item, now) else c
  }

  /** What an upsert leaves in doubt: an item taken by one side alone puts its slot in
      doubt, and one written behind the back of the cache the kind's list as well; an
      item taken by both settles them. */
  function UpsertDoubt(
      keeps: bool, ttl: nat, c: Cache, b: Items, kind: Kind, key: string, item: Json, now: real, d: Doubt): Doubt {
    var slot, list := ItemSlot(kind, key), AllSlot(kind);
    var w, r := Writes(keeps, b, kind, key, item), Replaces(ttl, c, kind, key, item, now);
    if ttl == 0 then d - {slot, list}
    else if r && (w || Copy(b, kind, key) == item) then d - {slot, list}
    else if r then (d - {list})[slot := now]
    else if w && Copy(b, kind, key) != item then d[slot := now][list := now]
    else d
  }

  lemma CachedShaped(ttl: nat, c: Cache, kind: Kind, key: string, item: Json, now: real)
    requires Shaped(ttl, c, now)
    ensures Shaped(ttl, Cached(ttl, c, kind, key, item, now), now)
  {
    hide Shaped, Entered;
    EnteredShaped(ttl, c, kind, key, item, now);
  }

  /** Whatever is upserted, entries agree or are in that doubt. */
  lemma UpsertKeeps(keeps: bool, ttl: nat, c: Cache, b: Items, kind: Kind, key: string, item: Json, now: real, d: Doubt)
    requires Coherent(ttl, c, b, now, d)
    ensures Coherent(ttl, Cached(ttl, c, kind, key, item, now), Upserted(keeps, b, kind, key, item), now,
                     UpsertDoubt(keeps, ttl, c, b, kind, key, item, now, d))
  {
    hide Coherent, Entered, DataVersion, Shows, Held;
    var more := UpsertDoubt(keeps, ttl, c, b, kind, key, item, now, d);
    var after := Upserted(keeps, b, kind, key, item);
    if ttl == 0 {
      CoherentIsShaped(ttl, c, b, now, d);
      CachedShaped(ttl, c, kind, key, item, now);
      NothingCurrent(Cached(ttl, c, kind, key, item, now), after, now, more);
    } else if Replaces(ttl, c, kind, key, item, now) {
      EnteredKeeps(ttl, c, b, after, kind, key, item, now, d, more);
    } else if Copy(b, kind, key) == item {
      SameView(ttl, c, b, kind, key, now, d);
    } else if Writes(keeps, b, kind, key, item) {
      KeptKeeps(ttl, c, b, after, kind, key, now, d);
    }
  }

  /** Writing what the backend is taken to have anyway changes nothing. */
  lemma SameView(ttl: nat, c: Cache, b: Items, kind: Kind, key: string, now: real, d: Doubt)
    requires Coherent(ttl, c, b, now, d)
    ensures Coherent(ttl, c, b[(kind, key) := Copy(b, kind, key)], now, d)
  {
    hide Shaped, Doubted, Shows, Current;
    var after := b[(kind, key) := Copy(b, kind, key)];
    assert !Shows(Tombstone(key, 0)) by { TombstoneReads(key, 0, Tombstone(key, 0)); }
    forall k, x
      ensures Copy(b, k, x) == Copy(after, k, x) && LiveItem(b, k, x) == LiveItem(after, k, x)
    {
    }
    forall i | 0 <= i < |c|
      ensures EntryAgrees(ttl, c[i], after, now) || Doubted(c[i], d)
    {
      assert EntryAgrees(ttl, c[i], b, now) || Doubted(c[i], d);
    }
  }

  /** An upsert both sides take, or neither, or that repeats the backend's copy. */
  predicate Safe(keeps: bool, ttl: nat, c: Cache, b: Items, kind: Kind, key: string, item: Json, now: real) {
    || ttl == 0
    || Copy(b, kind, key) == item
    || (Writes(keeps, b, kind, key, item) <==> Replaces(ttl, c, kind, key, item, now))
  }

  /** Backend and cache agree after an upsert exactly when it was safe. */
  lemma UpsertAgreesExactlyWhenSafe(
      keeps: bool, ttl: nat, c: Cache, b: Items, kind: Kind, key: string, item: Json, now: real)
    requires Coherent(ttl, c, b, now, map[])
    ensures Coherent(ttl, Cached(ttl, c, kind, key, item, now), Upserted(keeps, b, kind, key, item), now, map[])
       <==> Safe(keeps, ttl, c, b, kind, key, item, now)
  {
    hide Coherent, Entered, DataVersion, Shows, Held, Copy, Current;
    var none: Doubt := map[];
    UpsertKeeps(keeps, ttl, c, b, kind, key, item, now, none);
    assert none - {ItemSlot(kind, key), AllSlot(kind)} == none;
    var cached, after := Cached(ttl, c, kind, key, item, now), Upserted(keeps, b, kind, key, item);
    if ttl != 0 && !Safe(keeps, ttl, c, b, kind, key, item, now) {
      if Replaces(ttl, c, kind, key, item, now) {
        EnteredSplits(ttl, c, b, kind, key, item, now);
      } else {
        KeptSplits(ttl, c, b, kind, key, item, now);
      }
    }
  }

  /** With a TTL of none there is nothing to disagree. */
  lemma NothingCurrent(c: Cache, b: Items, now: real, d: Doubt)
    requires Shaped(0, c, now)
    ensures Coherent(0, c, b, now, d)
  {
    hide Shaped;
    assert forall i :: 0 <= i < |c| ==> EntryAgrees(0, c[i], b, now);
  }

  /** Entering what the backend refused. */
  lemma EnteredSplits(ttl: nat, c: Cache, b: Items, kind: Kind, key: string, item: Json, now: real)
    requires ttl != 0 && Copy(b, kind, key) != item
    ensures !Coherent(ttl, Entered(c, kind, key, item, now), b, now, map[])
  {
    hide Removed, Newest, Lists, Copy;
    var entered := Entered(c, kind, key, item, now);
    assert entered[0] == Entry(ItemSlot(kind, key), item, now);
    assert !EntryAgrees(ttl, entered[0], b, now);
  }

  /** Keeping what the backend overwrote. */
  lemma KeptSplits(ttl: nat, c: Cache, b: Items, kind: Kind, key: string, item: Json, now: real)
    requires Coherent(ttl, c, b, now, map[]) && Copy(b, kind, key) != item
    requires Held(ttl, c, ItemSlot(kind, key), now).Some?
    ensures !Coherent(ttl, c, b[(kind, key) := item], now, map[])
  {
    hide Lists, Shaped, Copy;
    var i := Newest(c, ItemSlot(kind, key));
    assert EntryAgrees(ttl, c[i], b, now);
    CopyOfWritten(b, kind, key, item);
    assert !EntryAgrees(ttl, c[i], b[(kind, key) := item], now);
  }

  lemma CopyOfWritten(b: Items, kind: Kind, key: string, item: Json)
    ensures Copy(b[(kind, key) := item], kind, key) == item
  {
  }

  /** In terms of versions: an upsert of a new item is safe unless it has version 0 and
      the cache knows the item to be missing; one newer than the backend's copy is; any
      other must repeat that copy, or find a current entry where the backend refuses it
      and none where the backend writes it over a deleted item. */
  predicate VersionSafe(keeps: bool, ttl: nat, c: Cache, b: Items, kind: Kind, key: string, item: Json, now: real) {
    var held := Held(ttl, c, ItemSlot(kind, key), now);
    || ttl == 0
    || Copy(b, kind, key) == item
    || (if (kind, key) !in b then held.None? || DataVersion(item) >= 1
        else
          || DataVersion(b[(kind, key)]) < DataVersion(item)
          || (held.Some? <==> keeps || Shows(b[(kind, key)])))
  }

  lemma SafeByVersions(keeps: bool, ttl: nat, c: Cache, b: Items, kind: Kind, key: string, item: Json, now: real)
    requires Coherent(ttl, c, b, now, map[])
    ensures Safe(keeps, ttl, c, b, kind, key, item, now) <==> VersionSafe(keeps, ttl, c, b, kind, key, item, now)
  {
    hide Coherent, DataVersion, Shows, Held, Tombstone, Doubtful;
    var held := Held(ttl, c, ItemSlot(kind, key), now);
    assert DataVersion(Tombstone(key, 0)) == 0 by { TombstoneReads(key, 0, Tombstone(key, 0)); }
    NoDoubt(ttl, ItemSlot(kind, key), now);
    if held.Some? {
      HeldAgrees(ttl, c, b, now, map[], ItemSlot(kind, key));
    }
  }

  lemma NoDoubt(ttl: nat, s: Slot, now: real)
    ensures !Doubtful(ttl, map[], s, now)
  {
  }

  /** A safe upsert casts no doubt. */
  lemma SafeCastsNoDoubt(keeps: bool, ttl: nat, c: Cache, b: Items, kind: Kind, key: string, item: Json, now: real)
    requires Safe(keeps, ttl, c, b, kind, key, item, now)
    ensures UpsertDoubt(keeps, ttl, c, b, kind, key, item, now, map[]) == map[]
  {
    hide Writes, Replaces, Copy;
  }

  /** What an upsert leaves in doubt that the backend took while its caller was told it
      failed. */
  function LostDoubt(keeps: bool, b: Items, kind: Kind, key: string, item: Json, now: real, d: Doubt): Doubt {
    if Writes(keeps, b, kind, key, item) && Copy(b, kind, key) != item then
      d[ItemSlot(kind, key) := now][AllSlot(kind) := now]
    else d
  }

  lemma LostKeeps(keeps: bool, ttl: nat, c: Cache, b: Items, kind: Kind, key: string, item: Json, now: real, d: Doubt)
    requires Coherent(ttl, c, b, now, d)
    ensures Coherent(ttl, c, Upserted(keeps, b, kind, key, item), now, LostDoubt(keeps, b, kind, key, item, now, d))
  {
    hide Coherent, DataVersion, Shows;
    if Copy(b, kind, key) == item {
      SameView(ttl, c, b, kind, key, now, d);
    } else if Writes(keeps, b, kind, key, item) {
      KeptKeeps(ttl, c, b, b[(kind, key) := item], kind, key, now, d);
    }
  }

  /** Everything in the cache in doubt. */
  function Everything(c: Cache, now: real): Doubt {
    if c == [] then map[] else Everything(c[1..], now)[c[0].slot := now]
  }

  lemma {:induction false} EverythingCached(c: Cache, now: real)
    ensures forall s :: s in Everything(c, now) ==> Everything(c, now)[s] == now
    ensures forall i :: 0 <= i < |c| ==> c[i].slot in Everything(c, now)
  {
    if c != [] {
      EverythingCached(c[1..], now);
    }
  }

  lemma EverythingInDoubt(ttl: nat, c: Cache, b: Items, now: real)
    requires Shaped(ttl, c, now)
    ensures Coherent(ttl, c, b, now, Everything(c, now))
  {
    hide OnePerSlot, EntryAgrees, Everything;
    EverythingCached(c, now);
    assert forall i :: 0 <= i < |c| ==> Doubted(c[i], Everything(c, now));
  }

  lemma CoherentIsShaped(ttl: nat, c: Cache, b: Items, now: real, d: Doubt)
    requires Coherent(ttl, c, b, now, d)
    ensures Shaped(ttl, c, now)
  {
  }

  /** An older item that finds nothing cached is refused by the backend and served by
      the cache. */
  lemma StaleUpsertIsServed(kind: Kind, key: string, item: Json, stored: Json, keeps: bool)
    requires item != stored && Shows(item) && Shows(stored)
    requires DataVersion(item) <= DataVersion(stored)
    ensures var b: Items := map[(kind, key) := stored];
      && Coherent(1, [], b, 0.0, map[])
      && Upserted(keeps, b, kind, key, item) == b
      && Held(1, Cached(1, [], kind, key, item, 0.0), ItemSlot(kind, key), 0.0) == Some(item)
  {
  }

  /** An older item that a forgetful backend writes over a deleted one stays deleted in
      the cache. */
  lemma OlderOverDeletedIsHidden(kind: Kind, key: string, item: Json, deleted: Json)
    requires Shows(item) && !Shows(deleted) && DataVersion(item) <= DataVersion(deleted)
    ensures
      var b: Items := map[(kind, key) := deleted];
      var c := [Entry(ItemSlot(kind, key), deleted, 0.0)];
      && Coherent(1, c, b, 0.0, map[])
      && LiveItem(Upserted(false, b, kind, key, item), kind, key) == Some(item)
      && Held(1, Cached(1, c, kind, key, item, 0.0), ItemSlot(kind, key), 0.0) == Some(deleted)
  {
    hide DataVersion, Shows;
  }
}
