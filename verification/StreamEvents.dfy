/** Stream events as changes to the in-memory store. */
module StreamEvents {
  import opened Wrappers
  import opened JsonTree
  import opened JsonNumber
  import opened JsonParse
  import opened FlagSchema
  import opened Matching
  import opened StoreData
  import opened MemoryStore

  /** What an event asks for. */
  datatype Update =
    | Broken
    | Ignored
    | Puts(data: seq<Member>)
    | Patches(kind: Kind, item: Json)
    | Removes(kind: Kind, key: string, version: nat)

  /** `LDi_parsePath`. */
  function ParsePath(path: string): (r: Option<(Kind, string)>)
    ensures r.Some? ==> path == (if r.value.0 == Segment then "/segments/" else "/flags/") + r.value.1
    ensures r.None? ==> !("/segments/" <= path) && !("/flags/" <= path)
  {
    if "/segments/" <= path then Some((Segment, path[|"/segments/"|..]))
    else if "/flags/" <= path then Some((Flag, path[|"/flags/"|..]))
    else None
  }

  /** A path names every kind and key in exactly one way. */
  lemma PathNames(kind: Kind, key: string)
    ensures ParsePath((if kind == Segment then "/segments/" else "/flags/") + key) == Some((kind, key))
  {
    var path := (if kind == Segment then "/segments/" else "/flags/") + key;
    if kind == Segment {
      assert path[..|"/segments/"|] == "/segments/";
    } else {
      assert path[..|"/flags/"|] == "/flags/";
      assert path[1] != "/segments/"[1];
    }
  }

  /** The put with its flags renamed, as the store expects them. */
  function PutData(data: seq<Member>, flags: Json): seq<Member> {
    Without(Without(data, "flags"), "features") + [Member("features", flags)]
  }

  /** `validatePutBody`. */
  predicate PutBodyOk(data: Json) {
    Required(data, "flags", ObjectType).Some? && Required(data, "segments", ObjectType).Some?
  }

  function ReadPut(event: Json): (r: Update)
    ensures r.Broken? || r.Puts?
  {
    match Lookup(event, "data")
    case None => Broken
    case Some(data) =>
      if PutBodyOk(data) then Puts(PutData(data.members, Required(data, "flags", ObjectType).value)) else Broken
  }

  function ReadPatch(event: Json): (r: Update)
    ensures r.Broken? || r.Ignored? || r.Patches?
  {
    match Required(event, "path", TextType)
    case Some(Text(path)) =>
      (match ParsePath(path)
       case None => Ignored
       case Some((kind, _)) =>
         match Lookup(event, "data")
         case Some(item) => Patches(kind, item)
         case None => Broken)
    case _ => Broken
  }

  function ReadDelete(event: Json): (r: Update)
    ensures r.Broken? || r.Ignored? || (r.Removes? && r.version < UINT_RANGE)
  {
    match Required(event, "path", TextType)
    case Some(Text(path)) =>
      (match ParsePath(path)
       case None => Ignored
       case Some((kind, key)) =>
         match Required(event, "version", NumberType)
         case Some(Number(n)) => Removes(kind, key, Truncate(n) % UINT_RANGE)
         case _ => Broken)
    case _ => Broken
  }

  /** What an event of a name and a body asks for. */
  function Reading(codec: NumberCodec, name: string, body: string): Update {
    if name != "put" && name != "patch" && name != "delete" then Ignored
    else
      match ParseText(codec, body, false)
      case Some(Object(members)) =>
        if name == "put" then ReadPut(Object(members))
        else if name == "patch" then ReadPatch(Object(members))
        else ReadDelete(Object(members))
      case _ => Broken
  }

  /** A table after an update of a kind; a put starts it over. */
  ghost predicate Applied(before: Table, after: Table, kind: Kind, update: Update) {
    match update
    case Puts(data) => Keyed(PutItems(data, kind)) && after == Filing(PutItems(data, kind))
    case Patches(k, item) => after == if k == kind && ValidData(item) then Apply(before, item) else before
    case Removes(k, key, version) =>
      TombstoneReads(key, version, Removal(key, version));
      after == if k == kind then Apply(before, Removal(key, version)) else before
    case _ => after == before
  }

  /** Whether the handler reports success, which keeps the stream open. */
  predicate Succeeds(update: Update) {
    match update
    case Broken => false
    case Patches(_, item) => ValidData(item)
    case _ => true
  }

  /** A put in which no key comes twice. */
  ghost predicate Admissible(update: Update) {
    update.Puts? ==> Keyed(PutItems(update.data, Flag)) && Keyed(PutItems(update.data, Segment))
  }

  /** `LDi_onEvent`. */
  method OnEvent(codec: NumberCodec, store: MemoryStore, name: string, body: string) returns (ok: bool)
    requires store.Valid() && Admissible(Reading(codec, name, body))
    modifies store
    ensures store.Valid() && ok == Succeeds(Reading(codec, name, body))
    ensures Applied(old(store.features), store.features, Flag, Reading(codec, name, body))
    ensures Applied(old(store.segments), store.segments, Segment, Reading(codec, name, body))
  {
    hide ParseText, ReadPut, ReadPatch, ReadDelete;
    if name != "put" && name != "patch" && name != "delete" {
      return true;
    }
    var event := Parse(codec, body, false);
    if event.None? || !event.value.Object? {
      return false;
    }
    if name == "put" {
      ok := Perform(store, ReadPut(event.value));
    } else if name == "patch" {
      ok := Perform(store, ReadPatch(event.value));
    } else {
      ok := Perform(store, ReadDelete(event.value));
    }
  }

  /** The store calls of `onPut`, `onPatch` and `onDelete`. */
  method Perform(store: MemoryStore, update: Update) returns (ok: bool)
    requires store.Valid() && Admissible(update)
    requires update.Removes? ==> update.version < UINT_RANGE
    modifies store
    ensures store.Valid() && ok == Succeeds(update)
    ensures Applied(old(store.features), store.features, Flag, update)
    ensures Applied(old(store.segments), store.segments, Segment, update)
  {
    hide ValidData, Filing, Merge;
    match update
    case Broken => ok := false;
    case Ignored => ok := true;
    case Puts(data) =>
      store.Init(data);
      ok := true;
    case Patches(kind, item) =>
      ok := store.Patch(kind, item);
    case Removes(kind, key, version) =>
      ok := store.Remove(kind, key, version);
  }

  // ------------------------------------------------------------- runs of events

  ghost predicate AllAdmissible(updates: seq<Update>) {
    forall i :: 0 <= i < |updates| ==> Admissible(updates[i])
  }

  /** A table after a run of updates. */
  ghost function Along(t: Table, updates: seq<Update>, kind: Kind): Table
    requires AllAdmissible(updates)
  {
    if updates == [] then t
    else
      var n := |updates| - 1;
      Updated(Along(t, updates[..n], kind), updates[n], kind)
  }

  /** The table a put starts with. */
  ghost function Started(update: Update, kind: Kind): (t: Table)
    requires Admissible(update) && update.Puts?
    ensures Keyed(PutItems(update.data, kind)) && t == Filing(PutItems(update.data, kind)) && Distinct(t) && Filed(t)
  {
    assert kind == Flag || kind == Segment;
    Filing(PutItems(update.data, kind))
  }

  ghost function Updated(t: Table, update: Update, kind: Kind): Table
    requires Admissible(update)
  {
    match update
    case Puts(data) => Started(update, kind)
    case _ =>
      var offered := Offered(update, kind);
      if offered == [] then t else Apply(t, offered[0])
  }

  /** What an update offers for a kind. */
  function Offered(update: Update, kind: Kind): (r: seq<Json>)
    ensures |r| <= 1 && AllKeyed(r)
  {
    match update
    case Patches(k, item) => if k == kind && ValidData(item) then [item] else []
    case Removes(k, key, version) =>
      TombstoneReads(key, version, Removal(key, version));
      if k == kind then [Removal(key, version)] else []
    case _ => []
  }

  /** The table the last put left, or the first one if there was none. */
  ghost function Base(t: Table, updates: seq<Update>, kind: Kind): Table
    requires AllAdmissible(updates)
  {
    if updates == [] then t
    else
      var n := |updates| - 1;
      assert Admissible(updates[n]);
      if updates[n].Puts? then Started(updates[n], kind) else Base(t, updates[..n], kind)
  }

  /** What was offered for a kind since the last put. */
  ghost function Since(updates: seq<Update>, kind: Kind): (r: seq<Json>)
    ensures AllKeyed(r)
  {
    if updates == [] then []
    else
      var n := |updates| - 1;
      if updates[n].Puts? then [] else Since(updates[..n], kind) + Offered(updates[n], kind)
  }

  lemma {:induction false} AlongIsAfter(t: Table, updates: seq<Update>, kind: Kind)
    requires Distinct(t) && Filed(t) && AllAdmissible(updates)
    ensures Distinct(Base(t, updates, kind)) && Filed(Base(t, updates, kind))
    ensures Along(t, updates, kind) == After(Base(t, updates, kind), Since(updates, kind))
    decreases |updates|
  {
    hide After, Filing, Filed, Distinct, Merge, Offered, PutItems;
    if updates == [] {
      AfterNothing(t, []);
    } else {
      var n := |updates| - 1;
      assert Admissible(updates[n]);
      AlongIsAfter(t, updates[..n], kind);
      var base, before, offered := Base(t, updates[..n], kind), Since(updates[..n], kind), Offered(updates[n], kind);
      if updates[n].Puts? {
        AfterNothing(Started(updates[n], kind), []);
      } else if offered == [] {
        assert before + [] == before;
      } else {
        assert offered == [offered[0]];
        OneMoreChange(base, before, offered[0]);
      }
    }
  }

  lemma OneMoreChange(t: Table, changes: seq<Json>, change: Json)
    requires AllKeyed(changes) && HasKey(change)
    ensures AllKeyed(changes + [change]) && After(t, changes + [change]) == Apply(After(t, changes), change)
  {
    hide Merge, HasKey, DataKey;
    assert (changes + [change])[..|changes|] == changes;
  }

  /** After any run of puts, patches and deletes of both kinds, each key holds the winner
      of what was offered for it since the last put, the put itself included. */
  lemma RunKeepsWinners(t: Table, updates: seq<Update>, kind: Kind, key: string)
    requires Distinct(t) && Filed(t) && AllAdmissible(updates)
    ensures
      var kept, offers := Find(Along(t, updates, kind), key), Offers(Base(t, updates, kind), Since(updates, kind), key);
      && (kept.None? <==> offers == [])
      && (kept.Some? ==> Winner(offers, kept.value))
  {
    hide After, Along, Base, Since, Offers, Winner, Find;
    AlongIsAfter(t, updates, kind);
    WinnerIsKept(Base(t, updates, kind), Since(updates, kind), key);
  }

  function Readings(codec: NumberCodec, events: seq<(string, string)>): (r: seq<Update>)
    ensures |r| == |events|
    ensures forall i :: 0 <= i < |r| ==> r[i] == Reading(codec, events[i].0, events[i].1)
  {
    seq(|events|, i requires 0 <= i < |events| => Reading(codec, events[i].0, events[i].1))
  }

  /** A run of events leaves both tables as the fold of their updates. */
  method OnEvents(codec: NumberCodec, store: MemoryStore, events: seq<(string, string)>)
    requires store.Valid() && AllAdmissible(Readings(codec, events))
    modifies store
    ensures store.Valid()
    ensures store.features == Along(old(store.features), Readings(codec, events), Flag)
    ensures store.segments == Along(old(store.segments), Readings(codec, events), Segment)
  {
    hide Reading, Admissible, Filed, Distinct, Applied, Updated;
    ghost var updates := Readings(codec, events);
    var i := 0;
    while i < |events|
      invariant 0 <= i <= |events| && store.Valid()
      invariant store.features == Along(old(store.features), updates[..i], Flag)
      invariant store.segments == Along(old(store.segments), updates[..i], Segment)
    {
      ghost var features, segments := store.features, store.segments;
      assert updates[..i + 1][..i] == updates[..i];
      var ok := OnEvent(codec, store, events[i].0, events[i].1);
      AppliedIsUpdated(features, store.features, Flag, updates[i]);
      AppliedIsUpdated(segments, store.segments, Segment, updates[i]);
      i := i + 1;
    }
    assert updates[..i] == updates;
  }

  lemma AppliedIsUpdated(before: Table, after: Table, kind: Kind, update: Update)
    requires Admissible(update) && Applied(before, after, kind, update)
    ensures after == Updated(before, update, kind)
  {
    hide ValidData, Merge, Filing, PutItems, Keyed;
  }
}
