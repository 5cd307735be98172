/** Whole runs of the caching wrapper against what the bare backend would do. */
module CachingRun {
  import opened Wrappers
  import opened JsonTree
  import opened JsonNumber
  import opened Matching
  import opened StoreData
  import opened CacheSpec
  import opened Backend
  import opened PutSpec
  import opened CachingWrapper

  datatype Request =
    | InitRequest(data: seq<Member>)
    | UpsertRequest(kind: Kind, item: Json)
    | GetRequest(kind: Kind, key: string)
    | AllRequest(kind: Kind)
    | InitializedRequest

  /** A request, the time of it, and how the backend answers it. */
  datatype Call = Call(request: Request, now: real, reply: Reply)

  datatype Answer = Failed | Done | Found(item: Option<Json>) | Listed(list: Json) | Known(initialized: bool)

  /** What a request may carry. */
  ghost predicate Proper(codec: NumberCodec, request: Request) {
    match request
    case InitRequest(data) => PutFit(codec, data)
    case UpsertRequest(_, item) => Storable(codec, item)
    case _ => true
  }

  /** The bare backend's items after a call. */
  ghost function Effect(codec: NumberCodec, keeps: bool, b: Items, call: Call): Items
    requires Proper(codec, call.request)
  {
    if call.reply.Down? then b
    else
      match call.request
      case InitRequest(data) => PutAll(b, Kinds(codec, data))
      case UpsertRequest(kind, item) => Upserted(keeps, b, kind, DataKey(item), item)
      case _ => b
  }

  ghost predicate AllProper(codec: NumberCodec, calls: seq<Call>) {
    forall i :: 0 <= i < |calls| ==> Proper(codec, calls[i].request)
  }

  /** The bare backend's items after the first `n` calls of a run. */
  ghost function After(codec: NumberCodec, keeps: bool, b: Items, calls: seq<Call>, n: nat): Items
    requires AllProper(codec, calls) && n <= |calls|
  {
    if n == 0 then b else Effect(codec, keeps, After(codec, keeps, b, calls, n - 1), calls[n - 1])
  }

  /** The answer the bare backend would give; a cache may answer where that fails. */
  ghost predicate Right(b: Items, call: Call, answer: Answer) {
    match call.request
    case GetRequest(kind, key) =>
      (answer == Failed && !call.reply.Fine?) || answer == Found(LiveItem(b, kind, key))
    case AllRequest(kind) =>
      (answer == Failed && !call.reply.Fine?) || (answer.Listed? && Lists(answer.list, b, kind))
    case InitializedRequest => answer.Known?
    case _ => answer == if call.reply.Fine? then Done else Failed
  }

  /** The slot a request reads. */
  function SlotOf(request: Request): Option<Slot> {
    match request
    case GetRequest(kind, key) => Some(ItemSlot(kind, key))
    case AllRequest(kind) => Some(AllSlot(kind))
    case _ => None
  }

  predicate Trusted(ttl: nat, d: Doubt, call: Call) {
    SlotOf(call.request).None? || !Doubtful(ttl, d, SlotOf(call.request).value, call.now)
  }

  /** What is in doubt after a call, by the cache and items before it. */
  ghost function DoubtAfter(codec: NumberCodec, keeps: bool, ttl: nat, c: Cache, b: Items, d: Doubt, call: Call): Doubt
    requires Proper(codec, call.request)
  {
    match call.request
    case InitRequest(data) =>
      (match call.reply
       case Fine => PutDoubt(codec, data, call.now)
       case Down => d
       case Lost => Everything(c, call.now))
    case UpsertRequest(kind, item) =>
      (match call.reply
       case Fine => UpsertDoubt(keeps, ttl, c, b, kind, DataKey(item), item, call.now, d)
       case Down => d
       case Lost => LostDoubt(keeps, b, kind, DataKey(item), item, call.now, d))
    case GetRequest(kind, key) =>
      if call.reply.Fine? && Held(ttl, c, ItemSlot(kind, key), call.now).None?
      then d - {ItemSlot(kind, key), AllSlot(kind)}
      else d
    case AllRequest(kind) =>
      if call.reply.Fine? && Held(ttl, c, AllSlot(kind), call.now).None? then d - {AllSlot(kind)} else d
    case InitializedRequest => d
  }

  /** A run as seen from inside: the cache and the doubt before each call and after the
      last. */
  datatype Trace = Trace(caches: seq<Cache>, doubts: seq<Doubt>)

  ghost predicate Follows(codec: NumberCodec, keeps: bool, ttl: nat, b: Items, calls: seq<Call>, t: Trace, n: nat)
    requires AllProper(codec, calls) && n <= |calls|
  {
    && |t.caches| == |t.doubts| == n + 1
    && forall i :: 0 <= i < n ==> Follow(codec, keeps, ttl, b, calls, t, i)
  }

  ghost predicate Follow(codec: NumberCodec, keeps: bool, ttl: nat, b: Items, calls: seq<Call>, t: Trace, i: nat)
    requires AllProper(codec, calls) && i < |calls| && i + 1 < |t.caches| == |t.doubts|
  {
    && Coherent(ttl, t.caches[i + 1], After(codec, keeps, b, calls, i + 1), calls[i].now, t.doubts[i + 1])
    && t.doubts[i + 1]
       == DoubtAfter(codec, keeps, ttl, t.caches[i], After(codec, keeps, b, calls, i), t.doubts[i], calls[i])
  }

  ghost predicate InOrder(calls: seq<Call>, start: real) {
    && (forall i :: 0 <= i < |calls| ==> start <= calls[i].now)
    && (forall i, j :: 0 <= i < j < |calls| ==> calls[i].now <= calls[j].now)
  }

  /** Answers to a question that once was yes stay yes. */
  ghost predicate StaysTrue(answers: seq<Answer>) {
    forall i, j :: 0 <= i < j < |answers| && answers[i] == Known(true) && answers[j].Known? ==>
      answers[j] == Known(true)
  }

  /** Through any run of any calls, every answer not in doubt is the bare backend's, the
      cache keeps its shape, and once initialized stays initialized. */
  method Run(w: CachingWrapper, calls: seq<Call>) returns (answers: seq<Answer>, ghost trace: Trace)
    requires w.Valid() && AllProper(w.backend.codec, calls) && InOrder(calls, w.clock)
    modifies w, w.backend
    ensures w.Valid() && |answers| == |calls|
    ensures Follows(w.backend.codec, w.backend.keeps, w.ttl, old(w.backend.Stored()), calls, trace, |calls|)
    ensures trace.caches[0] == old(w.cache) && trace.doubts[0] == old(w.doubt)
    ensures trace.caches[|calls|] == w.cache && trace.doubts[|calls|] == w.doubt
    ensures
      var b := old(w.backend.Stored());
      && w.backend.Stored() == After(w.backend.codec, w.backend.keeps, b, calls, |calls|)
      && forall i :: 0 <= i < |calls| && Trusted(w.ttl, trace.doubts[i], calls[i]) ==>
           Right(After(w.backend.codec, w.backend.keeps, b, calls, i), calls[i], answers[i])
    ensures StaysTrue(answers)
  {
    hide Proper, Right, Effect, Coherent, AllReadable, Decoded, After, Trusted, DoubtAfter, Shaped;
    ghost var b, codec, keeps := w.backend.Stored(), w.backend.codec, w.backend.keeps;
    answers := [];
    trace := Trace([w.cache], [w.doubt]);
    NothingDone(codec, keeps, b, calls);
    while |answers| < |calls|
      invariant |answers| <= |calls|
      invariant w.Valid() && forall j :: |answers| <= j < |calls| ==> w.clock <= calls[j].now
      invariant w.backend.Stored() == After(codec, keeps, b, calls, |answers|)
      invariant Follows(codec, keeps, w.ttl, b, calls, trace, |answers|)
      invariant trace.caches[0] == old(w.cache) && trace.doubts[0] == old(w.doubt)
      invariant trace.caches[|answers|] == w.cache && trace.doubts[|answers|] == w.doubt
      invariant forall j :: 0 <= j < |answers| && Trusted(w.ttl, trace.doubts[j], calls[j]) ==>
        Right(After(codec, keeps, b, calls, j), calls[j], answers[j])
      invariant StaysTrue(answers) && (Known(true) in answers ==> w.initialized)
      decreases |calls| - |answers|
    {
      var n := |answers|;
      ghost var before := trace;
      OneMore(codec, keeps, b, calls, n);
      var answer := Serve(w, calls[n]);
      answers := answers + [answer];
      trace := Trace(trace.caches + [w.cache], trace.doubts + [w.doubt]);
      FollowsMore(codec, keeps, w.ttl, b, calls, before, n, w.cache, w.doubt);
    }
  }

  lemma NothingDone(codec: NumberCodec, keeps: bool, b: Items, calls: seq<Call>)
    requires AllProper(codec, calls)
    ensures After(codec, keeps, b, calls, 0) == b
  {
  }

  lemma OneMore(codec: NumberCodec, keeps: bool, b: Items, calls: seq<Call>, n: nat)
    requires AllProper(codec, calls) && n < |calls|
    ensures After(codec, keeps, b, calls, n + 1) == Effect(codec, keeps, After(codec, keeps, b, calls, n), calls[n])
  {
    hide Effect, Proper;
  }

  lemma FollowsMore(
      codec: NumberCodec, keeps: bool, ttl: nat, b: Items, calls: seq<Call>, t: Trace, n: nat, c: Cache, d: Doubt)
    requires AllProper(codec, calls) && n < |calls| && Follows(codec, keeps, ttl, b, calls, t, n)
    requires Coherent(ttl, c, After(codec, keeps, b, calls, n + 1), calls[n].now, d)
    requires d == DoubtAfter(codec, keeps, ttl, t.caches[n], After(codec, keeps, b, calls, n), t.doubts[n], calls[n])
    ensures Follows(codec, keeps, ttl, b, calls, Trace(t.caches + [c], t.doubts + [d]), n + 1)
  {
    hide Coherent, DoubtAfter, After, Proper;
    var more := Trace(t.caches + [c], t.doubts + [d]);
    forall i | 0 <= i < n + 1
      ensures Follow(codec, keeps, ttl, b, calls, more, i)
    {
      if i < n {
        assert Follow(codec, keeps, ttl, b, calls, t, i);
      }
    }
  }

  method Serve(w: CachingWrapper, call: Call) returns (answer: Answer)
    requires w.Valid() && Proper(w.backend.codec, call.request) && w.clock <= call.now
    modifies w, w.backend
    ensures w.Valid() && w.clock == call.now
    ensures w.backend.Stored() == Effect(w.backend.codec, w.backend.keeps, old(w.backend.Stored()), call)
    ensures w.doubt == DoubtAfter(w.backend.codec, w.backend.keeps, w.ttl, old(w.cache), old(w.backend.Stored()),
      old(w.doubt), call)
    ensures Trusted(w.ttl, old(w.doubt), call) ==> Right(old(w.backend.Stored()), call, answer)
    ensures old(w.initialized) ==> w.initialized
    ensures answer.Known? ==> answer == Known(w.initialized)
  {
    hide Coherent, AllReadable, Decoded, Lists, LiveItem, DataVersion, Storable, PutFit, Shows, Upserted;
    hide PutAll, DataKey, Safe;
    hide UpsertDoubt, PutDoubt, LostDoubt, Everything, Doubtful, Shaped, Held;
    match call.request
    case InitRequest(data) =>
      var ok := w.Init(data, call.now, call.reply);
      answer := if ok then Done else Failed;
    case UpsertRequest(kind, item) =>
      StorableHasKey(w.backend.codec, item);
      var ok := w.Upsert(kind, item, call.now, call.reply);
      answer := if ok then Done else Failed;
    case GetRequest(kind, key) =>
      var ok, item := w.Get(kind, key, call.now, call.reply.Fine?);
      answer := if ok then Found(item) else Failed;
    case AllRequest(kind) =>
      var ok, list := w.All(kind, call.now, call.reply.Fine?);
      answer := if ok then Listed(list) else Failed;
    case InitializedRequest =>
      var r := w.Initialized(call.now, call.reply.Fine?);
      answer := Known(r);
  }

  /** An upsert that one side takes alone. */
  predicate OneSided(keeps: bool, ttl: nat, c: Cache, b: Items, kind: Kind, item: Json, now: real)
    requires HasKey(item)
  {
    var key := DataKey(item);
    && Writes(keeps, b, kind, key, item) != Replaces(ttl, c, kind, key, item, now)
    && Copy(b, kind, key) != item
  }

  /** An upsert the backend takes while its caller is told that it failed. */
  predicate Unseen(keeps: bool, b: Items, kind: Kind, item: Json)
    requires HasKey(item)
  {
    Writes(keeps, b, kind, DataKey(item), item) && Copy(b, kind, DataKey(item)) != item
  }

  /** Whether a call puts a slot in doubt: an upsert of that item, or of one of that list's
      kind, that one side took alone; a put that brings something unsound there; or a put
      whose reply was lost, for everything cached. */
  ghost predicate Unsettles(codec: NumberCodec, keeps: bool, ttl: nat, c: Cache, b: Items, call: Call, s: Slot) {
    match call.request
    case UpsertRequest(kind, item) =>
      && HasKey(item) && (s == ItemSlot(kind, DataKey(item)) || s == AllSlot(kind))
      && ((call.reply.Fine? && OneSided(keeps, ttl, c, b, kind, item, call.now))
          || (call.reply.Lost? && Unseen(keeps, b, kind, item)))
    case InitRequest(data) =>
      || (call.reply.Fine? && s in PutDoubt(codec, data, call.now))
      || (call.reply.Lost? && s in Everything(c, call.now))
    case _ => false
  }

  /** Doubt has a cause: a slot doubted after `n` calls was unsettled by one of them, at
      the time the doubt counts from, and there was no put since. */
  lemma {:induction false} DoubtHasCause(
      codec: NumberCodec, keeps: bool, ttl: nat, b: Items, calls: seq<Call>, t: Trace, n: nat, s: Slot)
    returns (j: nat)
    requires AllProper(codec, calls) && n <= |calls| && Follows(codec, keeps, ttl, b, calls, t, |calls|)
    requires t.doubts[0] == map[] && s in t.doubts[n]
    ensures j < n && Unsettles(codec, keeps, ttl, t.caches[j], After(codec, keeps, b, calls, j), calls[j], s)
    ensures t.doubts[n][s] == calls[j].now
    ensures forall i :: j < i < n && !calls[i].reply.Down? ==> !calls[i].request.InitRequest?
    decreases n
  {
    hide After, Follows, PutDoubt, OneSided, UpsertDoubt, LostDoubt, Everything, Coherent, Proper, DoubtAfter;
    FollowsAt(codec, keeps, ttl, b, calls, t, n - 1);
    var c, items, d := t.caches[n - 1], After(codec, keeps, b, calls, n - 1), t.doubts[n - 1];
    DoubtStep(codec, keeps, ttl, c, items, d, calls[n - 1], s);
    if Unsettles(codec, keeps, ttl, c, items, calls[n - 1], s) && t.doubts[n][s] == calls[n - 1].now {
      j := n - 1;
    } else {
      j := DoubtHasCause(codec, keeps, ttl, b, calls, t, n - 1, s);
    }
  }

  lemma FollowsAt(codec: NumberCodec, keeps: bool, ttl: nat, b: Items, calls: seq<Call>, t: Trace, i: nat)
    requires AllProper(codec, calls) && i < |calls| && Follows(codec, keeps, ttl, b, calls, t, |calls|)
    ensures |t.caches| == |t.doubts| == |calls| + 1 && Proper(codec, calls[i].request)
    ensures t.doubts[i + 1]
         == DoubtAfter(codec, keeps, ttl, t.caches[i], After(codec, keeps, b, calls, i), t.doubts[i], calls[i])
  {
    hide DoubtAfter, After, Coherent, Proper;
    assert Follow(codec, keeps, ttl, b, calls, t, i);
  }

  /** A slot doubted after a call was unsettled by it or doubted before it. */
  lemma DoubtStep(codec: NumberCodec, keeps: bool, ttl: nat, c: Cache, b: Items, d: Doubt, call: Call, s: Slot)
    requires Proper(codec, call.request)
    ensures
      var more := DoubtAfter(codec, keeps, ttl, c, b, d, call);
      s in more ==>
        || (Unsettles(codec, keeps, ttl, c, b, call, s) && more[s] == call.now)
        || (s in d && more[s] == d[s] && (call.reply.Down? || !call.request.InitRequest?))
  {
    hide PutDoubt, Everything, UpsertDoubt, LostDoubt, OneSided, Unseen, Held, DataKey, HasKey, ValidData, PutFit;
    match call.request
    case InitRequest(data) =>
      PutDoubtNow(codec, data, call.now);
      EverythingCached(c, call.now);
    case UpsertRequest(kind, item) =>
      StorableHasKey(codec, item);
      UpsertStep(keeps, ttl, c, b, d, kind, item, call.now, s);
    case _ =>
  }

  lemma UpsertStep(keeps: bool, ttl: nat, c: Cache, b: Items, d: Doubt, kind: Kind, item: Json, now: real, s: Slot)
    requires HasKey(item)
    ensures
      var key := DataKey(item);
      var taken, lost := UpsertDoubt(keeps, ttl, c, b, kind, key, item, now, d),
        LostDoubt(keeps, b, kind, key, item, now, d);
      && (s in taken ==>
            || (s in d && taken[s] == d[s])
            || (OneSided(keeps, ttl, c, b, kind, item, now) && taken[s] == now
              && (s == ItemSlot(kind, key) || s == AllSlot(kind))))
      && (s in lost ==>
            || (s in d && lost[s] == d[s])
            || (Unseen(keeps, b, kind, item) && lost[s] == now && (s == ItemSlot(kind, key) || s == AllSlot(kind))))
  {
    hide Writes, Replaces, Copy, DataKey, HasKey;
  }

  lemma {:induction false} PutDoubtNow(codec: NumberCodec, data: seq<Member>, now: real)
    ensures forall s :: s in PutDoubt(codec, data, now) ==> PutDoubt(codec, data, now)[s] == now
    decreases |data|
  {
    hide AllSound, KindNamed, ItemsDoubt;
    if data != [] {
      var n := |data| - 1;
      var d, kind := PutDoubt(codec, data[..n], now), KindNamed(data[n].key);
      PutDoubtNow(codec, data[..n], now);
      if kind.Some? && data[n].value.Object? {
        var listed := if AllSound(codec, data[n].value.members) then d else d[AllSlot(kind.value) := now];
        ItemsDoubtNow(listed, kind.value, data[n].value.members, now);
      }
    }
  }

  lemma {:induction false} ItemsDoubtNow(d: Doubt, kind: Kind, members: seq<Member>, now: real)
    requires forall s :: s in d ==> d[s] == now
    ensures forall s :: s in ItemsDoubt(d, kind, members, now) ==> ItemsDoubt(d, kind, members, now)[s] == now
    decreases |members|
  {
    hide ValidData, OwnKey;
    if members != [] {
      ItemsDoubtNow(d, kind, members[..|members| - 1], now);
    }
  }

  /** An upsert newer than the backend's copy and than what is cached settles its item
      and its kind's list, whatever was in doubt. */
  lemma NewerSettles(codec: NumberCodec, keeps: bool, ttl: nat, c: Cache, b: Items, d: Doubt, call: Call)
    requires Proper(codec, call.request) && call.reply.Fine? && call.request.UpsertRequest? && HasKey(call.request.item)
    requires
      var kind, item := call.request.kind, call.request.item;
      var k, held := (kind, DataKey(item)), Held(ttl, c, ItemSlot(kind, DataKey(item)), call.now);
      && (k in b ==> DataVersion(b[k]) < DataVersion(item))
      && (held.Some? ==> DataVersion(held.value) < DataVersion(item))
    ensures
      var more := DoubtAfter(codec, keeps, ttl, c, b, d, call);
      && ItemSlot(call.request.kind, DataKey(call.request.item)) !in more
      && AllSlot(call.request.kind) !in more
  {
    hide DataVersion, Shows, DataKey, Held, HasKey, Copy, Storable;
  }

  /** A call that casts no doubt on a cache in none: a sound put, an upsert safe by its
      version, or a write that did not happen. */
  ghost predicate Settled(codec: NumberCodec, keeps: bool, ttl: nat, c: Cache, b: Items, call: Call) {
    match call.request
    case InitRequest(data) => call.reply.Down? || (call.reply.Fine? && PutSound(codec, data))
    case UpsertRequest(kind, item) =>
      || call.reply.Down?
      || (call.reply.Fine? && HasKey(item) && VersionSafe(keeps, ttl, c, b, kind, DataKey(item), item, call.now))
    case _ => true
  }

  /** A run of sound puts and of upserts safe by their versions never casts a doubt, so
      that every one of its answers is the bare backend's. */
  lemma {:induction false} SettledRunIsTrusted(
      codec: NumberCodec, keeps: bool, ttl: nat, b: Items, calls: seq<Call>, start: real, t: Trace, n: nat)
    requires AllProper(codec, calls) && n <= |calls| && InOrder(calls, start)
    requires Follows(codec, keeps, ttl, b, calls, t, |calls|)
    requires t.doubts[0] == map[] && Coherent(ttl, t.caches[0], b, start, map[])
    requires forall i :: 0 <= i < |calls| ==>
      Settled(codec, keeps, ttl, t.caches[i], After(codec, keeps, b, calls, i), calls[i])
    ensures t.doubts[n] == map[]
    ensures n < |calls| ==>
      && Coherent(ttl, t.caches[n], After(codec, keeps, b, calls, n), calls[n].now, map[])
      && Trusted(ttl, t.doubts[n], calls[n])
    decreases n
  {
    hide After, DoubtAfter, Coherent, Proper, Settled, Doubtful;
    if n == 0 {
      NothingDone(codec, keeps, b, calls);
      if n < |calls| {
        CoherentLater(ttl, t.caches[0], b, start, calls[0].now, map[]);
      }
    } else {
      SettledRunIsTrusted(codec, keeps, ttl, b, calls, start, t, n - 1);
      assert Follow(codec, keeps, ttl, b, calls, t, n - 1);
      SettledStep(codec, keeps, ttl, t.caches[n - 1], After(codec, keeps, b, calls, n - 1), calls[n - 1]);
      if n < |calls| {
        CoherentLater(ttl, t.caches[n], After(codec, keeps, b, calls, n), calls[n - 1].now, calls[n].now, map[]);
      }
    }
    if n < |calls| && SlotOf(calls[n].request).Some? {
      NoDoubt(ttl, SlotOf(calls[n].request).value, calls[n].now);
    }
  }

  lemma SettledStep(codec: NumberCodec, keeps: bool, ttl: nat, c: Cache, b: Items, call: Call)
    requires Proper(codec, call.request) && Settled(codec, keeps, ttl, c, b, call)
      && Coherent(ttl, c, b, call.now, map[])
    ensures DoubtAfter(codec, keeps, ttl, c, b, map[], call) == map[]
  {
    hide Coherent, UpsertDoubt, PutDoubt, Safe, VersionSafe, PutSound, Held, LostDoubt, Everything;
    match call.request
    case InitRequest(data) =>
      if call.reply.Fine? {
        SoundPutLeavesNoDoubt(codec, data, call.now);
      }
    case UpsertRequest(kind, item) =>
      if call.reply.Fine? {
        SafeByVersions(keeps, ttl, c, b, kind, DataKey(item), item, call.now);
        SafeCastsNoDoubt(keeps, ttl, c, b, kind, DataKey(item), item, call.now);
      }
    case _ =>
  }
}
