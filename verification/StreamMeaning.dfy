/** What the events of a stream ask for, told by their bodies. */
module StreamMeaning {
  import opened Wrappers
  import opened JsonTree
  import opened JsonNumber
  import opened JsonParse
  import opened FlagSchema
  import opened Matching
  import opened StoreData
  import opened MemoryStore
  import opened StreamEvents

  /** The path of an item. */
  function PathOf(kind: Kind, key: string): string {
    match kind
    case Flag => "/flags/" + key
    case Segment => "/segments/" + key
  }

  predicate NamesItem(path: string, kind: Kind, key: string) { path == PathOf(kind, key) }

  ghost predicate NamesNothing(path: string) { forall kind, key :: !NamesItem(path, kind, key) }

  lemma PathIs(path: string, kind: Kind, key: string)
    ensures ParsePath(path) == Some((kind, key)) <==> NamesItem(path, kind, key)
  {
    PathNames(kind, key);
  }

  lemma PathIsNone(path: string)
    ensures ParsePath(path).None? <==> NamesNothing(path)
  {
    hide ParsePath;
    if ParsePath(path).Some? {
      PathIs(path, ParsePath(path).value.0, ParsePath(path).value.1);
    }
    forall kind, key | NamesItem(path, kind, key)
      ensures ParsePath(path).Some?
    {
      PathIs(path, kind, key);
    }
  }

  /** A body that reads as an object. */
  predicate ReadsAs(codec: NumberCodec, body: string, event: Json) {
    event.Object? && ParseText(codec, body, false) == Some(event)
  }

  predicate HasPath(event: Json, path: string) { Lookup(event, "path") == Some(Text(path)) }

  ghost predicate NoPath(event: Json) { forall path :: !HasPath(event, path) }

  lemma PathField(event: Json, path: string)
    ensures Required(event, "path", TextType) == Some(Text(path)) <==> HasPath(event, path)
    ensures Required(event, "path", TextType).None? <==> NoPath(event)
  {
    hide Lookup;
    var found := Required(event, "path", TextType);
    if found.Some? {
      assert HasPath(event, found.value.s);
    }
  }

  lemma NumberField(event: Json, name: string)
    ensures match Required(event, name, NumberType)
            case Some(v) => v.Number? && Lookup(event, name) == Some(v)
            case None => Lookup(event, name).None? || !Lookup(event, name).value.Number?
  {
  }

  /** A patch of an item: its path says the kind, its data is the item. One for another
      path is passed over, and one without path or data is refused. */
  lemma PatchMeans(codec: NumberCodec, body: string, event: Json, path: string, kind: Kind, key: string)
    requires ReadsAs(codec, body, event)
    ensures NoPath(event) ==> Reading(codec, "patch", body) == Broken
    ensures HasPath(event, path) && NamesNothing(path) ==> Reading(codec, "patch", body) == Ignored
    ensures HasPath(event, path) && NamesItem(path, kind, key) ==>
      Reading(codec, "patch", body)
      == match Lookup(event, "data") case Some(item) => Patches(kind, item) case None => Broken
  {
    hide ParseText, Lookup, ParsePath, Required, HasPath, NoPath, NamesItem, NamesNothing, ReadPut, ReadDelete;
    Differ();
    PathIs(path, kind, key);
    PathIsNone(path);
    PathField(event, path);
  }

  lemma Differ()
    ensures "patch" != "put" && "delete" != "put" && "delete" != "patch"
  {
    assert |"put"| == 3 && |"patch"| == 5 && |"delete"| == 6;
  }

  /** A delete names the item by its path, and the version it deletes. */
  lemma DeleteMeans(
      codec: NumberCodec, body: string, event: Json, path: string, kind: Kind, key: string, version: nat)
    requires ReadsAs(codec, body, event) && version < 0x1_0000_0000
    ensures NoPath(event) ==> Reading(codec, "delete", body) == Broken
    ensures HasPath(event, path) && NamesNothing(path) ==> Reading(codec, "delete", body) == Ignored
    ensures HasPath(event, path) && NamesItem(path, kind, key) ==>
      && (Lookup(event, "version") == Some(Number(version as real)) ==>
            Reading(codec, "delete", body) == Removes(kind, key, version))
      && (Lookup(event, "version").None? || !Lookup(event, "version").value.Number? ==>
            Reading(codec, "delete", body) == Broken)
  {
    hide ParseText, Lookup, ParsePath, Required, HasPath, NoPath, NamesItem, NamesNothing, ReadPut, ReadPatch;
    Differ();
    PathIs(path, kind, key);
    PathIsNone(path);
    PathField(event, path);
    NumberField(event, "version");
    assert (version as real).Floor == version;
  }

  /** The data of a put: an object of flags and an object of segments. */
  predicate HasData(event: Json, flags: seq<Member>, segments: seq<Member>) {
    && Lookup(event, "data").Some?
    && var data := Lookup(event, "data").value;
    Lookup(data, "flags") == Some(Object(flags)) && Lookup(data, "segments") == Some(Object(segments))
  }

  ghost predicate NoData(event: Json) { forall flags, segments :: !HasData(event, flags, segments) }

  /** A put brings exactly its flags and its segments. */
  lemma PutMeans(codec: NumberCodec, body: string, event: Json, flags: seq<Member>, segments: seq<Member>)
    requires ReadsAs(codec, body, event)
    ensures NoData(event) ==> Reading(codec, "put", body) == Broken
    ensures HasData(event, flags, segments) && Distinct(Lookup(event, "data").value.members) ==>
      var update := Reading(codec, "put", body);
      && update.Puts?
      && PutItems(update.data, Flag) == MemberValues(flags)
      && PutItems(update.data, Segment) == MemberValues(segments)
  {
    hide ParseText, Lookup, PutData, PutItems, Distinct, ReadPatch, ReadDelete, Required, MemberValues;
    PutReads(event, flags, segments);
    var found := Lookup(event, "data");
    if HasData(event, flags, segments) && Distinct(found.value.members) {
      Brought(found.value.members, flags, segments);
    }
  }

  lemma PutReads(event: Json, flags: seq<Member>, segments: seq<Member>)
    ensures NoData(event) ==> ReadPut(event) == Broken
    ensures HasData(event, flags, segments) ==>
      Lookup(event, "data").value.Object?
      && ReadPut(event) == Puts(PutData(Lookup(event, "data").value.members, Object(flags)))
  {
    hide Lookup, PutData;
    var found := Lookup(event, "data");
    if found.Some? {
      ObjectHasFields(found.value, "flags");
      var f, s := Lookup(found.value, "flags"), Lookup(found.value, "segments");
      if f.Some? && f.value.Object? && s.Some? && s.value.Object? {
        assert HasData(event, f.value.members, s.value.members);
      }
    }
  }

  lemma ObjectHasFields(v: Json, name: string)
    ensures Lookup(v, name).Some? ==> v.Object?
  {
  }

  /** Any other name is passed over, and a body that is no object is refused. */
  lemma OthersMean(codec: NumberCodec, name: string, body: string)
    ensures name !in {"put", "patch", "delete"} ==> Reading(codec, name, body) == Ignored
    ensures name in {"put", "patch", "delete"} && (forall event :: !ReadsAs(codec, body, event)) ==>
      Reading(codec, name, body) == Broken
  {
    hide ParseText;
    var read := ParseText(codec, body, false);
    if read.Some? && read.value.Object? {
      assert ReadsAs(codec, body, read.value);
    }
  }

  // ------------------------------------------------------------- what a put brings

  lemma Brought(data: seq<Member>, flags: seq<Member>, segments: seq<Member>)
    requires Distinct(data)
    requires Lookup(Object(data), "flags") == Some(Object(flags))
    requires Lookup(Object(data), "segments") == Some(Object(segments))
    ensures var put := PutData(data, Object(flags));
      PutItems(put, Flag) == MemberValues(flags) && PutItems(put, Segment) == MemberValues(segments)
  {
    hide Without, Lookup, FirstIndex;
    NamesApart();
    var one := Without(data, "flags");
    var kept := Without(one, "features");
    WithoutKeeps(data, "flags");
    WithoutKeeps(one, "features");
    var put := kept + [Member("features", Object(flags))];
    SegmentsStay(data, segments);
    OnlySegments(kept, Object(segments));
    NoneLeft(kept);
    assert put[..|kept|] == kept && put[|kept|] == Member("features", Object(flags));
    KindsNamed("features");
    assert PutItems(put, Flag) == PutItems(kept, Flag) + MemberValues(flags);
    assert PutItems(put, Segment) == PutItems(kept, Segment) + [];
  }

  lemma NamesApart()
    ensures "flags" != "segments" && "features" != "segments" && "flags" != "features"
  {
    assert |"flags"| == 5 && |"features"| == 8 && |"segments"| == 8 && "features"[0] != "segments"[0];
  }

  lemma KindsNamed(name: string)
    ensures KindNamed(name) == Some(Flag) <==> name == "features"
    ensures KindNamed(name) == Some(Segment) <==> name == "segments"
  {
    NamesApart();
  }

  lemma SegmentsStay(data: seq<Member>, segments: seq<Member>)
    requires Distinct(data) && Lookup(Object(data), "segments") == Some(Object(segments))
    ensures var kept := Without(Without(data, "flags"), "features");
      Distinct(kept) && Member("segments", Object(segments)) in kept
  {
    hide Without, FirstIndex;
    NamesApart();
    FindMember(data, "segments");
    WithoutKeeps(data, "flags");
    WithoutKeeps(Without(data, "flags"), "features");
  }

  lemma {:induction false} NoneLeft(t: seq<Member>)
    requires forall i :: 0 <= i < |t| ==> t[i].key != "features"
    ensures PutItems(t, Flag) == []
    decreases |t|
  {
    if t != [] {
      NoneLeft(t[..|t| - 1]);
      KindsNamed(t[|t| - 1].key);
    }
  }

  lemma {:induction false} NoneOther(t: seq<Member>)
    requires forall i :: 0 <= i < |t| ==> t[i].key != "segments"
    ensures PutItems(t, Segment) == []
    decreases |t|
  {
    if t != [] {
      NoneOther(t[..|t| - 1]);
      KindsNamed(t[|t| - 1].key);
    }
  }

  lemma {:induction false} OnlySegments(t: seq<Member>, v: Json)
    requires Distinct(t) && Member("segments", v) in t
    ensures PutItems(t, Segment) == Values(v)
    decreases |t|
  {
    var n := |t| - 1;
    KindsNamed(t[n].key);
    if t[n].key == "segments" {
      FindIs(t, "segments", v);
      FindAt(t, n);
      NoneOther(t[..n]);
    } else {
      var i :| 0 <= i < |t| && t[i] == Member("segments", v);
      assert t[..n][i] == Member("segments", v);
      OnlySegments(t[..n], v);
    }
  }
}
