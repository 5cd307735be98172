/** Fields of a stored flag or segment. */
module StoreData {
  import opened Wrappers
  import opened JsonTree
  import opened FlagSchema
  import opened Matching

  const UINT_RANGE := 0x1_0000_0000

  /** `stringToFeatureKind`. */
  function KindNamed(name: string): Option<Kind> {
    if name == "features" then Some(Flag) else if name == "segments" then Some(Segment) else None
  }

  /** `featureKindToString`. */
  function KindName(kind: Kind): string {
    if kind == Flag then "features" else "segments"
  }

  lemma KindNamesAreInverse(name: string, kind: Kind)
    ensures KindNamed(name) == Some(kind) <==> KindName(kind) == name
  {
    assert "features"[0] != "segments"[0];
  }

  /** Whether `LDi_getDataKey` meets its assertions. */
  predicate HasKey(item: Json) {
    var key := Lookup(item, "key");
    key.Some? && key.value.Text?
  }

  /** `LDi_getDataKey`. */
  function DataKey(item: Json): string
    requires HasKey(item)
  {
    Lookup(item, "key").value.s
  }

  /** `LDi_getDataVersion`. C leaves a number outside `unsigned int` open; taking it
      modulo the range is what common hardware does. */
  function DataVersion(item: Json): (r: nat)
    ensures r < UINT_RANGE
  {
    match Lookup(item, "version")
    case Some(Number(n)) => Truncate(n) % UINT_RANGE
    case _ => 0
  }

  /** `LDi_validateData`. */
  predicate ValidData(item: Json) {
    && item.Object?
    && var version := Lookup(item, "version");
    && version.Some? && version.value.Number?
    && HasKey(item)
    && var deleted := Lookup(item, "deleted");
    (deleted.Some? ==> deleted.value.Bool?)
  }

  /** `LDi_isDataDeleted`: a mark that is no boolean counts as set. */
  predicate IsDeleted(item: Json) {
    match Lookup(item, "deleted")
    case Some(Bool(b)) => b
    case Some(_) => true
    case None => false
  }

  /** An item shows unless it is marked: its mark is absent or false. */
  predicate Shows(item: Json) {
    Lookup(item, "deleted").None? || Lookup(item, "deleted") == Some(Bool(false))
  }

  /** Exactly the items that do not show count as deleted. */
  lemma DeletedIs(item: Json)
    ensures IsDeleted(item) <==> !Shows(item)
  {
  }

  /** A version is a number without its fraction, as an `unsigned int`; none counts as 0. */
  lemma VersionIs(item: Json, version: int)
    requires Lookup(item, "version").Some? && Lookup(item, "version").value.Number?
    requires Whole(Lookup(item, "version").value.n, version)
    ensures DataVersion(item) == version % 0x1_0000_0000
  {
    hide Truncate, Whole, Lookup;
    TruncateIs(Lookup(item, "version").value.n, version);
  }

  lemma NoVersionIs(item: Json)
    requires Lookup(item, "version").None? || !Lookup(item, "version").value.Number?
    ensures DataVersion(item) == 0
  {
  }

  /** What the store takes: an object with a text key, a number as version, and a deletion
      mark, if any, that is true or false. */
  lemma ValidIs(item: Json)
    ensures ValidData(item)
       <==> && (exists key :: Lookup(item, "key") == Some(Text(key)))
            && (exists n :: Lookup(item, "version") == Some(Number(n)))
            && (Lookup(item, "deleted").None? || exists b :: Lookup(item, "deleted") == Some(Bool(b)))
    ensures ValidData(item) ==> Lookup(item, "key") == Some(Text(DataKey(item)))
  {
    if ValidData(item) {
      assert Lookup(item, "key") == Some(Text(DataKey(item)));
      assert Lookup(item, "version") == Some(Number(Lookup(item, "version").value.n));
      if Lookup(item, "deleted").Some? {
        assert Lookup(item, "deleted") == Some(Bool(Lookup(item, "deleted").value.b));
      }
    }
  }

  /** `LDi_makeDeletedData`. */
  method MakeDeleted(key: string, version: nat) returns (item: Json)
    requires version < UINT_RANGE
    ensures item == Tombstone(key, version)
  {
    var members := [];
    members := members + [Member("key", Text(key))];
    members := members + [Member("version", Number(version as real))];
    members := members + [Member("deleted", Bool(true))];
    item := Object(members);
  }

  function Tombstone(key: string, version: nat): Json {
    Object([Member("key", Text(key)), Member("version", Number(version as real)), Member("deleted", Bool(true))])
  }

  /** The record `LDStoreRemove` builds. */
  function Removal(key: string, version: nat): Json {
    Object([Member("version", Number(version as real)), Member("key", Text(key)), Member("deleted", Bool(true))])
  }

  /** Members with different keys are found whatever their order. */
  lemma TombstoneReads(key: string, version: nat, item: Json)
    requires item == Tombstone(key, version) || item == Removal(key, version)
    ensures ValidData(item) && IsDeleted(item) && !Shows(item) && DataKey(item) == key
    ensures version < UINT_RANGE ==> DataVersion(item) == version
  {
    assert "key"[0] != "version"[0] && "key"[0] != "deleted"[0] && "version"[0] != "deleted"[0];
    var m := item.members;
    forall i | 0 <= i < 3
      ensures FirstIndex(m, m[i].key) == i
    {
    }
    assert Lookup(item, "key") == Some(Text(key));
    assert Lookup(item, "version") == Some(Number(version as real));
    assert Lookup(item, "deleted") == Some(Bool(true));
    assert (version as real).Floor == version;
  }
}
