/** A persistent store behind the caching wrapper: JSON texts by kind and key. */
module Backend {
  import opened Wrappers
  import opened JsonTree
  import opened JsonNumber
  import opened JsonParse
  import opened JsonText
  import opened Matching
  import opened StoreData
  import opened CacheSpec

  type Texts = map<(Kind, string), string>

  /** One item of a collection handed to the backend. */
  datatype Row = Row(key: string, text: string)

  /** How a write ended: done, not done, or done while the caller is told it failed. */
  datatype Reply = Fine | Down | Lost

  datatype Collection = Collection(kind: Kind, rows: seq<Row>)

  /** `LDJSONDeserialize`. */
  function Deserialize(codec: NumberCodec, text: string): Option<Json> {
    ParseText(codec, text, false)
  }

  /** `LDJSONSerialize`. */
  function Serialize(codec: NumberCodec, item: Json): string {
    Print(codec, item, false, 0)
  }

  /** An item whose text can be read back. */
  predicate Storable(codec: NumberCodec, item: Json) {
    ValidData(item) && Printable(codec, item) && Nesting(item) <= NESTING_LIMIT
  }

  /** The text stored is not formatted. */
  lemma SerializeIs(codec: NumberCodec, item: Json)
    requires item.Object?
    ensures Serialize(codec, item) == "{" + JoinWith(MemberTexts(codec, item.members, false, 1), ",") + "}"
  {
    hide Print, JoinWith, MemberTexts;
    LayoutIs(codec, item, false, 0);
  }

  lemma SerializeReads(codec: NumberCodec, item: Json)
    requires Storable(codec, item)
    ensures Deserialize(codec, Serialize(codec, item)) == Some(item)
  {
    hide Print, ParseText, Printable, ValidData;
    RoundTrip(codec, item, false, false);
  }

  /** A text of a valid item, filed under the item's key. */
  ghost predicate Readable(codec: NumberCodec, key: string, text: string) {
    var item := Deserialize(codec, text);
    item.Some? && ValidData(item.value) && DataKey(item.value) == key
  }

  ghost predicate AllReadable(codec: NumberCodec, texts: Texts) {
    forall k :: k in texts ==> Readable(codec, k.1, texts[k])
  }

  function Decoded(codec: NumberCodec, texts: Texts): Items
    requires AllReadable(codec, texts)
  {
    map k | k in texts :: Deserialize(codec, texts[k]).value
  }

  /** What is stored is valid and filed under its own key. */
  lemma StoredItem(codec: NumberCodec, texts: Texts, kind: Kind, key: string)
    requires AllReadable(codec, texts) && (kind, key) in Decoded(codec, texts)
    ensures var item := Decoded(codec, texts)[(kind, key)]; ValidData(item) && HasKey(item) && DataKey(item) == key
  {
    hide Deserialize, DataKey;
    assert Readable(codec, key, texts[(kind, key)]);
  }

  lemma DecodedSet(codec: NumberCodec, texts: Texts, kind: Kind, key: string, text: string)
    requires AllReadable(codec, texts) && Readable(codec, key, text)
    ensures AllReadable(codec, texts[(kind, key) := text])
    ensures Decoded(codec, texts[(kind, key) := text])
      == Decoded(codec, texts)[(kind, key) := Deserialize(codec, text).value]
  {
    hide Deserialize, ValidData, DataKey, HasKey;
    assert forall k :: k in texts[(kind, key) := text] ==> Readable(codec, k.1, texts[(kind, key) := text][k]);
  }

  function Cleared<T>(m: map<(Kind, string), T>, kind: Kind): map<(Kind, string), T> {
    map k | k in m && k.0 != kind :: m[k]
  }

  lemma DecodedCleared(codec: NumberCodec, texts: Texts, kind: Kind)
    requires AllReadable(codec, texts)
    ensures AllReadable(codec, Cleared(texts, kind))
    ensures Decoded(codec, Cleared(texts, kind)) == Cleared(Decoded(codec, texts), kind)
  {
    hide Deserialize, ValidData, DataKey, HasKey;
    assert forall k :: k in Cleared(texts, kind) ==> Readable(codec, k.1, Cleared(texts, kind)[k]);
  }

  /** Items set in turn. */
  function Filled(b: Items, kind: Kind, members: seq<Member>): Items {
    if members == [] then b
    else
      var n := |members| - 1;
      Filled(b, kind, members[..n])[(kind, members[n].key) := members[n].value]
  }

  /** Every known collection of a put replaces the items of its kind. */
  function PutAll(b: Items, data: seq<(Kind, seq<Member>)>): Items {
    if data == [] then b
    else
      var n := |data| - 1;
      Filled(Cleared(PutAll(b, data[..n]), data[n].0), data[n].0, data[n].1)
  }

  ghost predicate RowsOf(codec: NumberCodec, rows: seq<Row>, members: seq<Member>) {
    && |rows| == |members|
    && forall i :: 0 <= i < |rows| ==> RowOf(codec, rows[i], members[i])
  }

  ghost predicate RowOf(codec: NumberCodec, row: Row, m: Member) {
    row.key == m.key && Deserialize(codec, row.text) == Some(m.value) && ValidData(m.value) && DataKey(m.value) == m.key
  }

  ghost predicate CollectionsOf(codec: NumberCodec, collections: seq<Collection>, data: seq<(Kind, seq<Member>)>) {
    && |collections| == |data|
    && forall i :: 0 <= i < |data| ==> collections[i].kind == data[i].0 && RowsOf(codec, collections[i].rows, data[i].1)
  }

  lemma RowReads(codec: NumberCodec, row: Row, m: Member)
    requires RowOf(codec, row, m)
    ensures Readable(codec, row.key, row.text) && row.key == m.key && Deserialize(codec, row.text) == Some(m.value)
  {
    hide Deserialize, ValidData, DataKey, HasKey;
  }

  class Backend {
    const codec: NumberCodec
    /** Whether a deleted item still refuses older ones; Redis forgets it. */
    const keeps: bool
    var texts: Texts
    var ready: bool

    constructor (codec: NumberCodec, keeps: bool)
      ensures this.codec == codec && this.keeps == keeps && texts == map[] && !ready
      ensures Valid()
    {
      this.codec, this.keeps, texts, ready := codec, keeps, map[], false;
    }

    ghost predicate Valid()
      reads this
    {
      AllReadable(codec, texts)
    }

    function Stored(): Items
      requires Valid()
      reads this
    {
      Decoded(codec, texts)
    }

    /** All collections at once, or nothing while the backend is down. */
    method Init(collections: seq<Collection>, reply: Reply, ghost data: seq<(Kind, seq<Member>)>) returns (ok: bool)
      requires Valid() && CollectionsOf(codec, collections, data)
      modifies this
      ensures Valid() && ok == reply.Fine?
      ensures Stored() == if reply.Down? then old(Stored()) else PutAll(old(Stored()), data)
      ensures ready == (old(ready) || !reply.Down?)
    {
      hide Readable, Deserialize, Filled, Cleared, RowsOf, Decoded, AllReadable;
      if reply.Down? {
        return false;
      }
      var i := 0;
      while i < |collections|
        invariant 0 <= i <= |collections| && Valid()
        invariant Stored() == PutAll(old(Stored()), data[..i]) && ready == old(ready)
      {
        DecodedCleared(codec, texts, collections[i].kind);
        texts := Cleared(texts, collections[i].kind);
        SetRows(collections[i].kind, collections[i].rows, data[i].1);
        assert data[..i + 1][..i] == data[..i];
        i := i + 1;
      }
      assert data[..i] == data;
      ready := true;
      ok := reply.Fine?;
    }

    method SetRows(kind: Kind, rows: seq<Row>, ghost members: seq<Member>)
      requires Valid() && RowsOf(codec, rows, members)
      modifies this`texts
      ensures Valid() && Stored() == Filled(old(Stored()), kind, members)
    {
      hide Readable, RowOf, Decoded, AllReadable;
      var i := 0;
      while i < |rows|
        invariant 0 <= i <= |rows| && Valid()
        invariant Stored() == Filled(old(Stored()), kind, members[..i])
      {
        RowReads(codec, rows[i], members[i]);
        DecodedSet(codec, texts, kind, rows[i].key, rows[i].text);
        texts := texts[(kind, rows[i].key) := rows[i].text];
        assert members[..i + 1][..i] == members[..i];
        i := i + 1;
      }
      assert members[..i] == members;
    }

    /** The text of what is stored under a key. */
    method Get(kind: Kind, key: string, up: bool) returns (ok: bool, text: Option<string>)
      requires Valid()
      ensures ok == up
      ensures ok ==> (text.Some? <==> (kind, key) in Stored())
      ensures text.Some? ==> ok && Deserialize(codec, text.value) == Some(Stored()[(kind, key)])
    {
      hide Deserialize, ValidData, DataKey, HasKey;
      ok := up;
      text := if up && (kind, key) in texts then Some(texts[(kind, key)]) else None;
      assert text.Some? ==> Readable(codec, key, text.value);
    }

    /** Every item of a kind, in no particular order. */
    method All(kind: Kind, up: bool) returns (ok: bool, rows: seq<Row>)
      ensures ok == up
      ensures ok ==> forall i, j :: 0 <= i < j < |rows| ==> rows[i].key != rows[j].key
      ensures ok ==> forall i :: 0 <= i < |rows| ==>
        (kind, rows[i].key) in texts && texts[(kind, rows[i].key)] == rows[i].text
      ensures ok ==> forall k :: k in texts && k.0 == kind ==> Row(k.1, texts[k]) in rows
    {
      ok, rows := up, [];
      if !up {
        return;
      }
      var todo := texts.Keys;
      while todo != {}
        invariant todo <= texts.Keys
        invariant forall i, j :: 0 <= i < j < |rows| ==> rows[i].key != rows[j].key
        invariant forall i :: 0 <= i < |rows| ==> (kind, rows[i].key) in texts && (kind, rows[i].key) !in todo
        invariant forall i :: 0 <= i < |rows| ==> texts[(kind, rows[i].key)] == rows[i].text
        invariant forall k :: k in texts && k.0 == kind && k !in todo ==> Row(k.1, texts[k]) in rows
        decreases todo
      {
        var k :| k in todo;
        todo := todo - {k};
        if k.0 == kind {
          rows := rows + [Row(k.1, texts[k])];
        }
      }
    }

    /** Writes unless what is there is as new. */
    method Upsert(kind: Kind, key: string, text: string, version: nat, reply: Reply) returns (ok: bool)
      requires Valid() && Readable(codec, key, text) && version == DataVersion(Deserialize(codec, text).value)
      modifies this`texts
      ensures Valid() && ok == reply.Fine?
      ensures Stored() ==
        if reply.Down? then old(Stored()) else Upserted(keeps, old(Stored()), kind, key, Deserialize(codec, text).value)
    {
      hide Deserialize, DataVersion, IsDeleted, Shows, ValidData, DataKey, HasKey;
      if reply.Down? {
        return false;
      }
      if (kind, key) in texts {
        assert Readable(codec, key, texts[(kind, key)]);
        var existing := Deserialize(codec, texts[(kind, key)]).value;
        DeletedIs(existing);
        if (keeps || !IsDeleted(existing)) && DataVersion(existing) >= version {
          return reply.Fine?;
        }
      }
      DecodedSet(codec, texts, kind, key, text);
      texts := texts[(kind, key) := text];
      ok := reply.Fine?;
    }

    method Initialized(up: bool) returns (r: bool)
      ensures r == (up && ready)
    {
      r := up && ready;
    }
  }
}
