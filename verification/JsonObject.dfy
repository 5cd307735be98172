/** JSON objects made and edited field by field, as `LDObjectSetKey` and its kin do. */
module JsonObject {
  import opened Wrappers
  import opened JsonTree
  import opened MemoryStore

  /** A field to set on a new object, or to leave out. */
  datatype Slot = Slot(name: string, value: Option<Json>)

  function Members(slots: seq<Slot>): seq<Member> {
    if slots == [] then [] else Entry(slots[0]) + Members(slots[1..])
  }

  function Entry(slot: Slot): seq<Member> {
    if slot.value.Some? then [Member(slot.name, slot.value.value)] else []
  }

  /** A flag that is only set when it is true. */
  function Mark(marked: bool): Option<Json> { if marked then Some(Bool(true)) else None }

  ghost predicate Apart(slots: seq<Slot>) {
    forall i, j :: 0 <= i < j < |slots| ==> slots[i].name != slots[j].name
  }

  ghost predicate Lacks(slots: seq<Slot>, name: string) {
    forall i :: 0 <= i < |slots| ==> slots[i].name != name
  }

  /** Every field reads as it was set. */
  lemma {:induction false} SlotReads(slots: seq<Slot>, i: nat)
    requires Apart(slots) && i < |slots|
    ensures Lookup(Object(Members(slots)), slots[i].name) == slots[i].value
    decreases |slots|
  {
    hide Lookup;
    var rest := slots[1..];
    EntryFirst(slots[0], Members(rest), slots[i].name);
    if i == 0 {
      assert Lacks(rest, slots[0].name);
      LackedReads(rest, slots[0].name);
    } else {
      assert rest[i - 1] == slots[i];
      SlotReads(rest, i - 1);
    }
  }

  lemma EntryFirst(slot: Slot, rest: seq<Member>, name: string)
    ensures Lookup(Object(Entry(slot) + rest), name)
         == if slot.name == name && slot.value.Some? then slot.value else Lookup(Object(rest), name)
  {
    var all := Entry(slot) + rest;
    if slot.value.Some? {
      assert all[0] == Member(slot.name, slot.value.value) && all[1..] == rest;
    } else {
      assert all == rest;
    }
  }

  lemma {:induction false} LackedReads(slots: seq<Slot>, name: string)
    requires Lacks(slots, name)
    ensures Lookup(Object(Members(slots)), name) == None
    decreases |slots|
  {
    if slots != [] {
      LackedReads(slots[1..], name);
      EntryFirst(slots[0], Members(slots[1..]), name);
    }
  }

  lemma {:induction false} MembersDistinct(slots: seq<Slot>)
    requires Apart(slots)
    ensures Distinct(Members(slots))
    decreases |slots|
  {
    if slots != [] {
      var rest := Members(slots[1..]);
      MembersDistinct(slots[1..]);
      assert Lacks(slots[1..], slots[0].name);
      LackedReads(slots[1..], slots[0].name);
      assert forall i :: 0 <= i < |rest| ==> rest[i] in rest;
    }
  }

  /** `LDObjectDeleteKey`. */
  function Drop(obj: Json, name: string): Json {
    if obj.Object? then Object(Without(obj.members, name)) else obj
  }

  /** `LDObjectSetKey`. */
  function Put(obj: Json, name: string, v: Json): Json {
    if obj.Object? then Object(Without(obj.members, name) + [Member(name, v)]) else obj
  }

  ghost predicate Plain(obj: Json) { obj.Object? && Distinct(obj.members) }

  lemma DropReads(obj: Json, name: string, other: string)
    requires Plain(obj)
    ensures Plain(Drop(obj, name))
    ensures Lookup(Drop(obj, name), other) == if other == name then None else Lookup(obj, other)
  {
    hide Without, FirstIndex;
    var t := obj.members;
    var kept := Without(t, name);
    WithoutKeeps(t, name);
    FindNone(t, other);
    FindNone(kept, other);
    if other != name && Find(t, other).Some? {
      FindIs(kept, other, Find(t, other).value);
    }
  }

  lemma PutReads(obj: Json, name: string, v: Json, other: string)
    requires Plain(obj)
    ensures Plain(Put(obj, name, v))
    ensures Lookup(Put(obj, name, v), other) == if other == name then Some(v) else Lookup(obj, other)
  {
    hide Without, FirstIndex;
    DropReads(obj, name, other);
    DropReads(obj, name, name);
    var kept := Without(obj.members, name);
    var r := kept + [Member(name, v)];
    FindNone(kept, name);
    FindNone(kept, other);
    FindNone(r, other);
    assert forall i :: 0 <= i < |kept| ==> r[i] == kept[i];
    assert r[|kept|] == Member(name, v);
    if other == name {
      FindIs(r, name, v);
    } else if Find(kept, other).Some? {
      var i :| 0 <= i < |kept| && kept[i] == Member(other, Find(kept, other).value);
      assert r[i] in r;
      FindIs(r, other, Find(kept, other).value);
    }
  }
}
