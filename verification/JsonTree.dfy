/** JSON values as cJSON nodes hold them.

    A C string is modelled as a `string` with one `char` per byte, so every
    character of a real text is below 256 and none is NUL. A number is a `real`;
    which reals are doubles is left to the number codec in module `JsonNumber`. */
module JsonTree {
  import opened Wrappers

  datatype Json =
    | Null
    | Bool(b: bool)
    | Number(n: real)
    | Text(s: string)
    | Array(items: seq<Json>)
    | Object(members: seq<Member>)

  datatype Member = Member(key: string, value: Json)

  const NUL: char := '\0'

  /** A NUL-free byte string: what a `char *` can carry. */
  predicate IsCString(s: string) {
    forall i :: 0 <= i < |s| ==> s[i] != NUL && s[i] < 256 as char
  }

  /** The bytes a C string function sees: everything before the first NUL. */
  function UpToNul(s: string): (r: string)
    ensures r <= s
    ensures forall i :: 0 <= i < |r| ==> r[i] != NUL
    ensures |r| < |s| ==> s[|r|] == NUL
  {
    if s == "" || s[0] == NUL then "" else [s[0]] + UpToNul(s[1..])
  }

  lemma UpToNulOfCString(s: string)
    requires IsCString(s)
    ensures UpToNul(s) == s
  {
    assert |UpToNul(s)| == |s|;
  }

  /** Index of the first member with the given key, or the number of members. */
  function FirstIndex(members: seq<Member>, key: string): (i: nat)
    ensures i <= |members|
    ensures i < |members| ==> members[i].key == key
    ensures forall j :: 0 <= j < i ==> members[j].key != key
  {
    if members == [] || members[0].key == key then 0
    else 1 + FirstIndex(members[1..], key)
  }

  /** `LDObjectLookup`: first member with the key; nothing on a non-object. */
  function Lookup(v: Json, key: string): (r: Option<Json>)
    ensures r.Some? ==> v.Object? && Member(key, r.value) in v.members
    ensures r.None? && v.Object? ==> forall m :: m in v.members ==> m.key != key
    ensures r.Some? ==> r.value < v
  {
    if !v.Object? then None
    else
      var i := FirstIndex(v.members, key);
      if i < |v.members| then Some(v.members[i].value) else None
  }

  /** Nesting depth of arrays and objects. */
  function Nesting(v: Json): nat {
    match v
    case Array(items) => 1 + ItemsNesting(items)
    case Object(members) => 1 + MembersNesting(members)
    case _ => 0
  }

  function ItemsNesting(items: seq<Json>): nat {
    if items == [] then 0 else Max(Nesting(items[0]), ItemsNesting(items[1..]))
  }

  function MembersNesting(members: seq<Member>): nat {
    if members == [] then 0 else Max(Nesting(members[0].value), MembersNesting(members[1..]))
  }

  function Max(a: nat, b: nat): nat { if a < b then b else a }
}
