/** What clauses, segments and rollouts mean, read off their fields alone, and that the
    evaluator reads them so. */
module FlagMeaning {
  import opened Wrappers
  import opened JsonTree
  import opened FlagSchema
  import opened Rollout
  import opened Matching
  import opened Evaluate

  // ------------------------------------------------------------- fields

  predicate Missing(v: Json, name: string) { Lookup(v, name).None? || Lookup(v, name) == Some(Null) }

  predicate HasText(v: Json, name: string) { Lookup(v, name).Some? && Lookup(v, name).value.Text? }

  predicate HasNumber(v: Json, name: string) { Lookup(v, name).Some? && Lookup(v, name).value.Number? }

  predicate HasList(v: Json, name: string) { Lookup(v, name).Some? && Lookup(v, name).value.Array? }

  predicate BoolIfAny(v: Json, name: string) { Missing(v, name) || Lookup(v, name).value.Bool? }

  predicate TextIfAny(v: Json, name: string) { Missing(v, name) || HasText(v, name) }

  predicate NumberIfAny(v: Json, name: string) { Missing(v, name) || HasNumber(v, name) }

  predicate ListIfAny(v: Json, name: string) { Missing(v, name) || HasList(v, name) }

  predicate True(v: Json, name: string) { Lookup(v, name) == Some(Bool(true)) }

  function Items(v: Json, name: string): seq<Json> {
    if HasList(v, name) then Lookup(v, name).value.items else []
  }

  /** The typed lookups of the source, told by the field itself. */
  lemma FieldsRead(v: Json, name: string)
    ensures Required(v, name, TextType).Some? <==> HasText(v, name)
    ensures Required(v, name, NumberType).Some? <==> HasNumber(v, name)
    ensures Required(v, name, ArrayType).Some? <==> HasList(v, name)
    ensures Required(v, name, ObjectType).Some? <==> Lookup(v, name).Some? && Lookup(v, name).value.Object?
    ensures Optional(v, name, BoolType).Malformed? <==> !BoolIfAny(v, name)
    ensures Optional(v, name, TextType).Malformed? <==> !TextIfAny(v, name)
    ensures Optional(v, name, NumberType).Malformed? <==> !NumberIfAny(v, name)
    ensures Optional(v, name, ArrayType).Malformed? <==> !ListIfAny(v, name)
    ensures Optional(v, name, BoolType) == Set(Bool(true)) <==> True(v, name)
    ensures forall t :: Optional(v, name, t) == Unset <==> Missing(v, name)
    ensures forall t :: Optional(v, name, t).Set? ==> Lookup(v, name) == Some(Optional(v, name, t).value)
    ensures forall t :: Required(v, name, t).Some? ==> Lookup(v, name) == Required(v, name, t)
    ensures Elements(v, name) == Items(v, name)
  {
  }

  // ------------------------------------------------------------- users

  /** The user has the attribute, with this value. */
  ghost predicate Has(user: User, name: string, v: Json) {
    if name == "key" then v == Text(user.key)
    else if name == "secondary" then user.secondary.Some? && v == Text(user.secondary.value)
    else if name == "anonymous" then v == Bool(user.anonymous)
    else if name in {"ip", "email", "firstName", "lastName", "avatar", "country", "name"} then
      name in user.builtin && v == Text(user.builtin[name])
    else user.custom.Some? && Lookup(user.custom.value, name) == Some(v)
  }

  lemma AttributeIs(user: User, name: string, v: Json)
    ensures Attribute(user, name) == Some(v) <==> Has(user, name, v)
  {
    hide Lookup;
    assert |"key"| == 3 && |"secondary"| == 9 && |"anonymous"| == 9 && "secondary"[0] != "anonymous"[0];
    assert forall b :: b in BUILTIN ==> |b| != 9 || b[0] == 'f';
  }

  // ------------------------------------------------------------- buckets

  const DIGITS := "0123456789abcdef"

  /** The digits a lower-case numeral is made of. */
  ghost predicate Numeral(s: string, ds: seq<nat>) {
    |ds| == |s| && forall i :: 0 <= i < |s| ==> ds[i] < 16 && s[i] == DIGITS[ds[i]]
  }

  /** Their number, most significant digit first. */
  function Value(ds: seq<nat>): int {
    if ds == [] then 0 else ds[0] * Pow16(|ds| - 1) + Value(ds[1..])
  }

  lemma DigitIs(c: char, d: nat)
    ensures HexDigit(c) == Some(d) <==> d < 16 && c == DIGITS[d]
  {
  }

  lemma {:induction false} ValueOfLast(ds: seq<nat>)
    requires ds != []
    ensures Value(ds) == Value(ds[..|ds| - 1]) * 16 + ds[|ds| - 1]
    decreases |ds|
  {
    var n := |ds| - 1;
    if n > 0 {
      var rest := ds[1..];
      ValueOfLast(rest);
      assert rest[..n - 1] == ds[..n][1..] && rest[n - 1] == ds[n];
      assert Pow16(n) == 16 * Pow16(n - 1);
      Regroup(ds[0], Pow16(n - 1), Value(rest[..n - 1]), ds[n]);
    } else {
      assert ds[1..] == [] && ds[..0] == [];
    }
  }

  lemma Regroup(d: nat, p: int, v: int, last: nat)
    ensures d * (16 * p) + (v * 16 + last) == (d * p + v) * 16 + last
  {
  }

  lemma {:induction false} NumeralValue(s: string, ds: seq<nat>)
    requires Numeral(s, ds)
    ensures IsHex(s) && HexNumber(s) == Value(ds)
    decreases |s|
  {
    forall i | 0 <= i < |s|
      ensures HexDigit(s[i]) == Some(ds[i])
    {
      DigitIs(s[i], ds[i]);
    }
    if s != "" {
      var n := |s| - 1;
      NumeralValue(s[..n], ds[..n]);
      ValueOfLast(ds);
    }
  }

  lemma HexIsNumeral(s: string) returns (ds: seq<nat>)
    requires IsHex(s)
    ensures Numeral(s, ds)
  {
    ds := seq(|s|, i requires 0 <= i < |s| => DigitAt(s, i));
    forall i | 0 <= i < |s|
      ensures ds[i] < 16 && s[i] == DIGITS[ds[i]]
    {
      DigitIs(s[i], ds[i]);
    }
  }

  function DigitAt(s: string, i: nat): nat
    requires IsHex(s) && i < |s|
  {
    DigitIs(s[i], HexDigit(s[i]).value);
    HexDigit(s[i]).value
  }

  /** What is hashed for a user: the prefix and the attribute's text, then the secondary
      key, if all of it fits the buffer. */
  ghost predicate Hashed(lib: Library, user: User, attribute: string, prefix: string, raw: string) {
    exists v :: Has(user, attribute, v) && HashedFor(lib, user, v, prefix, raw)
  }

  predicate HashedFor(lib: Library, user: User, v: Json, prefix: string, raw: string) {
    && (v.Text? || v.Number?)
    && raw == prefix + "." + (if v.Text? then v.s else lib.fixed(v.n))
              + (if user.secondary.Some? then "." + user.secondary.value else "")
    && |raw| <= 255
  }

  /** The bucket of a user: fifteen hexadecimal digits of the hash, scaled to [0, 1]; zero
      where there is nothing to hash. */
  ghost predicate InBucket(lib: Library, user: User, attribute: string, prefix: string, b: real) {
    || (exists raw, ds :: Hashed(lib, user, attribute, prefix, raw) && Numeral(lib.digest(raw), ds)
                          && b == Value(ds) as real / 1152921504606846975.0)
    || (b == 0.0 && forall raw :: Hashed(lib, user, attribute, prefix, raw) ==>
                      forall ds :: !Numeral(lib.digest(raw), ds))
  }

  /** What the hash starts with: a rollout's seed, or the keys of flag or segment. */
  function Prefix(lib: Library, key: string, salt: string, seed: Option<int>): string {
    if seed.Some? then lib.decimal(seed.value) else key + "." + salt
  }

  lemma HashInputIs(
      lib: Library, user: User, key: string, attribute: string, salt: string, seed: Option<int>, raw: string)
    ensures HashInput(lib, user, key, attribute, salt, seed) == Some(raw)
       <==> Hashed(lib, user, attribute, Prefix(lib, key, salt, seed), raw)
  {
    hide Attribute, Has;
    var prefix := Prefix(lib, key, salt, seed);
    var found := Attribute(user, attribute);
    if found.Some? {
      AttributeIs(user, attribute, found.value);
      if found.value.Text? || found.value.Number? {
        JoinedIs(lib, user, key, salt, seed, found.value, raw);
      }
    }
    if v :| Has(user, attribute, v) && HashedFor(lib, user, v, prefix, raw) {
      AttributeIs(user, attribute, v);
    }
  }

  lemma JoinedIs(lib: Library, user: User, key: string, salt: string, seed: Option<int>, v: Json, raw: string)
    requires v.Text? || v.Number?
    ensures
      var text := if v.Text? then v.s else lib.fixed(v.n);
      HashedFor(lib, user, v, Prefix(lib, key, salt, seed), raw)
      <==> Rollout.Bounded(Joined(lib, user, key, text, salt, seed)) == Some(raw)
  {
  }

  lemma BucketIs(
      lib: Library, user: User, key: string, attribute: string, salt: string, seed: Option<int>, b: real)
    ensures Bucket(lib, user, key, attribute, salt, seed) == b
       <==> InBucket(lib, user, attribute, Prefix(lib, key, salt, seed), b)
  {
    hide HashInput, Hashed, Numeral, Value, IsHex, HexNumber;
    var prefix := Prefix(lib, key, salt, seed);
    forall raw
      ensures HashInput(lib, user, key, attribute, salt, seed) == Some(raw)
        <==> Hashed(lib, user, attribute, prefix, raw)
    {
      HashInputIs(lib, user, key, attribute, salt, seed, raw);
    }
    match HashInput(lib, user, key, attribute, salt, seed) {
      case None =>
      case Some(raw) =>
        var digest := lib.digest(raw);
        if IsHex(digest) {
          var ds := HexIsNumeral(digest);
        }
        forall ds | Numeral(digest, ds)
          ensures IsHex(digest) && HexNumber(digest) == Value(ds)
        {
          NumeralValue(digest, ds);
        }
    }
  }

  // ------------------------------------------------------------- rollouts

  /** The weights of the first entries added up. */
  function Total(entries: seq<Json>, n: nat): real
    requires n <= |entries|
  {
    if n == 0 then 0.0
    else
      var entry := entries[n - 1];
      Total(entries, n - 1) + (if HasNumber(entry, "weight") then Lookup(entry, "weight").value.n else 0.0)
  }

  /** The weights up to an entry exceed the bucket, in thousandths of a percent. */
  predicate Exceeds(entries: seq<Json>, b: real, i: nat)
    requires i < |entries|
  {
    100000.0 * b < Total(entries, i + 1)
  }

  /** A bucket falls to the first entry up to which the weights exceed it, or to the last. */
  ghost predicate Falls(entries: seq<Json>, b: real, p: nat) {
    && p < |entries|
    && (forall k :: 0 <= k < p ==> !Exceeds(entries, b, k))
    && (p == |entries| - 1 || Exceeds(entries, b, p))
  }

  lemma {:induction false} CumulativeIs(entries: seq<Json>, n: nat)
    requires n <= |entries|
    ensures 100000.0 * Cumulative(Weights(entries), n) == Total(entries, n)
  {
    if n > 0 {
      CumulativeIs(entries, n - 1);
    }
  }

  lemma {:induction false} PositionFalls(entries: seq<Json>, b: real, from: nat)
    requires from < |entries| && forall k :: 0 <= k < from ==> !Exceeds(entries, b, k)
    ensures Falls(entries, b, Position(Weights(entries), b, from))
    decreases |entries| - from
  {
    hide Total, Weights, Cumulative;
    CumulativeIs(entries, from + 1);
    if !(Reaches(Weights(entries), b, from) || from + 1 == |entries|) {
      PositionFalls(entries, b, from + 1);
    }
  }

  lemma FallsOnce(entries: seq<Json>, b: real, p: nat, q: nat)
    requires Falls(entries, b, p) && Falls(entries, b, q)
    ensures p == q
  {
    hide Total;
  }

  /** The attribute users are told apart by. */
  function By(v: Json): string {
    if HasText(v, "bucketBy") then Lookup(v, "bucketBy").value.s else "key"
  }

  /** A rollout's hash starts with its seed, without a fraction, or with the keys of its flag. */
  ghost predicate Starts(lib: Library, flag: Json, rollout: Json, prefix: string) {
    if HasNumber(rollout, "seed") then
      exists t :: Whole(Lookup(rollout, "seed").value.n, t) && prefix == lib.decimal(t)
    else
      && HasText(flag, "key") && HasText(flag, "salt")
      && prefix == Lookup(flag, "key").value.s + "." + Lookup(flag, "salt").value.s
  }

  /** The entry of a rollout that a user is served. */
  ghost predicate Rolls(lib: Library, flag: Json, rollout: Json, user: User, p: nat) {
    exists prefix, b ::
      && Starts(lib, flag, rollout, prefix) && InBucket(lib, user, By(rollout), prefix, b)
      && Falls(Items(rollout, "variations"), b, p)
  }

  /** What a rule or the fallthrough serves: its variation if it has one, else that of the
      entry its rollout gives the user; in an experiment unless that entry is untracked. */
  ghost predicate Gives(lib: Library, flag: Json, from: Json, user: User, index: Json, inExperiment: bool) {
    if !Missing(from, "variation") then Lookup(from, "variation") == Some(index) && !inExperiment
    else
      && Lookup(from, "rollout").Some?
      && var rollout := Lookup(from, "rollout").value;
      exists p: nat ::
        && Rolls(lib, flag, rollout, user, p) && p < |Items(rollout, "variations")|
        && var entry := Items(rollout, "variations")[p];
        && Lookup(entry, "variation") == Some(index)
        && (inExperiment <==> Lookup(rollout, "kind") == Some(Text("experiment")) && !True(entry, "untracked"))
  }

  predicate EntryReads(entry: Json) {
    HasNumber(entry, "weight") && HasNumber(entry, "variation") && BoolIfAny(entry, "untracked")
  }

  /** All that is looked at to serve a rule or the fallthrough has its type. */
  ghost predicate GiveReads(lib: Library, flag: Json, from: Option<Json>, user: User) {
    && HasText(flag, "key") && HasText(flag, "salt") && from.Some?
    && NumberIfAny(from.value, "variation")
    && (Missing(from.value, "variation") ==>
          && Lookup(from.value, "rollout").Some? && Lookup(from.value, "rollout").value.Object?
          && var rollout := Lookup(from.value, "rollout").value;
          && RolloutTyped(rollout)
          && forall p: nat :: Rolls(lib, flag, rollout, user, p) ==> EntriesRead(Items(rollout, "variations"), p))
  }

  /** Every entry up to the one served. */
  predicate EntriesRead(entries: seq<Json>, p: nat) {
    forall i :: 0 <= i <= p && i < |entries| ==> EntryReads(entries[i])
  }

  lemma RollsAt(lib: Library, flag: Json, rollout: Json, user: User, p: nat)
    requires HasText(flag, "key") && HasText(flag, "salt") && Items(rollout, "variations") != []
    requires !Optional(rollout, "seed", NumberType).Malformed? && BucketAttribute(rollout).Some?
    ensures
      var seed := Optional(rollout, "seed", NumberType);
      var seedValue := if seed.Set? then Some(Truncate(seed.value.n)) else None;
      var key, salt := Lookup(flag, "key").value.s, Lookup(flag, "salt").value.s;
      var entries := Items(rollout, "variations");
      Rolls(lib, flag, rollout, user, p)
      <==> p == Position(Weights(entries), Bucket(lib, user, key, BucketAttribute(rollout).value, salt, seedValue), 0)
  {
    hide Bucket, InBucket, Falls, Whole, Weights, Items, Truncate;
    FieldsRead(rollout, "seed");
    FieldsRead(rollout, "bucketBy");
    var seed := Optional(rollout, "seed", NumberType);
    var seedValue := if seed.Set? then Some(Truncate(seed.value.n)) else None;
    var key, salt := Lookup(flag, "key").value.s, Lookup(flag, "salt").value.s;
    var entries := Items(rollout, "variations");
    var b := Bucket(lib, user, key, By(rollout), salt, seedValue);
    var prefix := Prefix(lib, key, salt, seedValue);
    BucketIs(lib, user, key, By(rollout), salt, seedValue, b);
    PositionFalls(entries, b, 0);
    if seed.Set? {
      TruncateIs(seed.value.n, Truncate(seed.value.n));
    }
    assert Starts(lib, flag, rollout, prefix);
    forall other, c | Starts(lib, flag, rollout, other) && InBucket(lib, user, By(rollout), other, c)
      ensures other == prefix && c == b
    {
      if seed.Set? {
        forall t | Whole(seed.value.n, t)
          ensures t == Truncate(seed.value.n)
        {
          TruncateIs(seed.value.n, t);
        }
      }
      BucketIs(lib, user, key, By(rollout), salt, seedValue, c);
    }
    if Rolls(lib, flag, rollout, user, p) {
      FallsOnce(entries, b, p, Position(Weights(entries), b, 0));
    }
  }

  lemma EntryIs(entry: Json)
    ensures EntryOk(entry) <==> EntryReads(entry)
    ensures EntryOk(entry) ==>
      HasNumber(entry, "variation")
      && PickAt(entry) == Pick(Lookup(entry, "variation").value, True(entry, "untracked"))
  {
    hide Lookup;
    FieldsRead(entry, "weight");
    FieldsRead(entry, "variation");
    FieldsRead(entry, "untracked");
  }

  /** A rollout that reads serves as said, and one that does not serves nothing. */
  lemma RolloutIs(lib: Library, flag: Json, from: Json, user: User, index: Json, inExperiment: bool)
    requires HasText(flag, "key") && HasText(flag, "salt") && Missing(from, "variation")
    requires Lookup(from, "rollout").Some? && Lookup(from, "rollout").value.Object?
    ensures
      var key, salt := Lookup(flag, "key").value.s, Lookup(flag, "salt").value.s;
      FromRollout(lib, Lookup(from, "rollout").value, user, key, salt) == Choice(index, inExperiment)
      <==> GiveReads(lib, flag, Some(from), user) && Gives(lib, flag, from, user, index, inExperiment)
    ensures
      var key, salt := Lookup(flag, "key").value.s, Lookup(flag, "salt").value.s;
      FromRollout(lib, Lookup(from, "rollout").value, user, key, salt) == NoChoice
      <==> !GiveReads(lib, flag, Some(from), user)
  {
    hide Lookup, Rolls, EntriesRead, FromRollout, RolledTo, RolloutTyped, Gives, GiveReads;
    var rollout := Lookup(from, "rollout").value;
    RolloutServes(lib, flag, rollout, user);
    if RolloutTyped(rollout) {
      var q := RolledTo(lib, flag, rollout, user);
      ReadsVariation(Items(rollout, "variations"), q);
      GiveReadsAt(lib, flag, from, user);
      GivesAt(lib, flag, from, user, index, inExperiment);
    } else {
      Untyped(lib, flag, from, user);
    }
  }

  lemma Untyped(lib: Library, flag: Json, from: Json, user: User)
    requires Missing(from, "variation") && Lookup(from, "rollout").Some?
    requires !RolloutTyped(Lookup(from, "rollout").value)
    ensures !GiveReads(lib, flag, Some(from), user)
  {
    hide Lookup, Rolls, RolloutTyped;
  }

  /** The rollout reads exactly when the entries up to the one come to do. */
  lemma GiveReadsAt(lib: Library, flag: Json, from: Json, user: User)
    requires HasText(flag, "key") && HasText(flag, "salt") && Missing(from, "variation")
    requires Lookup(from, "rollout").Some? && Lookup(from, "rollout").value.Object?
    requires RolloutTyped(Lookup(from, "rollout").value)
    ensures
      var rollout := Lookup(from, "rollout").value;
      GiveReads(lib, flag, Some(from), user)
      <==> EntriesRead(Items(rollout, "variations"), RolledTo(lib, flag, rollout, user))
  {
    hide Lookup, Rolls, EntriesRead, RolledTo, RolloutTyped;
    var rollout := Lookup(from, "rollout").value;
    var q := RolledTo(lib, flag, rollout, user);
    RolledIs(lib, flag, rollout, user, q);
    forall p: nat | Rolls(lib, flag, rollout, user, p)
      ensures p == q
    {
      RolledIs(lib, flag, rollout, user, p);
    }
  }

  /** What it gives is that entry's. */
  lemma GivesAt(lib: Library, flag: Json, from: Json, user: User, index: Json, inExperiment: bool)
    requires HasText(flag, "key") && HasText(flag, "salt") && Missing(from, "variation")
    requires Lookup(from, "rollout").Some? && RolloutTyped(Lookup(from, "rollout").value)
    ensures
      var rollout := Lookup(from, "rollout").value;
      var entry := Items(rollout, "variations")[RolledTo(lib, flag, rollout, user)];
      Gives(lib, flag, from, user, index, inExperiment)
      <==> Lookup(entry, "variation") == Some(index)
           && inExperiment == (Lookup(rollout, "kind") == Some(Text("experiment")) && !True(entry, "untracked"))
  {
    hide Lookup, Rolls, RolledTo, RolloutTyped;
    var rollout := Lookup(from, "rollout").value;
    var q := RolledTo(lib, flag, rollout, user);
    RolledIs(lib, flag, rollout, user, q);
    forall p: nat | Rolls(lib, flag, rollout, user, p)
      ensures p == q
    {
      RolledIs(lib, flag, rollout, user, p);
    }
  }

  lemma ReadsVariation(entries: seq<Json>, p: nat)
    requires p < |entries|
    ensures EntriesRead(entries, p) ==> HasNumber(entries[p], "variation")
  {
  }

  /** Apart from its entries, a rollout has the types it needs. */
  predicate RolloutTyped(rollout: Json) {
    && TextIfAny(rollout, "kind") && NumberIfAny(rollout, "seed") && TextIfAny(rollout, "bucketBy")
    && HasList(rollout, "variations") && Items(rollout, "variations") != []
  }

  lemma RolledIs(lib: Library, flag: Json, rollout: Json, user: User, p: nat)
    requires HasText(flag, "key") && HasText(flag, "salt") && RolloutTyped(rollout)
    ensures Rolls(lib, flag, rollout, user, p) <==> p == RolledTo(lib, flag, rollout, user)
  {
    hide Lookup, Rolls, Bucket, Weights, Truncate;
    FieldsRead(rollout, "bucketBy");
    FieldsRead(rollout, "seed");
    RollsAt(lib, flag, rollout, user, p);
  }

  lemma RolloutServes(lib: Library, flag: Json, rollout: Json, user: User)
    requires HasText(flag, "key") && HasText(flag, "salt") && rollout.Object?
    ensures
      var key, salt := Lookup(flag, "key").value.s, Lookup(flag, "salt").value.s;
      var entries := Items(rollout, "variations");
      FromRollout(lib, rollout, user, key, salt)
      == if RolloutTyped(rollout) && EntriesRead(entries, RolledTo(lib, flag, rollout, user)) then
           var entry := entries[RolledTo(lib, flag, rollout, user)];
           ReadsVariation(entries, RolledTo(lib, flag, rollout, user));
           Choice(Lookup(entry, "variation").value,
                  Lookup(rollout, "kind") == Some(Text("experiment")) && !True(entry, "untracked"))
         else NoChoice
  {
    hide Lookup, Bucket, Weights, EntryOk, PickAt, EntryReads, Truncate, Position;
    FieldsRead(rollout, "kind");
    FieldsRead(rollout, "variations");
    FieldsRead(rollout, "bucketBy");
    FieldsRead(rollout, "seed");
    var entries := Items(rollout, "variations");
    forall i | 0 <= i < |entries|
      ensures EntryOk(entries[i]) <==> EntryReads(entries[i])
      ensures EntryOk(entries[i]) ==>
        HasNumber(entries[i], "variation")
        && PickAt(entries[i]) == Pick(Lookup(entries[i], "variation").value, True(entries[i], "untracked"))
    {
      EntryIs(entries[i]);
    }
  }

  /** The entry the evaluator comes to. */
  function RolledTo(lib: Library, flag: Json, rollout: Json, user: User): (p: nat)
    requires HasText(flag, "key") && HasText(flag, "salt") && RolloutTyped(rollout)
    ensures p < |Items(rollout, "variations")|
  {
    FieldsRead(rollout, "bucketBy");
    var seed := Optional(rollout, "seed", NumberType);
    var seedValue := if seed.Set? then Some(Truncate(seed.value.n)) else None;
    var key, salt := Lookup(flag, "key").value.s, Lookup(flag, "salt").value.s;
    Position(Weights(Items(rollout, "variations")),
             Bucket(lib, user, key, BucketAttribute(rollout).value, salt, seedValue), 0)
  }

  /** What a rule or the fallthrough serves, and when it serves nothing. */
  lemma ChooseIs(lib: Library, flag: Json, from: Option<Json>, user: User, index: Json, inExperiment: bool)
    ensures Choose(lib, flag, from, user) == Choice(index, inExperiment)
       <==> GiveReads(lib, flag, from, user) && Gives(lib, flag, from.value, user, index, inExperiment)
    ensures Choose(lib, flag, from, user) == NoChoice <==> !GiveReads(lib, flag, from, user)
  {
    hide Lookup, Rolls, FromRollout;
    FieldsRead(flag, "key");
    FieldsRead(flag, "salt");
    if from.Some? {
      FieldsRead(from.value, "variation");
      FieldsRead(from.value, "rollout");
      if HasText(flag, "key") && HasText(flag, "salt") && Missing(from.value, "variation")
         && Lookup(from.value, "rollout").Some? && Lookup(from.value, "rollout").value.Object? {
        RolloutIs(lib, flag, from.value, user, index, inExperiment);
      }
    }
  }

  // ------------------------------------------------------------- clauses

  ghost predicate Meets(f: Operator, x: Json, values: seq<Json>) {
    exists i :: 0 <= i < |values| && f(x, values[i])
  }

  predicate Nests(x: Json) { x.Array? || x.Object? }

  /** Some element meets a value, and no nested one comes before it. */
  ghost predicate Hits(f: Operator, v: Json, values: seq<Json>) {
    if v.Array? then
      exists n :: 0 <= n < |v.items| && Meets(f, v.items[n], values) && forall k :: 0 <= k <= n ==> !Nests(v.items[k])
    else Meets(f, v, values)
  }

  /** Nothing meets a value, and nothing is nested. */
  ghost predicate Misses(f: Operator, v: Json, values: seq<Json>) {
    if v.Array? then forall k :: 0 <= k < |v.items| ==> !Nests(v.items[k]) && !Meets(f, v.items[k], values)
    else !Meets(f, v, values)
  }

  lemma {:induction false} ElementsAre(f: Operator, elements: seq<Json>, values: seq<Json>)
    ensures MatchElements(f, elements, values) == Hit <==> Hits(f, Array(elements), values)
    ensures MatchElements(f, elements, values) == NoHit <==> Misses(f, Array(elements), values)
    decreases |elements|
  {
    if elements != [] {
      var rest := elements[1..];
      ElementsAre(f, rest, values);
      assert MatchAny(f, elements[0], values) <==> Meets(f, elements[0], values);
      assert forall k :: 1 <= k < |elements| ==> elements[k] == rest[k - 1];
      if Hits(f, Array(rest), values) && !Nests(elements[0]) {
        var n :| 0 <= n < |rest| && Meets(f, rest[n], values) && forall k :: 0 <= k <= n ==> !Nests(rest[k]);
        assert Meets(f, elements[n + 1], values);
      }
      if Hits(f, Array(elements), values) && !Meets(f, elements[0], values) {
        var n :| 0 <= n < |elements| && Meets(f, elements[n], values)
                 && forall k :: 0 <= k <= n ==> !Nests(elements[k]);
        assert Meets(f, rest[n - 1], values) && forall k :: 0 <= k <= n - 1 ==> rest[k] == elements[k + 1];
      }
    }
  }

  /** An attribute of the user decides the clause: it is there and not null, and what
      follows is not cut short by a nested value. */
  ghost predicate Decides(lib: Library, clause: Json, user: User, v: Json) {
    && HasText(clause, "op") && Lookup(clause, "op").value.s in lib.operators && HasText(clause, "attribute")
    && Has(user, Lookup(clause, "attribute").value.s, v) && v != Null
    && var f := lib.operators[Lookup(clause, "op").value.s];
    Hits(f, v, Items(clause, "values")) || Misses(f, v, Items(clause, "values"))
  }

  /** A clause holds when its attribute meets one of its values, or none if negated. An
      unknown operator and an attribute that decides nothing hold neither way. */
  ghost predicate ClauseHolds(lib: Library, clause: Json, user: User) {
    exists v ::
      && Decides(lib, clause, user, v)
      && (Hits(lib.operators[Lookup(clause, "op").value.s], v, Items(clause, "values")) != True(clause, "negate"))
  }

  /** What is looked at in a clause has its type. */
  ghost predicate ClauseReads(lib: Library, clause: Json, user: User) {
    && HasText(clause, "op")
    && (Lookup(clause, "op").value.s in lib.operators ==>
          && HasText(clause, "attribute") && ListIfAny(clause, "values")
          && ((exists v :: Decides(lib, clause, user, v)) ==> BoolIfAny(clause, "negate")))
  }

  lemma NegateIs(clause: Json, s: Status)
    requires s == Match || s == Miss
    ensures IsError(MaybeNegate(clause, s)) <==> !BoolIfAny(clause, "negate")
    ensures BoolIfAny(clause, "negate") ==>
      (MaybeNegate(clause, s) == Match <==> ((s == Match) != True(clause, "negate")))
    ensures MaybeNegate(clause, s) != Memory && MaybeNegate(clause, s) != StoreFailure
  {
    hide Lookup;
    FieldsRead(clause, "negate");
  }

  /** The answer for the value found. */
  lemma ValueIs(lib: Library, clause: Json, user: User, op: string, name: string, v: Json)
    requires Lookup(clause, "op") == Some(Text(op)) && op in lib.operators
      && Lookup(clause, "attribute") == Some(Text(name))
    requires ListIfAny(clause, "values") && Attribute(user, name) == Some(v)
    ensures
      var s := ClauseNoSegments(lib, clause, user);
      if Decides(lib, clause, user, v)
      then (IsError(s) <==> !BoolIfAny(clause, "negate"))
           && (!IsError(s) ==>
                 (s == Match <==> Hits(lib.operators[op], v, Items(clause, "values")) != True(clause, "negate")))
      else s == Miss
  {
    hide Lookup, Has, MatchElements, Hits, Misses, MaybeNegate;
    FieldsRead(clause, "op");
    FieldsRead(clause, "attribute");
    FieldsRead(clause, "values");
    AttributeIs(user, name, v);
    NegateIs(clause, Match);
    NegateIs(clause, Miss);
    var f, values := lib.operators[op], Items(clause, "values");
    if v.Array? {
      ElementsAre(f, v.items, values);
    } else {
      PlainIs(f, v, values);
    }
  }

  lemma PlainIs(f: Operator, v: Json, values: seq<Json>)
    requires !v.Array?
    ensures Hits(f, v, values) <==> MatchAny(f, v, values)
    ensures Misses(f, v, values) <==> !MatchAny(f, v, values)
  {
  }

  /** A clause without segments matches exactly when it holds, and errs exactly when
      something it looks at has not its type. */
  lemma ClauseIs(lib: Library, clause: Json, user: User)
    ensures IsError(ClauseNoSegments(lib, clause, user)) <==> !ClauseReads(lib, clause, user)
    ensures ClauseReads(lib, clause, user) ==>
      (ClauseNoSegments(lib, clause, user) == Match <==> ClauseHolds(lib, clause, user))
  {
    hide Lookup, Has, Hits, Misses, Attribute, MatchElements, MatchAny, MaybeNegate;
    FieldsRead(clause, "op");
    FieldsRead(clause, "attribute");
    FieldsRead(clause, "values");
    if HasText(clause, "op") && Lookup(clause, "op").value.s in lib.operators && HasText(clause, "attribute") {
      var op, name := Lookup(clause, "op").value.s, Lookup(clause, "attribute").value.s;
      var found := Attribute(user, name);
      forall v | Has(user, name, v)
        ensures found == Some(v)
      {
        AttributeIs(user, name, v);
      }
      if found.Some? && ListIfAny(clause, "values") {
        ValueIs(lib, clause, user, op, name, found.value);
      }
    }
  }

  // ------------------------------------------------------------- segments

  /** A segment's own rule: all its clauses, and the user within its share. */
  ghost predicate SegmentRuleHolds(lib: Library, rule: Json, key: string, salt: string, user: User) {
    && (forall i :: 0 <= i < |Items(rule, "clauses")| ==> ClauseHolds(lib, Items(rule, "clauses")[i], user))
    && (Missing(rule, "weight") || (HasNumber(rule, "weight") && WithinShare(lib, rule, key, salt, user)))
  }

  ghost predicate WithinShare(lib: Library, rule: Json, key: string, salt: string, user: User)
    requires HasNumber(rule, "weight")
  {
    exists b ::
      && InBucket(lib, user, By(rule), key + "." + salt, b)
      && 100000.0 * b < Lookup(rule, "weight").value.n
  }

  /** A user is in a segment that includes it, or that does not exclude it and has a rule
      that holds. */
  ghost predicate SegmentHolds(lib: Library, segment: Json, user: User) {
    || Text(user.key) in Items(segment, "included")
    || (Text(user.key) !in Items(segment, "excluded")
        && HasText(segment, "key") && HasText(segment, "salt")
        && AnyRuleHolds(lib, Items(segment, "rules"), Lookup(segment, "key").value.s, Lookup(segment, "salt").value.s,
          user))
  }

  ghost predicate AnyRuleHolds(lib: Library, rules: seq<Json>, key: string, salt: string, user: User) {
    exists i :: 0 <= i < |rules| && SegmentRuleHolds(lib, rules[i], key, salt, user)
  }

  ghost predicate SegmentRuleReads(lib: Library, rule: Json, key: string, salt: string, user: User)
    decreases 0, 5
  {
    && rule.Object? && ListIfAny(rule, "clauses") && AllRead(lib, None, Items(rule, "clauses"), user)
    && (AllHold(lib, None, Items(rule, "clauses"), user) ==>
          NumberIfAny(rule, "weight") && (HasNumber(rule, "weight") ==> TextIfAny(rule, "bucketBy")))
  }

  /** Every rule looked at reads: the first, and each behind rules that do not hold. */
  ghost predicate RulesRead(lib: Library, rules: seq<Json>, key: string, salt: string, user: User)
    decreases 0, 6
  {
    forall i :: 0 <= i < |rules| && !AnyRuleHolds(lib, rules[..i], key, salt, user) ==>
      SegmentRuleReads(lib, rules[i], key, salt, user)
  }

  ghost predicate SegmentReads(lib: Library, segment: Json, user: User)
    decreases 0, 7
  {
    && ListIfAny(segment, "included")
    && (Text(user.key) !in Items(segment, "included") ==>
          && ListIfAny(segment, "excluded")
          && (Text(user.key) !in Items(segment, "excluded") ==>
                && ListIfAny(segment, "rules")
                && (HasList(segment, "rules") ==>
                      && HasText(segment, "key") && HasText(segment, "salt")
                      && RulesRead(lib, Items(segment, "rules"), Lookup(segment, "key").value.s,
                                   Lookup(segment, "salt").value.s, user))))
  }

  // ------------------------------------------------------------- clauses of a rule

  /** A stored segment of this name holds the user. */
  ghost predicate IsIn(lib: Library, store: Store, key: Json, user: User) {
    key.Text? && key.s in store.segments && SegmentHolds(lib, store.segments[key.s], user)
  }

  ghost predicate Within(lib: Library, store: Store, keys: seq<Json>, user: User) {
    exists i :: 0 <= i < |keys| && IsIn(lib, store, keys[i], user)
  }

  ghost predicate KeyReads(lib: Library, store: Store, key: Json, user: User)
    decreases 0, 8
  {
    key.Text? ==>
      && (Segment, key.s) !in store.failing
      && (key.s in store.segments ==> SegmentReads(lib, store.segments[key.s], user))
  }

  ghost predicate KeysRead(lib: Library, store: Store, keys: seq<Json>, user: User)
    decreases 0, 9
  {
    forall i :: 0 <= i < |keys| && !Within(lib, store, keys[..i], user) ==> KeyReads(lib, store, keys[i], user)
  }

  /** A clause of a flag's rule, which may ask for segments, or of a segment's. */
  ghost predicate Holds(lib: Library, store: Option<Store>, clause: Json, user: User) {
    if store.Some? && Lookup(clause, "op") == Some(Text("segmentMatch")) then
      Within(lib, store.value, Items(clause, "values"), user) != True(clause, "negate")
    else ClauseHolds(lib, clause, user)
  }

  ghost predicate Reads(lib: Library, store: Option<Store>, clause: Json, user: User)
    decreases if store.Some? then 1 else 0, 2
  {
    if store.None? then ClauseReads(lib, clause, user)
    else if clause.Object? && Lookup(clause, "op") == Some(Text("segmentMatch")) then
      && ListIfAny(clause, "values") && BoolIfAny(clause, "negate")
      && KeysRead(lib, store.value, Items(clause, "values"), user)
    else clause.Object? && ClauseReads(lib, clause, user)
  }

  ghost predicate AllHold(lib: Library, store: Option<Store>, clauses: seq<Json>, user: User) {
    forall i :: 0 <= i < |clauses| ==> Holds(lib, store, clauses[i], user)
  }

  /** Every clause looked at reads: the first, and each behind clauses that hold. */
  ghost predicate AllRead(lib: Library, store: Option<Store>, clauses: seq<Json>, user: User)
    decreases if store.Some? then 1 else 0, 3
  {
    forall i :: 0 <= i < |clauses| && AllHold(lib, store, clauses[..i], user) ==> Reads(lib, store, clauses[i], user)
  }

  /** A rule holds when all its clauses do. */
  ghost predicate RuleHolds(lib: Library, store: Store, rule: Json, user: User) {
    AllHold(lib, Some(store), Items(rule, "clauses"), user)
  }

  ghost predicate RuleReads(lib: Library, store: Store, rule: Json, user: User) {
    ListIfAny(rule, "clauses") && AllRead(lib, Some(store), Items(rule, "clauses"), user)
  }

  // ------------------------------------------------------------- the evaluator reads them so

  /** What a list of clauses decides, from its first. */
  lemma ClausesStep(lib: Library, store: Option<Store>, clauses: seq<Json>, user: User)
    requires clauses != []
    ensures AllHold(lib, store, clauses, user)
       <==> Holds(lib, store, clauses[0], user) && AllHold(lib, store, clauses[1..], user)
    ensures AllRead(lib, store, clauses, user)
       <==> Reads(lib, store, clauses[0], user)
            && (Holds(lib, store, clauses[0], user) ==> AllRead(lib, store, clauses[1..], user))
  {
    hide Holds, Reads;
    var first, rest := clauses[0], clauses[1..];
    assert forall i :: 1 <= i < |clauses| ==> clauses[i] == rest[i - 1];
    assert forall i :: 0 <= i < |rest| ==> rest[i] == clauses[i + 1];
    forall i | 1 <= i <= |clauses|
      ensures AllHold(lib, store, clauses[..i], user)
         <==> Holds(lib, store, first, user) && AllHold(lib, store, rest[..i - 1], user)
    {
      assert forall k :: 1 <= k < i ==> clauses[..i][k] == rest[..i - 1][k - 1];
      assert clauses[..i][0] == first;
    }
    assert AllHold(lib, store, clauses[..0], user);
    assert clauses[..|clauses|] == clauses && rest[..|rest|] == rest;
    if AllRead(lib, store, clauses, user) && Holds(lib, store, first, user) {
      forall i | 0 <= i < |rest| && AllHold(lib, store, rest[..i], user)
        ensures Reads(lib, store, rest[i], user)
      {
        assert AllHold(lib, store, clauses[..i + 1], user);
        assert Reads(lib, store, clauses[i + 1], user);
      }
    }
  }

  lemma {:induction false} ClausesAre(lib: Library, store: Option<Store>, clauses: seq<Json>, user: User)
    ensures IsError(AllClauses(lib, store, clauses, user)) <==> !AllRead(lib, store, clauses, user)
    ensures AllRead(lib, store, clauses, user) ==>
      (AllClauses(lib, store, clauses, user) == Match <==> AllHold(lib, store, clauses, user))
    decreases if store.Some? then 1 else 0, 5, |clauses|
  {
    hide Holds, Reads, ClauseStatus;
    if clauses != [] {
      ClauseStatusIs(lib, store, clauses[0], user);
      ClausesAre(lib, store, clauses[1..], user);
      ClausesStep(lib, store, clauses, user);
    }
  }

  lemma {:induction false} ClauseStatusIs(lib: Library, store: Option<Store>, clause: Json, user: User)
    ensures IsError(ClauseStatus(lib, store, clause, user)) <==> !Reads(lib, store, clause, user)
    ensures Reads(lib, store, clause, user) ==>
      (ClauseStatus(lib, store, clause, user) == Match <==> Holds(lib, store, clause, user))
    decreases if store.Some? then 1 else 0, 4, 0
  {
    hide Lookup, ClauseHolds, ClauseReads, Within, KeysRead, ClauseNoSegments, AnySegment, MaybeNegate;
    ClauseIs(lib, clause, user);
    FieldsRead(clause, "op");
    FieldsRead(clause, "values");
    if store.Some? {
      SegmentKeysAre(lib, store.value, Items(clause, "values"), user);
      NegateIs(clause, Match);
      NegateIs(clause, Miss);
      ErrorStays(clause, AnySegment(lib, store.value, Items(clause, "values"), user));
      NoKeys(lib, store.value, user);
      OpNeeded(lib, clause, user);
    }
  }

  lemma ErrorStays(clause: Json, s: Status)
    ensures IsError(s) ==> MaybeNegate(clause, s) == s
  {
  }

  lemma OpNeeded(lib: Library, clause: Json, user: User)
    ensures ClauseReads(lib, clause, user) ==> HasText(clause, "op")
  {
  }

  lemma NoKeys(lib: Library, store: Store, user: User)
    ensures !Within(lib, store, [], user) && KeysRead(lib, store, [], user)
  {
  }

  lemma KeysStep(lib: Library, store: Store, keys: seq<Json>, user: User)
    requires keys != []
    ensures Within(lib, store, keys, user)
       <==> IsIn(lib, store, keys[0], user) || Within(lib, store, keys[1..], user)
    ensures KeysRead(lib, store, keys, user)
       <==> KeyReads(lib, store, keys[0], user)
            && (!IsIn(lib, store, keys[0], user) ==> KeysRead(lib, store, keys[1..], user))
  {
    hide IsIn, KeyReads;
    var first, rest := keys[0], keys[1..];
    forall i | 1 <= i <= |keys|
      ensures Within(lib, store, keys[..i], user)
         <==> IsIn(lib, store, first, user) || Within(lib, store, rest[..i - 1], user)
    {
      assert forall k :: 1 <= k < i ==> keys[..i][k] == rest[..i - 1][k - 1];
      assert keys[..i] == [first] + rest[..i - 1];
      assert keys[..i][0] == first;
    }
    assert !Within(lib, store, keys[..0], user);
    assert keys[..|keys|] == keys && rest[..|rest|] == rest;
    if KeysRead(lib, store, keys, user) && !IsIn(lib, store, first, user) {
      forall i | 0 <= i < |rest| && !Within(lib, store, rest[..i], user)
        ensures KeyReads(lib, store, rest[i], user)
      {
        assert !Within(lib, store, keys[..i + 1], user);
        assert KeyReads(lib, store, keys[i + 1], user);
      }
    }
    if KeysRead(lib, store, rest, user) {
      forall i | 1 <= i < |keys| && !Within(lib, store, keys[..i], user)
        ensures KeyReads(lib, store, keys[i], user)
      {
        assert KeyReads(lib, store, rest[i - 1], user);
      }
    }
  }

  lemma {:induction false} SegmentKeysAre(lib: Library, store: Store, keys: seq<Json>, user: User)
    ensures IsError(AnySegment(lib, store, keys, user)) <==> !KeysRead(lib, store, keys, user)
    ensures KeysRead(lib, store, keys, user) ==>
      (AnySegment(lib, store, keys, user) == Match <==> Within(lib, store, keys, user))
    decreases 0, 9, |keys|
  {
    hide Within, KeysRead, SegmentHolds, SegmentReads, SegmentMatches;
    if keys == [] {
      NoKeys(lib, store, user);
    } else {
      KeysStep(lib, store, keys, user);
      SegmentKeysAre(lib, store, keys[1..], user);
      if keys[0].Text? && keys[0].s in store.segments {
        SegmentIs(lib, store.segments[keys[0].s], user);
      }
    }
  }

  /** A segment the store fails on, once it is looked at, makes the whole a store failure. */
  lemma {:induction false} SegmentKeyFails(lib: Library, store: Store, keys: seq<Json>, user: User, i: nat)
    requires i < |keys| && keys[i].Text? && (Segment, keys[i].s) in store.failing
    requires forall k :: 0 <= k < i ==> KeyReads(lib, store, keys[k], user) && !IsIn(lib, store, keys[k], user)
    ensures AnySegment(lib, store, keys, user) == StoreFailure
    decreases |keys|
  {
    hide SegmentHolds, SegmentReads, SegmentMatches;
    if i > 0 {
      if keys[0].Text? && keys[0].s in store.segments {
        SegmentIs(lib, store.segments[keys[0].s], user);
      }
      assert forall k :: 1 <= k < |keys| ==> keys[k] == keys[1..][k - 1];
      SegmentKeyFails(lib, store, keys[1..], user, i - 1);
    }
  }

  /** A segment holds exactly the users it should, and errs exactly when something looked
      at has not its type. */
  lemma {:induction false} SegmentIs(lib: Library, segment: Json, user: User)
    ensures IsError(SegmentMatches(lib, segment, user)) <==> !SegmentReads(lib, segment, user)
    ensures SegmentReads(lib, segment, user) ==>
      (SegmentMatches(lib, segment, user) == Match <==> SegmentHolds(lib, segment, user))
    decreases 0, 8, 0
  {
    hide Lookup, AnyRuleHolds, RulesRead, AnySegmentRule;
    FieldsRead(segment, "included");
    FieldsRead(segment, "excluded");
    FieldsRead(segment, "rules");
    FieldsRead(segment, "key");
    FieldsRead(segment, "salt");
    if HasText(segment, "key") && HasText(segment, "salt") {
      var key, salt := Lookup(segment, "key").value.s, Lookup(segment, "salt").value.s;
      SegmentRulesAre(lib, Items(segment, "rules"), key, salt, user);
      NoRules(lib, key, salt, user);
    }
  }

  lemma NoRules(lib: Library, key: string, salt: string, user: User)
    ensures !AnyRuleHolds(lib, [], key, salt, user) && RulesRead(lib, [], key, salt, user)
  {
  }

  lemma RulesStep(lib: Library, rules: seq<Json>, key: string, salt: string, user: User)
    requires rules != []
    ensures AnyRuleHolds(lib, rules, key, salt, user)
       <==> SegmentRuleHolds(lib, rules[0], key, salt, user) || AnyRuleHolds(lib, rules[1..], key, salt, user)
    ensures RulesRead(lib, rules, key, salt, user)
       <==> SegmentRuleReads(lib, rules[0], key, salt, user)
            && (!SegmentRuleHolds(lib, rules[0], key, salt, user) ==> RulesRead(lib, rules[1..], key, salt, user))
  {
    hide SegmentRuleHolds, SegmentRuleReads;
    var first, rest := rules[0], rules[1..];
    forall i | 1 <= i <= |rules|
      ensures AnyRuleHolds(lib, rules[..i], key, salt, user)
         <==> SegmentRuleHolds(lib, first, key, salt, user) || AnyRuleHolds(lib, rest[..i - 1], key, salt, user)
    {
      assert forall k :: 1 <= k < i ==> rules[..i][k] == rest[..i - 1][k - 1];
      assert rules[..i] == [first] + rest[..i - 1];
      assert rules[..i][0] == first;
    }
    assert !AnyRuleHolds(lib, rules[..0], key, salt, user);
    assert rules[..|rules|] == rules && rest[..|rest|] == rest;
    if RulesRead(lib, rules, key, salt, user) && !SegmentRuleHolds(lib, first, key, salt, user) {
      forall i | 0 <= i < |rest| && !AnyRuleHolds(lib, rest[..i], key, salt, user)
        ensures SegmentRuleReads(lib, rest[i], key, salt, user)
      {
        assert !AnyRuleHolds(lib, rules[..i + 1], key, salt, user);
        assert SegmentRuleReads(lib, rules[i + 1], key, salt, user);
      }
    }
    if RulesRead(lib, rest, key, salt, user) {
      forall i | 1 <= i < |rules| && !AnyRuleHolds(lib, rules[..i], key, salt, user)
        ensures SegmentRuleReads(lib, rules[i], key, salt, user)
      {
        assert SegmentRuleReads(lib, rest[i - 1], key, salt, user);
      }
    }
  }

  lemma {:induction false} SegmentRulesAre(lib: Library, rules: seq<Json>, key: string, salt: string, user: User)
    ensures IsError(AnySegmentRule(lib, rules, key, salt, user)) <==> !RulesRead(lib, rules, key, salt, user)
    ensures RulesRead(lib, rules, key, salt, user) ==>
      (AnySegmentRule(lib, rules, key, salt, user) == Match <==> AnyRuleHolds(lib, rules, key, salt, user))
    decreases 0, 7, |rules|
  {
    hide AnyRuleHolds, RulesRead, SegmentRuleHolds, SegmentRuleMatches;
    if rules == [] {
      NoRules(lib, key, salt, user);
    } else {
      RulesStep(lib, rules, key, salt, user);
      SegmentRulesAre(lib, rules[1..], key, salt, user);
      if rules[0].Object? {
        SegmentRuleIs(lib, rules[0], key, salt, user);
      }
    }
  }

  lemma {:induction false} SegmentRuleIs(lib: Library, rule: Json, key: string, salt: string, user: User)
    requires rule.Object?
    ensures IsError(SegmentRuleMatches(lib, rule, key, salt, user)) <==> !SegmentRuleReads(lib, rule, key, salt, user)
    ensures SegmentRuleReads(lib, rule, key, salt, user) ==>
      (SegmentRuleMatches(lib, rule, key, salt, user) == Match <==> SegmentRuleHolds(lib, rule, key, salt, user))
    decreases 0, 6, 0
  {
    hide Lookup, AllClauses, AllRead, ClauseHolds, InBucket, Bucket;
    FieldsRead(rule, "clauses");
    FieldsRead(rule, "weight");
    FieldsRead(rule, "bucketBy");
    ClausesAre(lib, None, Items(rule, "clauses"), user);
    assert AllHold(lib, None, Items(rule, "clauses"), user)
      <==> forall i :: 0 <= i < |Items(rule, "clauses")| ==> ClauseHolds(lib, Items(rule, "clauses")[i], user);
    var b := Bucket(lib, user, key, By(rule), salt, None);
    forall c
      ensures InBucket(lib, user, By(rule), key + "." + salt, c) <==> c == b
    {
      BucketIs(lib, user, key, By(rule), salt, None, c);
    }
    assert InBucket(lib, user, By(rule), key + "." + salt, b);
  }

  /** A rule matches exactly when it holds, and errs exactly when something looked at has
      not its type or a store it needs fails. */
  lemma RuleIs(lib: Library, store: Store, rule: Json, user: User)
    ensures IsError(RuleMatches(lib, store, rule, user)) <==> !RuleReads(lib, store, rule, user)
    ensures RuleReads(lib, store, rule, user) ==>
      (RuleMatches(lib, store, rule, user) == Match <==> RuleHolds(lib, store, rule, user))
  {
    hide Lookup, AllClauses, AllRead, AllHold;
    FieldsRead(rule, "clauses");
    ClausesAre(lib, Some(store), Items(rule, "clauses"), user);
  }
}
