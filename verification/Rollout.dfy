/** Percentage rollouts: the bucket of a user and the variation it is served. */
module Rollout {
  import opened Wrappers
  import opened JsonTree
  import opened FlagSchema

  // ------------------------------------------------------------- buckets

  function HexDigit(c: char): Option<int> {
    if '0' <= c <= '9' then Some(c as int - 48)
    else if 'a' <= c <= 'f' then Some(c as int - 87)
    else None
  }

  predicate IsHex(s: string) { forall i :: 0 <= i < |s| ==> HexDigit(s[i]).Some? }

  /** The number a lower-case hex numeral denotes. */
  function HexNumber(s: string): int
    requires IsHex(s)
  {
    if s == "" then 0 else HexNumber(s[..|s| - 1]) * 16 + HexDigit(s[|s| - 1]).value
  }

  function Pow16(n: nat): int { if n == 0 then 1 else 16 * Pow16(n - 1) }

  /** `LDi_hexToDecimal`: zero for anything that is not a hex numeral. */
  function HexToDecimal(s: string): int {
    if IsHex(s) then HexNumber(s) else 0
  }

  method HexToDecimalLoop(input: string) returns (acc: int)
    ensures acc == HexToDecimal(input)
  {
    acc := 0;
    for i := 0 to |input|
      invariant IsHex(input[..i]) && acc == HexNumber(input[..i])
    {
      match HexDigit(input[i])
      case None => return 0;
      case Some(d) =>
        assert input[..i + 1][..i] == input[..i];
        acc := acc * 16 + d;
    }
    assert input[..|input|] == input;
  }

  lemma {:induction false} HexNumberBounds(s: string)
    requires IsHex(s)
    ensures 0 <= HexNumber(s) < Pow16(|s|)
  {
    if s != "" {
      HexNumberBounds(s[..|s| - 1]);
    }
  }

  const HEX_DIGITS := 15
  const LONG_SCALE := 1152921504606846975.0

  lemma LongScaleIsMaximum()
    ensures Pow16(HEX_DIGITS) as real - 1.0 == LONG_SCALE
  {
    assert Pow16(5) == 0x100000;
    assert Pow16(10) == 0x100000 * 0x100000;
  }

  /** What is hashed; nothing when the attribute has no text or the text is too long
      for the 256-byte buffer. */
  function HashInput(
      lib: Library, user: User, key: string, attribute: string, salt: string, seed: Option<int>): Option<string> {
    match Attribute(user, attribute)
    case Some(Text(s)) => Bounded(Joined(lib, user, key, s, salt, seed))
    case Some(Number(n)) => Bounded(Joined(lib, user, key, lib.fixed(n), salt, seed))
    case _ => None
  }

  const RAW_BUFFER := 256

  function Bounded(s: string): Option<string> { if |s| < RAW_BUFFER then Some(s) else None }

  function Joined(lib: Library, user: User, key: string, bucketable: string, salt: string, seed: Option<int>): string {
    (if seed.Some? then lib.decimal(seed.value) + "." + bucketable else key + "." + salt + "." + bucketable)
    + (if user.secondary.Some? then "." + user.secondary.value else "")
  }

  /** `LDi_bucketUser`: the bucket stays zero when nothing can be hashed. */
  function Bucket(lib: Library, user: User, key: string, attribute: string, salt: string, seed: Option<int>): real {
    match HashInput(lib, user, key, attribute, salt, seed)
    case Some(raw) => HexToDecimal(lib.digest(raw)) as real / LONG_SCALE
    case None => 0.0
  }

  /** A digest of fifteen characters puts every user into [0, 1]. */
  lemma BucketRange(lib: Library, user: User, key: string, attribute: string, salt: string, seed: Option<int>)
    requires forall raw :: |lib.digest(raw)| == HEX_DIGITS
    ensures 0.0 <= Bucket(lib, user, key, attribute, salt, seed) <= 1.0
  {
    match HashInput(lib, user, key, attribute, salt, seed)
    case Some(raw) =>
      var digest := lib.digest(raw);
      assert |digest| == HEX_DIGITS;
      if IsHex(digest) {
        HexNumberBounds(digest);
      }
      LongScaleIsMaximum();
      UnitQuotient(HexToDecimal(digest) as real);
    case None =>
  }

  lemma UnitQuotient(x: real)
    requires 0.0 <= x <= LONG_SCALE
    ensures 0.0 <= x / LONG_SCALE <= 1.0
  {
  }

  // ------------------------------------------------------------- positions

  /** Sum of the first `n` weights, as a share of one. */
  function Cumulative(weights: seq<real>, n: nat): real
    requires n <= |weights|
  {
    if n == 0 then 0.0 else Cumulative(weights, n - 1) + weights[n - 1] / 100000.0
  }

  /** The weights up to and with position `i` exceed the bucket. */
  predicate Reaches(weights: seq<real>, bucket: real, i: nat)
    requires i < |weights|
  {
    bucket < Cumulative(weights, i + 1)
  }

  /** The list position a bucket is served: the first whose cumulative weight
      exceeds it, the last one if none does. */
  function Position(weights: seq<real>, bucket: real, from: nat): (i: nat)
    requires from < |weights|
    ensures from <= i < |weights|
    decreases |weights| - from
  {
    if Reaches(weights, bucket, from) || from + 1 == |weights| then from
    else Position(weights, bucket, from + 1)
  }

  /** At most `i` exactly when some cumulative weight up to `i` exceeds the bucket. */
  lemma {:induction false} PositionAtMost(weights: seq<real>, bucket: real, from: nat, i: nat)
    requires from <= i < |weights| - 1
    ensures Position(weights, bucket, from) <= i
       <==> exists j :: from <= j <= i && Reaches(weights, bucket, j)
    decreases i - from
  {
    if !Reaches(weights, bucket, from) && from < i {
      PositionAtMost(weights, bucket, from + 1, i);
    }
  }

  predicate NonNegative(weights: seq<real>) { forall i :: 0 <= i < |weights| ==> weights[i] >= 0.0 }

  lemma {:induction false} CumulativeGrows(weights: seq<real>, m: nat, n: nat)
    requires NonNegative(weights) && m <= n <= |weights|
    ensures Cumulative(weights, m) <= Cumulative(weights, n)
    decreases n - m
  {
    if m < n {
      CumulativeGrows(weights, m, n - 1);
    }
  }

  /** With non-negative weights the positions cut [0, 1] into consecutive ranges:
      position `i` gets the buckets from the cumulative weight before it up to its
      own, and the last position everything that is left. */
  lemma PositionsPartition(weights: seq<real>, bucket: real, i: nat)
    requires NonNegative(weights) && i < |weights| && 0.0 <= bucket
    ensures i < |weights| - 1 ==> (Position(weights, bucket, 0) <= i <==> bucket < Cumulative(weights, i + 1))
    ensures Position(weights, bucket, 0) == i
       <==> (i == 0 || Cumulative(weights, i) <= bucket) && (i == |weights| - 1 || bucket < Cumulative(weights, i + 1))
  {
    if i < |weights| - 1 {
      AtMostByCumulative(weights, bucket, i);
    }
    if i > 0 {
      AtMostByCumulative(weights, bucket, i - 1);
    }
  }

  lemma AtMostByCumulative(weights: seq<real>, bucket: real, i: nat)
    requires NonNegative(weights) && i < |weights| - 1
    ensures Position(weights, bucket, 0) <= i <==> bucket < Cumulative(weights, i + 1)
  {
    PositionAtMost(weights, bucket, 0, i);
    assert bucket < Cumulative(weights, i + 1) ==> Reaches(weights, bucket, i);
    forall j | 0 <= j <= i && Reaches(weights, bucket, j)
      ensures bucket < Cumulative(weights, i + 1)
    {
      CumulativeGrows(weights, j + 1, i + 1);
    }
  }

  /** Growing cumulative weights never move a user to a later position. */
  lemma GrowingWeightsKeepPosition(before: seq<real>, after: seq<real>, bucket: real)
    requires |before| == |after| > 0
    requires forall n :: 0 <= n <= |before| ==> Cumulative(before, n) <= Cumulative(after, n)
    ensures Position(after, bucket, 0) <= Position(before, bucket, 0)
  {
    var i := Position(before, bucket, 0);
    if i < |before| - 1 {
      PositionAtMost(before, bucket, 0, i);
      PositionAtMost(after, bucket, 0, i);
      forall j | 0 <= j <= i && Reaches(before, bucket, j)
        ensures Reaches(after, bucket, j)
      {
        assert Cumulative(before, j + 1) <= Cumulative(after, j + 1);
      }
    }
  }

  // ------------------------------------------------------------- the walk over the list

  datatype Pick = NoPick | Pick(variation: Json, untracked: bool)

  /** What one entry of the list must carry. */
  predicate EntryOk(entry: Json) {
    && Required(entry, "weight", NumberType).Some?
    && Required(entry, "variation", NumberType).Some?
    && !Optional(entry, "untracked", BoolType).Malformed?
  }

  function Weight(entry: Json): real {
    match Required(entry, "weight", NumberType)
    case Some(Number(w)) => w
    case _ => 0.0
  }

  function Weights(entries: seq<Json>): (r: seq<real>)
    ensures |r| == |entries| && forall i :: 0 <= i < |r| ==> r[i] == Weight(entries[i])
  {
    seq(|entries|, i requires 0 <= i < |entries| => Weight(entries[i]))
  }

  function PickAt(entry: Json): Pick
    requires EntryOk(entry)
  {
    Pick(Required(entry, "variation", NumberType).value, Optional(entry, "untracked", BoolType) == Set(Bool(true)))
  }

  /** The entry at the position served, as long as no entry up to it is malformed. */
  function Served(entries: seq<Json>, bucket: real): Pick
    requires entries != []
  {
    var position := Position(Weights(entries), bucket, 0);
    if forall j :: 0 <= j <= position ==> EntryOk(entries[j]) then PickAt(entries[position]) else NoPick
  }

  /** The loop of `LDi_variationIndexForUser`. */
  method PickVariation(entries: seq<Json>, bucket: real) returns (pick: Pick)
    requires entries != []
    ensures pick == Served(entries, bucket)
  {
    hide Required, Optional, Lookup, EntryOk, PickAt, Weight;
    ghost var weights := Weights(entries);
    var sum := 0.0;
    pick := NoPick;
    for i := 0 to |entries|
      invariant sum == Cumulative(weights, i)
      invariant forall j :: 0 <= j < i ==> EntryOk(entries[j])
      invariant i < |entries| ==> Position(weights, bucket, 0) == Position(weights, bucket, i)
      invariant i == |entries| ==> Position(weights, bucket, 0) == i - 1
      invariant i > 0 ==> pick == PickAt(entries[i - 1])
    {
      pick := ReadEntry(entries[i]);
      if pick.NoPick? { return; }
      sum := sum + Weight(entries[i]) / 100000.0;
      if bucket < sum { return; }
    }
  }

  /** The fields of one entry, or none if one of them is malformed. */
  method ReadEntry(entry: Json) returns (pick: Pick)
    ensures pick.NoPick? <==> !EntryOk(entry)
    ensures EntryOk(entry) ==> pick == PickAt(entry)
  {
    hide Required, Optional;
    if Required(entry, "weight", NumberType).None? { return NoPick; }
    var variation := Required(entry, "variation", NumberType);
    if variation.None? { return NoPick; }
    var untracked := Optional(entry, "untracked", BoolType);
    if untracked.Malformed? { return NoPick; }
    return Pick(variation.value, untracked == Set(Bool(true)));
  }
}
