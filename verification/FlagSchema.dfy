/** Typed field access on flag JSON, users, and the libraries evaluation calls. */
module FlagSchema {
  import opened Wrappers
  import opened JsonTree

  datatype JsonType = NullType | BoolType | NumberType | TextType | ArrayType | ObjectType

  function TypeOf(v: Json): JsonType {
    match v
    case Null => NullType
    case Bool(_) => BoolType
    case Number(_) => NumberType
    case Text(_) => TextType
    case Array(_) => ArrayType
    case Object(_) => ObjectType
  }

  /** `lookupRequiredValueOfType`. */
  function Required(obj: Json, key: string, t: JsonType): (r: Option<Json>)
    ensures r.Some? ==> TypeOf(r.value) == t && Lookup(obj, key) == r
  {
    match Lookup(obj, key)
    case Some(v) => if TypeOf(v) == t then Some(v) else None
    case None => None
  }

  datatype Field = Malformed | Unset | Set(value: Json)

  /** `lookupOptionalValueOfType`: a missing or null field is unset. */
  function Optional(obj: Json, key: string, t: JsonType): (r: Field)
    ensures r.Set? ==> TypeOf(r.value) == t && Lookup(obj, key) == Some(r.value)
  {
    match Lookup(obj, key)
    case None => Unset
    case Some(v) => if v == Null then Unset else if TypeOf(v) == t then Set(v) else Malformed
  }

  /** The elements of an optional array field. */
  function Elements(obj: Json, key: string): (r: seq<Json>) {
    match Optional(obj, key, ArrayType)
    case Set(Array(items)) => items
    case _ => []
  }

  datatype User = User(
    key: string,
    secondary: Option<string>,
    builtin: map<string, string>,
    anonymous: bool,
    custom: Option<Json>)

  const BUILTIN := {"ip", "email", "firstName", "lastName", "avatar", "country", "name"}

  /** `LDi_valueOfAttribute`. */
  function Attribute(user: User, name: string): Option<Json> {
    if name == "key" then Some(Text(user.key))
    else if name == "secondary" then
      if user.secondary.Some? then Some(Text(user.secondary.value)) else None
    else if name in BUILTIN then
      if name in user.builtin then Some(Text(user.builtin[name])) else None
    else if name == "anonymous" then Some(Bool(user.anonymous))
    else if user.custom.Some? then Lookup(user.custom.value, name)
    else None
  }

  type Operator = (Json, Json) -> bool

  /** Code the model does not look into: the operators by name, the first fifteen
      hex digits of SHA-1, and `printf` of a double and of an int. */
  datatype Library = Library(
    operators: map<string, Operator>,
    digest: string -> string,
    fixed: real -> string,
    decimal: int -> string)

  /** A C cast of a double to a whole number. */
  function Truncate(x: real): int {
    if x >= 0.0 then x.Floor else -((-x).Floor)
  }

  /** A number without its fraction. */
  predicate Whole(n: real, t: int) {
    if n >= 0.0 then t as real <= n < t as real + 1.0 else t as real - 1.0 < n <= t as real
  }

  lemma TruncateIs(n: real, t: int)
    ensures Truncate(n) == t <==> Whole(n, t)
  {
  }
}
