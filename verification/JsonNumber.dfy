/** Number text. `sprintf` and `strtod` are outside the model: a codec carries
    them as functions, and `Faithful` states what the C library promises on
    finite doubles. */
module JsonNumber {
  import opened Wrappers

  /** `scan` is `strtod`: the value read and how many characters it took. */
  datatype RawCodec = RawCodec(
    fmt15: real -> string,
    fmt17: real -> string,
    scan: string -> Option<(real, nat)>,
    isDouble: real -> bool)

  predicate IsDigit(c: char) { '0' <= c <= '9' }

  predicate IsNumberChar(c: char) {
    IsDigit(c) || c == '+' || c == '-' || c == 'e' || c == 'E' || c == '.'
  }

  lemma NumberCharsAre(c: char)
    ensures IsNumberChar(c) <==> c in "0123456789+-eE."
  {
  }

  const NUMBER_BUFFER := 64
  const PRINT_BUFFER := 26

  predicate IsNumberText(t: string) {
    && 1 <= |t| < PRINT_BUFFER
    && (IsDigit(t[0]) || t[0] == '-')
    && forall i :: 0 <= i < |t| ==> IsNumberChar(t[i])
  }

  ghost predicate Faithful(c: RawCodec) {
    && (forall s :: c.scan(s).Some? ==> 1 <= c.scan(s).value.1 <= |s|)
    && (forall x :: c.isDouble(x) ==>
          && IsNumberText(c.fmt15(x)) && IsNumberText(c.fmt17(x))
          && (c.scan(c.fmt15(x)).Some? ==> c.scan(c.fmt15(x)).value.1 == |c.fmt15(x)|)
          && c.scan(c.fmt17(x)) == Some((x, |c.fmt17(x)|)))
  }

  const ZERO_ONLY := RawCodec(
    x => "0", x => "0", s => if s == "0" then Some((0.0, 1)) else None, x => x == 0.0)

  type NumberCodec = c: RawCodec | Faithful(c) witness ZERO_ONLY

  /** `strtod` on a buffer. */
  function Scan(c: NumberCodec, s: string): (r: Option<(real, nat)>)
    ensures r.Some? ==> 1 <= r.value.1 <= |s|
  {
    c.scan(s)
  }

  /** `print_number`: fifteen digits when they read back as the same double,
      seventeen otherwise. */
  function NumberText(c: NumberCodec, x: real): (t: string)
    ensures c.isDouble(x) ==> IsNumberText(t) && Scan(c, t) == Some((x, |t|))
  {
    match c.scan(c.fmt15(x))
    case Some((y, _)) => if y == x then c.fmt15(x) else c.fmt17(x)
    case None => c.fmt17(x)
  }
}
