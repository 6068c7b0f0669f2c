/** JSON values as they travel between the browser and the Flask backend,
    with Python truthiness and JavaScript's `String(...)` rendering. */
module Json {

  /** A JSON scalar. Floating-point numbers are not part of the model. */
  datatype Scalar = Null | Bool(b: bool) | Int(i: int) | Str(s: string)

  /** A JSON value: a scalar, or an array of scalars. */
  datatype Value = Atom(a: Scalar) | Array(items: seq<Scalar>)

  const NULL: Value := Atom(Null)

  /** A JSON string value. */
  function JsonStr(s: string): Value {
    Atom(Str(s))
  }

  /** `dict.get(key)` on a request body: a missing key reads as `None`. */
  function Get(body: map<string, Value>, key: string): Value {
    if key in body then body[key] else NULL
  }

  /** Python truthiness (`if value:`), for the values a JSON body can hold. */
  predicate Truthy(v: Value) {
    match v
    case Array(xs) => |xs| > 0
    case Atom(Null) => false
    case Atom(Bool(b)) => b
    case Atom(Int(i)) => i != 0
    case Atom(Str(s)) => s != ""
  }

  /** JavaScript truthiness (`x || y`): every array is truthy, even an
      empty one. */
  predicate JsTruthy(v: Value) {
    match v
    case Array(_) => true
    case Atom(Null) => false
    case Atom(Bool(b)) => b
    case Atom(Int(i)) => i != 0
    case Atom(Str(s)) => s != ""
  }

  /** The two languages disagree on exactly one value: the empty array. */
  lemma TruthinessDiffers(v: Value)
    ensures Truthy(v) != JsTruthy(v) <==> v == Array([])
  {
  }

  function DigitChar(d: int): char
    requires 0 <= d < 10
  {
    "0123456789"[d]
  }

  function DigitValue(c: char): int {
    if '0' <= c <= '9' then c as int - '0' as int else 0
  }

  /** The decimal digits of `n`, without leading zeros (Python `str`, JavaScript `toString`). */
  function NatToDecimal(n: nat): (s: string)
    ensures |s| >= 1
    ensures forall k :: 0 <= k < |s| ==> '0' <= s[k] <= '9'
    ensures n < 10 <==> |s| == 1
  {
    if n < 10 then [DigitChar(n)] else NatToDecimal(n / 10) + [DigitChar(n % 10)]
  }

  /** Reads a string of decimal digits back as a number. */
  function ParseDecimal(s: string): nat {
    if s == [] then 0 else ParseDecimal(s[..|s| - 1]) * 10 + DigitValue(s[|s| - 1]) as nat
  }

  /** Decimal rendering is injective: parsing the digits gives the number back. */
  lemma {:induction false} DecimalRoundTrip(n: nat)
    ensures ParseDecimal(NatToDecimal(n)) == n
  {
    var s := NatToDecimal(n);
    if n < 10 {
      assert s[..|s| - 1] == [];
    } else {
      var head := NatToDecimal(n / 10);
      assert s[..|s| - 1] == head;
      DecimalRoundTrip(n / 10);
    }
  }

  /** Signed decimal rendering of an integer. */
  function IntToDecimal(i: int): string {
    if i < 0 then "-" + NatToDecimal(-i) else NatToDecimal(i)
  }

  /** JavaScript `String(x)` of a scalar on its own (`${x}`, `FormData.append`). */
  function ScalarString(x: Scalar): string {
    match x
    case Null => "null"
    case Bool(b) => if b then "true" else "false"
    case Int(i) => IntToDecimal(i)
    case Str(s) => s
  }

  /** An array element as `Array.prototype.join` renders it: `null` becomes empty. */
  function ElementString(x: Scalar): string {
    if x == Null then "" else ScalarString(x)
  }

  function JoinElements(xs: seq<Scalar>): string {
    if xs == [] then ""
    else if |xs| == 1 then ElementString(xs[0])
    else ElementString(xs[0]) + "," + JoinElements(xs[1..])
  }

  /** JavaScript `String(v)` of a JSON value. */
  function JsString(v: Value): string {
    match v
    case Atom(x) => ScalarString(x)
    case Array(xs) => JoinElements(xs)
  }
}
