/** Document metadata: a mapping from names to the scalar values PDF loading
    attaches (page numbers, source paths, flags), with Python's truthiness and
    `str()` rendering. */
module Metadata {
  import opened Text

  datatype Value = Null | Str(text: string) | Int(num: int) | Bool(flag: bool)

  type Meta = map<string, Value>

  /** Python's `bool(v)`. */
  predicate Truthy(v: Value) {
    match v
    case Null => false
    case Str(t) => t != ""
    case Int(i) => i != 0
    case Bool(b) => b
  }

  /** Python's `str(v)`, which is what an f-string interpolates. */
  function Render(v: Value): string {
    match v
    case Null => "None"
    case Str(t) => t
    case Int(i) => IntToString(i)
    case Bool(b) => if b then "True" else "False"
  }

  /** `meta.get(name)`: a missing name reads as `None`. */
  function Get(meta: Meta, name: string): Value
  {
    if name in meta then meta[name] else Null
  }

  /** Python's `a or b`: the first operand when it is truthy, else the second. */
  function Or(a: Value, b: Value): Value
  {
    if Truthy(a) then a else b
  }

  /** `a or b or c` (which Python groups as `(a or b) or c`) is the first
      truthy operand, or the last one when none is. */
  lemma OrFirstTruthy(a: Value, b: Value, c: Value)
    ensures Truthy(a) ==> Or(Or(a, b), c) == a
    ensures !Truthy(a) && Truthy(b) ==> Or(Or(a, b), c) == b
    ensures !Truthy(a) && !Truthy(b) ==> Or(Or(a, b), c) == c
    ensures Or(Or(a, b), c) == Or(a, Or(b, c))
  {
  }

  /** `str()` of an integer page is its decimal numeral, signed exactly when
      negative, and reads back as the page. */
  lemma RenderInt(i: int)
    ensures var r := Render(Int(i)); 1 <= |r| && ((r[0] == '-') <==> i < 0)
    ensures var r := Render(Int(i)); var digits := if i < 0 then r[1..] else r;
      IsDigits(digits) && DigitsValue(digits) == (if i < 0 then -i else i)
  {
    var r := Render(Int(i));
    if i < 0 {
      assert r[1..] == NatToString(-i);
      NatToStringRoundTrip(-i);
    } else {
      NatToStringRoundTrip(i);
    }
  }
}
