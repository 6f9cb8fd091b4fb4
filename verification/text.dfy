/** String primitives the scripts rely on: Python's `str.strip()` with its
    whitespace set, and the decimal renderings produced by f-strings
    (`{i}` for integers, `{score:.4f}` for scores). */
module Text {

  /** The characters Python's argument-less `str.strip()` removes: those for
      which `str.isspace()` holds. */
  predicate IsSpace(c: char) {
    || ('\U{0009}' <= c <= '\U{000D}')
    || ('\U{001C}' <= c <= '\U{0020}')
    || c == '\U{0085}'
    || c == '\U{00A0}'
    || c == '\U{1680}'
    || ('\U{2000}' <= c <= '\U{200A}')
    || c == '\U{2028}'
    || c == '\U{2029}'
    || c == '\U{202F}'
    || c == '\U{205F}'
    || c == '\U{3000}'
  }

  predicate AllSpace(s: string) {
    forall i :: 0 <= i < |s| ==> IsSpace(s[i])
  }

  /** Neither end of `s` is whitespace (the shape every `strip()` result has). */
  predicate Trimmed(s: string) {
    |s| == 0 || (!IsSpace(s[0]) && !IsSpace(s[|s| - 1]))
  }

  /** Length of the whitespace run at the start of `s`. */
  function LeadCount(s: string): (n: nat)
    ensures n <= |s|
    ensures forall i :: 0 <= i < n ==> IsSpace(s[i])
    ensures n < |s| ==> !IsSpace(s[n])
  {
    if |s| == 0 || !IsSpace(s[0]) then 0 else 1 + LeadCount(s[1..])
  }

  /** Index where the whitespace run at the end of `s` begins. */
  function TrailStart(s: string): (n: nat)
    ensures n <= |s|
    ensures forall i :: n <= i < |s| ==> IsSpace(s[i])
    ensures 0 < n ==> !IsSpace(s[n - 1])
  {
    if |s| == 0 || !IsSpace(s[|s| - 1]) then |s| else TrailStart(s[..|s| - 1])
  }

  /** Python's `s.strip()`. */
  function Strip(s: string): (r: string)
    ensures |r| <= |s|
    ensures Trimmed(r)
  {
    var t := s[LeadCount(s)..];
    t[..TrailStart(t)]
  }

  /** Python's `not s.strip()`. */
  predicate IsBlank(s: string) {
    Strip(s) == ""
  }

  /** A string is blank exactly when every character of it is whitespace. */
  lemma BlankIffAllSpace(s: string)
    ensures IsBlank(s) <==> AllSpace(s)
  {
    var a := LeadCount(s);
    var t := s[a..];
    var b := TrailStart(t);
    if IsBlank(s) {
      assert b == 0;
    }
  }

  /** Characterisation of `strip()`: surrounding `y` by whitespace on both sides
      and stripping gives back exactly `y`, provided `y` itself is trimmed. */
  lemma StripSurrounded(x: string, y: string, z: string)
    requires AllSpace(x) && AllSpace(z) && Trimmed(y)
    ensures Strip(x + y + z) == y
  {
    var s := x + y + z;
    if |y| == 0 {
      assert s == x + z;
      assert AllSpace(s) by {
        forall i | 0 <= i < |s|
          ensures IsSpace(s[i])
        {
          if i < |x| {
            assert s[i] == x[i];
          } else {
            assert s[i] == z[i - |x|];
          }
        }
      }
      BlankIffAllSpace(s);
    } else {
      var a := LeadCount(s);
      assert s[|x|] == y[0];
      assert forall i :: 0 <= i < |x| ==> s[i] == x[i];
      assert a == |x|;
      var t := s[a..];
      assert t == y + z;
      var b := TrailStart(t);
      assert t[|y| - 1] == y[|y| - 1];
      assert forall i :: |y| <= i < |t| ==> t[i] == z[i - |y|];
      assert b == |y|;
      assert t[..b] == y;
    }
  }

  /** Stripping twice is the same as stripping once. */
  lemma StripIdempotent(s: string)
    ensures Strip(Strip(s)) == Strip(s)
  {
    var r := Strip(s);
    StripSurrounded("", r, "");
    assert "" + r + "" == r;
  }

  /** A string whose first character is not whitespace is never blank. */
  lemma NotBlankWhenStartsSolid(s: string)
    requires 0 < |s| && !IsSpace(s[0])
    ensures !IsBlank(s)
  {
    BlankIffAllSpace(s);
  }

  // ---------------------------------------------------------------------------
  // Decimal rendering

  predicate IsDigit(c: char) {
    '0' <= c <= '9'
  }

  predicate IsDigits(s: string) {
    forall i :: 0 <= i < |s| ==> IsDigit(s[i])
  }

  function DigitChar(d: nat): (c: char)
    requires d < 10
    ensures IsDigit(c)
  {
    (48 + d) as char
  }

  /** The number a run of decimal digits denotes (most significant first). */
  function DigitsValue(s: string): nat
    requires IsDigits(s)
  {
    if |s| == 0 then 0
    else 10 * DigitsValue(s[..|s| - 1]) + ((s[|s| - 1] as int) - 48)
  }

  /** Python's `str(n)` for a non-negative integer: shortest decimal numeral. */
  function NatToString(n: nat): (r: string)
    ensures 1 <= |r|
    ensures IsDigits(r)
    ensures r[0] == '0' ==> n == 0
    decreases n
  {
    if n < 10 then [DigitChar(n)] else NatToString(n / 10) + [DigitChar(n % 10)]
  }

  /** Reading the numeral back gives the number it was rendered from. */
  lemma {:induction false} NatToStringRoundTrip(n: nat)
    ensures DigitsValue(NatToString(n)) == n
    decreases n
  {
    if n >= 10 {
      var r := NatToString(n);
      NatToStringRoundTrip(n / 10);
      assert r[..|r| - 1] == NatToString(n / 10);
    }
  }

  /** Distinct numbers have distinct numerals. */
  lemma NatToStringInjective(m: nat, n: nat)
    requires NatToString(m) == NatToString(n)
    ensures m == n
  {
    NatToStringRoundTrip(m);
    NatToStringRoundTrip(n);
  }

  /** Python's `str(i)` for any integer. */
  function IntToString(i: int): (r: string)
    ensures 1 <= |r|
    ensures (r[0] == '-') <==> i < 0
  {
    if i < 0 then "-" + NatToString(-i) else NatToString(i)
  }

  function Pow10(k: nat): (p: nat)
    ensures 1 <= p
  {
    if k == 0 then 1 else 10 * Pow10(k - 1)
  }

  /** The low `width` digits of `n`, zero-padded on the left (`{n:0<width>d}`). */
  function PadDigits(n: nat, width: nat): (r: string)
    ensures |r| == width && IsDigits(r)
  {
    if width == 0 then "" else PadDigits(n / 10, width - 1) + [DigitChar(n % 10)]
  }

  /** A number that fits in `width` digits is read back unchanged from its padding. */
  lemma {:induction false} PadDigitsValue(n: nat, width: nat)
    requires n < Pow10(width)
    ensures DigitsValue(PadDigits(n, width)) == n
  {
    if width > 0 {
      var r := PadDigits(n, width);
      assert n / 10 < Pow10(width - 1);
      PadDigitsValue(n / 10, width - 1);
      assert r[..|r| - 1] == PadDigits(n / 10, width - 1);
    }
  }

  /** `f"{x:.4f}"` for a score held in ten-thousandths: optional minus sign,
      integer part, a point, and exactly four fractional digits. */
  function Fixed4(x: int): (r: string)
    ensures 6 <= |r|
    ensures r[|r| - 5] == '.'
    ensures IsDigits(r[|r| - 4..])
    ensures (r[0] == '-') <==> x < 0
    ensures var s := if x < 0 then 1 else 0;
      s < |r| - 5 && IsDigits(r[s..|r| - 5]) && (r[s] == '0' ==> s + 1 == |r| - 5)
  {
    var a := if x < 0 then -x else x;
    var sign: string := if x < 0 then "-" else "";
    var ip := NatToString(a / 10000);
    var r := sign + ip + "." + PadDigits(a % 10000, 4);
    assert r[|sign|..|r| - 5] == ip;
    r
  }

  /** Reads a rendering of the `Fixed4` shape back as ten-thousandths. */
  function Fixed4Value(r: string): int
    requires 6 <= |r| && r[|r| - 5] == '.' && IsDigits(r[|r| - 4..])
    requires IsDigits(r[(if r[0] == '-' then 1 else 0)..|r| - 5])
  {
    var start := if r[0] == '-' then 1 else 0;
    var magnitude := DigitsValue(r[start..|r| - 5]) * 10000 + DigitsValue(r[|r| - 4..]);
    if r[0] == '-' then -magnitude else magnitude
  }

  /** The rendered score denotes exactly the score it was rendered from. */
  lemma Fixed4RoundTrip(x: int)
    ensures IsDigits(Fixed4(x)[(if Fixed4(x)[0] == '-' then 1 else 0)..|Fixed4(x)| - 5])
    ensures Fixed4Value(Fixed4(x)) == x
  {
    var a := if x < 0 then -x else x;
    var sign: string := if x < 0 then "-" else "";
    var ip := NatToString(a / 10000);
    var fp := PadDigits(a % 10000, 4);
    var r := Fixed4(x);
    assert r == sign + ip + "." + fp;
    var start := if r[0] == '-' then 1 else 0;
    assert start == |sign|;
    assert r[start..|r| - 5] == ip;
    assert r[|r| - 4..] == fp;
    NatToStringRoundTrip(a / 10000);
    PadDigitsValue(a % 10000, 4);
  }
}
