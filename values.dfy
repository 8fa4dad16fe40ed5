/** Dynamic values carried by API payloads and model attributes, Python
    truthiness and equality on them, and the total integer coercion
    `int_or_None` of wordpress/utils.py. */
module Values {

  datatype Option<+T> = None | Some(value: T)

  /** A JSON-ish value: null, a boolean, an integer, a string, or a structured
      blob (object or list) kept as its serialised text. */
  datatype Value = VNone | VBool(b: bool) | VInt(i: int) | VStr(s: string) | VBlob(json: string)

  /** Python truthiness. Structured blobs in payloads are taken to be non-empty. */
  predicate Truthy(v: Value)
  {
    match v
    case VNone => false
    case VBool(b) => b
    case VInt(i) => i != 0
    case VStr(s) => s != ""
    case VBlob(_) => true
  }

  /** The number a value stands for under Python's `==` (bool is a subclass of int). */
  function NumberOf(v: Value): Option<int>
  {
    match v
    case VBool(b) => Some(if b then 1 else 0)
    case VInt(i) => Some(i)
    case _ => None
  }

  /** Python `==` on values: numbers compare by value, everything else structurally. */
  predicate PyEq(a: Value, b: Value)
  {
    if NumberOf(a).Some? && NumberOf(b).Some? then NumberOf(a) == NumberOf(b) else a == b
  }

  lemma PyEqIsEquivalence(a: Value, b: Value, c: Value)
    ensures PyEq(a, a)
    ensures PyEq(a, b) ==> PyEq(b, a)
    ensures PyEq(a, b) && PyEq(b, c) ==> PyEq(a, c)
  {
  }

  // ----- signed decimal numerals: the part of Python's int(str) that is modelled -----

  predicate IsDigit(c: char) { '0' <= c <= '9' }

  predicate AllDigits(s: string) { forall i :: 0 <= i < |s| ==> IsDigit(s[i]) }

  /** Value of a string of decimal digits, most significant first. */
  function DigitsValue(s: string): nat
    requires AllDigits(s)
  {
    if s == [] then 0 else DigitsValue(s[..|s| - 1]) * 10 + (s[|s| - 1] as int - '0' as int)
  }

  /** `int(s)` for an optional sign followed by at least one digit; None where
      Python raises ValueError. */
  function ParseDecimal(s: string): (r: Option<int>)
    ensures r.Some? ==> s != ""
  {
    if |s| > 1 && (s[0] == '-' || s[0] == '+') && AllDigits(s[1..]) then
      Some(if s[0] == '-' then 0 - DigitsValue(s[1..]) as int else DigitsValue(s[1..]))
    else if |s| > 0 && AllDigits(s) then Some(DigitsValue(s))
    else None
  }

  function DigitChar(d: nat): (c: char)
    requires d < 10
    ensures IsDigit(c) && c as int - '0' as int == d
  {
    ('0' as int + d) as char
  }

  /** Decimal numeral of a natural number, as Python's `str` / `format` writes it. */
  function NatToDecimal(n: nat): (s: string)
    ensures s != [] && AllDigits(s)
  {
    if n < 10 then [DigitChar(n)] else NatToDecimal(n / 10) + [DigitChar(n % 10)]
  }

  function IntToDecimal(i: int): (s: string)
    ensures s != []
  {
    if i < 0 then "-" + NatToDecimal(-i) else NatToDecimal(i)
  }

  lemma {:induction false} NatToDecimalValue(n: nat)
    ensures DigitsValue(NatToDecimal(n)) == n
  {
    if n >= 10 {
      NatToDecimalValue(n / 10);
      var s := NatToDecimal(n);
      assert s[..|s| - 1] == NatToDecimal(n / 10);
    }
  }

  /** Parsing what `IntToDecimal` writes gives the number back. */
  lemma {:induction false} DecimalRoundTrip(i: int)
    ensures ParseDecimal(IntToDecimal(i)) == Some(i)
  {
    if i < 0 {
      NatToDecimalValue(-i);
      var s := IntToDecimal(i);
      assert s[1..] == NatToDecimal(-i);
    } else {
      NatToDecimalValue(i);
    }
  }

  // ----- int_or_None -----

  /** `int_or_None`: a falsy input gives None; a truthy one gives `int(value)`,
      or None where `int()` rejects it. */
  function IntOrNone(v: Value): (r: Value)
    ensures r.VNone? || r.VInt?
    ensures !Truthy(v) ==> r == VNone
    ensures v.VInt? && v.i != 0 ==> r == v
    ensures v == VBool(true) ==> r == VInt(1)
    ensures v.VStr? && v.s != "" && ParseDecimal(v.s).Some? ==> r == VInt(ParseDecimal(v.s).value)
    ensures v.VStr? && ParseDecimal(v.s).None? ==> r == VNone
  {
    if !Truthy(v) then VNone
    else match v
      case VBool(_) => VInt(1)
      case VInt(i) => VInt(i)
      case VStr(s) => (match ParseDecimal(s) case Some(n) => VInt(n) case None => VNone)
      case _ => VNone
  }

  /** int_or_None is not idempotent: "0" becomes 0, and 0 becomes None. */
  lemma IntOrNoneNotIdempotent()
    ensures IntOrNone(VStr("0")) == VInt(0)
    ensures IntOrNone(IntOrNone(VStr("0"))) == VNone
  {
    assert AllDigits("0");
    assert DigitsValue("0") == 0 by {
      assert "0"[..0] == "";
    }
  }

  /** Coercing the numeral of a non-zero integer gives that integer. */
  lemma IntOrNoneOfNumeral(i: int)
    requires i != 0
    ensures IntOrNone(VStr(IntToDecimal(i))) == VInt(i)
  {
    DecimalRoundTrip(i);
  }
}
