/** Decimal text of integers: `str(int)`, the fixed-point `f"{v:.{d}f}"`
    of a value given as an integer count of 10^-d units, and parsers that
    invert both. */
module Decimal {
  import opened Exceptions

  predicate IsDigit(c: char)
  {
    '0' <= c <= '9'
  }

  predicate AllDigits(s: string)
  {
    forall i :: 0 <= i < |s| ==> IsDigit(s[i])
  }

  function Digit(d: nat): (c: char)
    requires d < 10
    ensures IsDigit(c)
  {
    ('0' as int + d) as char
  }

  function DigitValue(c: char): (d: nat)
    requires IsDigit(c)
    ensures d < 10
  {
    c as int - '0' as int
  }

  /** Decimal digits of a natural number, without leading zeros ("0" for zero). */
  function NatToString(n: nat): (s: string)
    ensures |s| > 0 && AllDigits(s)
  {
    if n < 10 then [Digit(n)] else NatToString(n / 10) + [Digit(n % 10)]
  }

  /** The value of a digit string, most significant digit first. */
  function DigitsValue(s: string): nat
    requires AllDigits(s)
  {
    if |s| == 0 then 0 else 10 * DigitsValue(s[..|s| - 1]) + DigitValue(s[|s| - 1])
  }

  lemma {:induction false} NatToStringValue(n: nat)
    ensures DigitsValue(NatToString(n)) == n
  {
    if n >= 10 {
      var s := NatToString(n);
      assert s[..|s| - 1] == NatToString(n / 10);
      NatToStringValue(n / 10);
    }
  }

  /** `m // 10**d`, by d divisions by ten. */
  function Shift(m: nat, d: nat): nat
  {
    if d == 0 then m else Shift(m / 10, d - 1)
  }

  /** The d lowest decimal digits of m, with leading zeros: the fractional
      part of a fixed-point text. */
  function LowDigits(m: nat, d: nat): (s: string)
    ensures |s| == d && AllDigits(s)
  {
    if d == 0 then [] else LowDigits(m / 10, d - 1) + [Digit(m % 10)]
  }

  /** The high part of m followed by its d low digits spells m. */
  lemma {:induction false} ShiftLowDigitsValue(m: nat, d: nat)
    ensures DigitsValue(NatToString(Shift(m, d)) + LowDigits(m, d)) == m
  {
    if d == 0 {
      assert NatToString(m) + [] == NatToString(m);
      NatToStringValue(m);
    } else {
      var hi, lo := NatToString(Shift(m / 10, d - 1)), LowDigits(m / 10, d - 1);
      assert NatToString(Shift(m, d)) + LowDigits(m, d) == (hi + lo) + [Digit(m % 10)];
      ShiftLowDigitsValue(m / 10, d - 1);
      DigitsValueSnoc(hi + lo, Digit(m % 10));
    }
  }

  /** Appending a digit multiplies the value by ten and adds the digit. */
  lemma DigitsValueSnoc(s: string, c: char)
    requires AllDigits(s) && IsDigit(c)
    ensures AllDigits(s + [c]) && DigitsValue(s + [c]) == 10 * DigitsValue(s) + DigitValue(c)
  {
    assert (s + [c])[..|s|] == s;
  }

  /** `str(i)` of a Python int. */
  function IntToString(i: int): string
  {
    if i < 0 then "-" + NatToString(-i) else NatToString(i)
  }

  /** `int(s)` restricted to the texts `str` produces: an optional '-' and digits. */
  function ParseInt(s: string): Option<int>
  {
    var neg := |s| > 0 && s[0] == '-';
    var body := if neg then s[1..] else s;
    if |body| == 0 || !AllDigits(body) then None
    else
      var v: int := DigitsValue(body);
      Some(if neg then -v else v)
  }

  lemma IntToStringRoundTrip(i: int)
    ensures ParseInt(IntToString(i)) == Some(i)
  {
    var s := IntToString(i);
    if i < 0 {
      assert s[1..] == NatToString(-i);
      NatToStringValue(-i);
    } else {
      assert IsDigit(s[0]);
      NatToStringValue(i);
    }
  }

  /** `f"{n / 10**d:.{d}f}"` for d > 0: the sign, the integer part, a point and
      exactly d fractional digits. */
  function FixedPoint(n: int, d: nat): string
    requires d > 0
  {
    var a: nat := if n < 0 then -n else n;
    (if n < 0 then "-" else "") + (NatToString(Shift(a, d)) + "." + LowDigits(a, d))
  }

  /** Reads back a fixed-point text with d fractional digits as a count of 10^-d units. */
  function ParseFixed(s: string, d: nat): Option<int>
    requires d > 0
  {
    var neg := |s| > 0 && s[0] == '-';
    match ParseUnsignedFixed(if neg then s[1..] else s, d)
    case None => None
    case Some(v) => Some(if neg then -(v as int) else v)
  }

  /** The unsigned part: at least one integer digit, a point, d fractional digits. */
  function ParseUnsignedFixed(body: string, d: nat): Option<nat>
  {
    if |body| < d + 2 || body[|body| - d - 1] != '.' then None
    else
      var ip, fp := body[..|body| - d - 1], body[|body| - d..];
      if !AllDigits(ip) || !AllDigits(fp) then None else Some(DigitsValue(ip + fp))
  }

  /** The unsigned part of a well-formed fixed-point text splits back into its digits. */
  lemma SplitFixedBody(ns: string, ps: string, d: nat)
    requires |ns| > 0 && |ps| == d
    ensures var body := ns + "." + ps;
            |body| >= d + 2 && body[|body| - d - 1] == '.'
            && body[..|body| - d - 1] == ns && body[|body| - d..] == ps
  {
  }

  /** The unsigned reading of a text that starts with a digit carries over to
      the text with or without a leading '-'. */
  lemma ParseFixedSign(neg: bool, body: string, d: nat, v: nat)
    requires d > 0 && |body| > 0 && IsDigit(body[0]) && ParseUnsignedFixed(body, d) == Some(v)
    ensures ParseFixed((if neg then "-" else "") + body, d) == Some(if neg then -(v as int) else v)
  {
    var s := (if neg then "-" else "") + body;
    if neg {
      assert s[0] == '-' && s[1..] == body;
    } else {
      assert s == body;
    }
  }

  lemma ParseUnsignedFixedParts(ns: string, ps: string, d: nat)
    requires |ns| > 0 && AllDigits(ns) && |ps| == d && AllDigits(ps)
    ensures ParseUnsignedFixed(ns + "." + ps, d) == Some(DigitsValue(ns + ps))
  {
    var body := ns + "." + ps;
    SplitFixedBody(ns, ps, d);
    assert body[..|body| - d - 1] == ns && body[|body| - d..] == ps;
  }

  /** ParseFixed reads the parts of a well-formed fixed-point text. */
  lemma ParseFixedParts(neg: bool, ns: string, ps: string, d: nat)
    requires d > 0 && |ns| > 0 && AllDigits(ns) && |ps| == d && AllDigits(ps)
    ensures var v: int := DigitsValue(ns + ps);
            ParseFixed((if neg then "-" else "") + (ns + "." + ps), d) == Some(if neg then -v else v)
  {
    ParseUnsignedFixedParts(ns, ps, d);
    assert (ns + "." + ps)[0] == ns[0];
    ParseFixedSign(neg, ns + "." + ps, d, DigitsValue(ns + ps));
  }

  lemma FixedPointRoundTrip(n: int, d: nat)
    requires d > 0
    ensures ParseFixed(FixedPoint(n, d), d) == Some(n)
  {
    var a: nat := if n < 0 then -n else n;
    ParseFixedParts(n < 0, NatToString(Shift(a, d)), LowDigits(a, d), d);
    ShiftLowDigitsValue(a, d);
  }
}
