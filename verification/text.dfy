/** String handling the handlers rely on: Python's notion of a falsy request
    parameter, `str.strip`, ASCII case mapping, and the numeric parsers behind
    `int(...)`, `float(...)` and `Decimal(...)` on the literal forms the
    handlers receive. */
module Text {
  import opened Optional

  // ---------------------------------------------------------------------
  // Request parameters
  // ---------------------------------------------------------------------

  /** A request parameter is truthy in Python when present and non-empty. */
  predicate Truthy(p: Option<string>) {
    p.Some? && p.value != ""
  }

  /** Python's `a or b` on two optional string parameters. */
  function Or(a: Option<string>, b: Option<string>): (r: Option<string>)
    ensures Truthy(a) ==> r == a
    ensures !Truthy(a) ==> r == b
    ensures Truthy(r) <==> Truthy(a) || Truthy(b)
  {
    if Truthy(a) then a else b
  }

  /** Python's `a or default` with a literal default. */
  function OrElse(a: Option<string>, default: string): (r: string)
    ensures Truthy(a) ==> r == a.value
    ensures !Truthy(a) ==> r == default
  {
    if Truthy(a) then a.value else default
  }

  // ---------------------------------------------------------------------
  // Whitespace and case
  // ---------------------------------------------------------------------

  /** The characters `str.isspace` accepts, hence the ones `str.strip()` removes. */
  predicate IsSpace(c: char) {
    var n := c as int;
    || 9 <= n <= 13 || 28 <= n <= 32 || n == 0x85 || n == 0xA0 || n == 0x1680
    || 0x2000 <= n <= 0x200A || n == 0x2028 || n == 0x2029 || n == 0x202F
    || n == 0x205F || n == 0x3000
  }

  function StripLeft(s: string): (r: string)
    ensures |r| <= |s| && r == s[|s| - |r|..]
    ensures forall i :: 0 <= i < |s| - |r| ==> IsSpace(s[i])
    ensures |r| > 0 ==> !IsSpace(r[0])
  {
    if |s| > 0 && IsSpace(s[0]) then StripLeft(s[1..]) else s
  }

  function StripRight(s: string): (r: string)
    ensures |r| <= |s| && r == s[..|r|]
    ensures forall i :: |r| <= i < |s| ==> IsSpace(s[i])
    ensures |r| > 0 ==> !IsSpace(r[|r| - 1])
  {
    if |s| > 0 && IsSpace(s[|s| - 1]) then StripRight(s[..|s| - 1]) else s
  }

  /** Number of leading whitespace characters of `s`. */
  function LeadingSpace(s: string): (k: nat)
    ensures k <= |s|
  {
    |s| - |StripLeft(s)|
  }

  /** `s.strip()`: the infix of `s` with no whitespace at either end, obtained
      by removing only whitespace. */
  function Strip(s: string): (r: string)
    ensures |r| > 0 ==> !IsSpace(r[0]) && !IsSpace(r[|r| - 1])
    ensures LeadingSpace(s) + |r| <= |s| && r == s[LeadingSpace(s)..LeadingSpace(s) + |r|]
    ensures forall i :: 0 <= i < LeadingSpace(s) ==> IsSpace(s[i])
    ensures forall i :: LeadingSpace(s) + |r| <= i < |s| ==> IsSpace(s[i])
  {
    var l := StripLeft(s);
    var r := StripRight(l);
    var k := |s| - |l|;
    assert r == s[k..k + |r|];
    r
  }

  /** A string that neither starts nor ends with whitespace is its own strip. */
  lemma StripUnpadded(s: string)
    requires |s| > 0 && !IsSpace(s[0]) && !IsSpace(s[|s| - 1])
    ensures Strip(s) == s
  {
    assert StripLeft(s) == s;
    assert StripRight(s) == s;
  }

  function UpperChar(c: char): char {
    if 'a' <= c <= 'z' then (c as int - 32) as char else c
  }

  function LowerChar(c: char): char {
    if 'A' <= c <= 'Z' then (c as int + 32) as char else c
  }

  /** `s.upper()` on ASCII letters. */
  function Upper(s: string): (r: string)
    ensures |r| == |s|
    ensures forall i :: 0 <= i < |s| ==> r[i] == UpperChar(s[i])
    ensures forall i :: 0 <= i < |r| ==> !('a' <= r[i] <= 'z')
  {
    seq(|s|, i requires 0 <= i < |s| => UpperChar(s[i]))
  }

  /** `s.lower()` on ASCII letters. */
  function Lower(s: string): (r: string)
    ensures |r| == |s|
    ensures forall i :: 0 <= i < |s| ==> r[i] == LowerChar(s[i])
    ensures forall i :: 0 <= i < |r| ==> !('A' <= r[i] <= 'Z')
  {
    seq(|s|, i requires 0 <= i < |s| => LowerChar(s[i]))
  }

  // ---------------------------------------------------------------------
  // Digits
  // ---------------------------------------------------------------------

  predicate IsDigit(c: char) {
    '0' <= c <= '9'
  }

  predicate AllDigits(s: string) {
    forall i :: 0 <= i < |s| ==> IsDigit(s[i])
  }

  function DigitChar(d: nat): (c: char)
    requires d < 10
    ensures IsDigit(c) && c as int - '0' as int == d
  {
    ('0' as int + d) as char
  }

  /** The value of a decimal digit string, most significant digit first. */
  function DigitsValue(s: string): nat
    requires AllDigits(s)
  {
    if |s| == 0 then 0 else DigitsValue(s[..|s| - 1]) * 10 + (s[|s| - 1] as int - '0' as int)
  }

  function Pow10(k: nat): (r: nat)
    ensures r >= 1
  {
    if k == 0 then 1 else 10 * Pow10(k - 1)
  }

  /** Canonical decimal rendering of a natural number (Python's `str(n)`). */
  function ShowNat(n: nat): (s: string)
    ensures |s| > 0 && AllDigits(s)
    decreases n
  {
    if n < 10 then [DigitChar(n)] else ShowNat(n / 10) + [DigitChar(n % 10)]
  }

  lemma {:induction false} DigitsOfShowNat(n: nat)
    ensures DigitsValue(ShowNat(n)) == n
    decreases n
  {
    if n >= 10 {
      var a := ShowNat(n / 10);
      var s := a + [DigitChar(n % 10)];
      assert s[..|s| - 1] == a;
      DigitsOfShowNat(n / 10);
    }
  }

  // ---------------------------------------------------------------------
  // Numeric parsing
  // ---------------------------------------------------------------------

  /** Splits an optional leading sign off a literal: (is negative, rest). */
  function SplitSign(s: string): (r: (bool, string))
    ensures |r.1| <= |s|
  {
    if |s| > 0 && s[0] == '-' then (true, s[1..])
    else if |s| > 0 && s[0] == '+' then (false, s[1..])
    else (false, s)
  }

  /** Python's `int(s)` for a string: surrounding whitespace, an optional sign
      and at least one ASCII digit; anything else raises, modelled as `None`. */
  function ParseInt(s: string): (r: Option<int>)
    ensures r.Some? <==> (var b := SplitSign(Strip(s)).1; |b| > 0 && AllDigits(b))
  {
    var (neg, body) := SplitSign(Strip(s));
    if |body| > 0 && AllDigits(body) then
      var v: int := DigitsValue(body);
      Some(if neg then -v else v)
    else None
  }

  /** Python's `str(n)` for an integer. */
  function ShowInt(n: int): (s: string)
    ensures |s| > 0
  {
    if n < 0 then "-" + ShowNat(-n) else ShowNat(n)
  }

  /** Rendering an integer and parsing it back gives the integer. */
  lemma {:induction false} ParseShowInt(n: int)
    ensures ParseInt(ShowInt(n)) == Some(n)
  {
    var d := if n < 0 then -n else n;
    DigitsOfShowNat(d);
    var digits := ShowNat(d);
    assert IsDigit(digits[0]) && IsDigit(digits[|digits| - 1]);
    if n < 0 {
      ParseSigned(digits);
    } else {
      StripUnpadded(digits);
      assert SplitSign(Strip(digits)) == (false, digits);
    }
  }

  /** A minus sign followed by digits parses to the negated digits' value. */
  lemma ParseSigned(digits: string)
    requires |digits| > 0 && AllDigits(digits)
    ensures ParseInt("-" + digits) == Some(-(DigitsValue(digits) as int))
  {
    var s := "-" + digits;
    assert s[1..] == digits && s[|s| - 1] == digits[|digits| - 1];
    StripUnpadded(s);
    assert SplitSign(Strip(s)) == (true, digits);
  }

  /** First index of `c` in `s`. */
  function IndexOf(s: string, c: char): (r: Option<nat>)
    ensures r.Some? ==> r.value < |s| && s[r.value] == c
    ensures r.Some? ==> forall i :: 0 <= i < r.value ==> s[i] != c
    ensures r.None? ==> forall i :: 0 <= i < |s| ==> s[i] != c
  {
    if |s| == 0 then None
    else if s[0] == c then Some(0)
    else match IndexOf(s[1..], c)
      case None => None
      case Some(i) => Some(i + 1)
  }

  /** The value of an unsigned decimal literal `digits[.digits]` with at least
      one digit, or `None`. */
  function UnsignedDecimal(b: string): (r: Option<real>)
    ensures r.Some? ==> r.value >= 0.0
  {
    match IndexOf(b, '.')
    case None =>
      if |b| > 0 && AllDigits(b) then Some(DigitsValue(b) as real) else None
    case Some(k) =>
      var whole := b[..k];
      var frac := b[k + 1..];
      if AllDigits(whole) && AllDigits(frac) && |whole| + |frac| > 0 then
        Some(PointValue(whole, frac))
      else None
  }

  /** The value of `.frac` for a digit string: its digits over ten to the
      power of their count. */
  function FractionValue(frac: string): (v: real)
    requires AllDigits(frac)
    ensures 0.0 <= v < 1.0
  {
    DigitsBelowPow10(frac);
    FractionBelowOne(DigitsValue(frac), Pow10(|frac|));
    (DigitsValue(frac) as real) / (Pow10(|frac|) as real)
  }

  /** The value of `whole.frac` for two digit strings. */
  function PointValue(whole: string, frac: string): (v: real)
    requires AllDigits(whole) && AllDigits(frac)
    ensures DigitsValue(whole) as real <= v < DigitsValue(whole) as real + 1.0
  {
    DigitsValue(whole) as real + FractionValue(frac)
  }

  /** A digit string is worth less than ten to the power of its length. */
  lemma {:induction false} DigitsBelowPow10(s: string)
    requires AllDigits(s)
    ensures DigitsValue(s) < Pow10(|s|)
  {
    if |s| > 0 {
      DigitsBelowPow10(s[..|s| - 1]);
    }
  }

  /** A proper fraction of naturals lies in [0, 1). */
  lemma FractionBelowOne(d: nat, p: nat)
    requires d < p
    ensures 0.0 <= (d as real) / (p as real) < 1.0
  {
    var q := (d as real) / (p as real);
    assert q * (p as real) == d as real;
  }

  /** The shape of an unsigned decimal literal: digits and at most one
      decimal point, with at least one digit somewhere. */
  predicate DecimalLiteral(b: string) {
    && (forall i :: 0 <= i < |b| ==> IsDigit(b[i]) || b[i] == '.')
    && (forall i, j :: 0 <= i < j < |b| && b[i] == '.' ==> b[j] != '.')
    && exists i :: 0 <= i < |b| && IsDigit(b[i])
  }

  /** `UnsignedDecimal` accepts exactly the decimal literals. */
  lemma UnsignedDecimalAccepts(b: string)
    ensures UnsignedDecimal(b).Some? <==> DecimalLiteral(b)
  {
    match IndexOf(b, '.')
    case None =>
      if |b| > 0 && AllDigits(b) {
        assert IsDigit(b[0]);
      }
    case Some(k) =>
      var whole, frac := b[..k], b[k + 1..];
      if AllDigits(whole) && AllDigits(frac) && |whole| + |frac| > 0 {
        forall i | 0 <= i < |b| && i != k
          ensures IsDigit(b[i])
        {
          if i < k { assert b[i] == whole[i]; } else { assert b[i] == frac[i - k - 1]; }
        }
        if |whole| > 0 { assert IsDigit(b[0]); } else { assert IsDigit(b[k + 1]); }
      }
      if DecimalLiteral(b) {
        forall i | 0 <= i < |whole|
          ensures IsDigit(whole[i])
        {
          assert whole[i] == b[i];
        }
        forall i | 0 <= i < |frac|
          ensures IsDigit(frac[i])
        {
          assert frac[i] == b[k + 1 + i];
        }
        var d :| 0 <= d < |b| && IsDigit(b[d]);
        assert d != k;
      }
  }

  /** Python's `float(s)` / `Decimal(s)` on plain decimal literals, computed
      exactly: surrounding whitespace, an optional sign, digits with at most one
      decimal point. */
  function ParseDecimal(s: string): (r: Option<real>)
    ensures r.Some? <==> UnsignedDecimal(SplitSign(Strip(s)).1).Some?
    ensures r.Some? && !SplitSign(Strip(s)).0 ==> r.value >= 0.0
    ensures r.Some? && SplitSign(Strip(s)).0 ==> r.value <= 0.0
  {
    var (neg, body) := SplitSign(Strip(s));
    match UnsignedDecimal(body)
    case None => None
    case Some(v) => Some(if neg then -v else v)
  }

  /** A whole number written without a decimal point parses to itself. */
  lemma {:induction false} ParseDecimalShowNat(n: nat)
    ensures ParseDecimal(ShowNat(n)) == Some(n as real)
  {
    var s := ShowNat(n);
    DigitsOfShowNat(n);
    assert IsDigit(s[0]) && IsDigit(s[|s| - 1]);
    StripUnpadded(s);
    assert SplitSign(s) == (false, s);
    assert IndexOf(s, '.') == None;
  }

  /** The first occurrence of `c` is found where it is. */
  lemma IndexOfFirst(s: string, c: char, k: nat)
    requires k < |s| && s[k] == c
    requires forall i :: 0 <= i < k ==> s[i] != c
    ensures IndexOf(s, c) == Some(k)
  {
  }

  /** A digit string, a point and a digit string form an unsigned literal
      worth the whole part plus the scaled-down fraction. */
  lemma UnsignedDecimalPoint(whole: string, ds: string)
    requires AllDigits(whole) && AllDigits(ds) && |whole| + |ds| > 0
    ensures UnsignedDecimal(whole + "." + ds) == Some(PointValue(whole, ds))
  {
    var s := whole + "." + ds;
    forall i | 0 <= i < |whole|
      ensures s[i] != '.'
    {
      assert s[i] == whole[i];
    }
    var k := |whole|;
    IndexOfFirst(s, '.', k);
    assert s[..k] == whole;
    assert s[k + 1..] == ds;
    assert AllDigits(s[..k]) && AllDigits(s[k + 1..]);
    assert UnsignedDecimal(s) == Some(PointValue(whole, ds));
  }

  /** An unpadded literal that does not start with a sign parses to its
      unsigned value. */
  lemma ParseDecimalUnsigned(t: string)
    requires |t| > 0 && (IsDigit(t[0]) || t[0] == '.') && !IsSpace(t[|t| - 1])
    ensures ParseDecimal(t) == UnsignedDecimal(t)
  {
    StripUnpadded(t);
    assert SplitSign(t) == (false, t);
  }

  /** `ParseDecimal` accepts exactly an optional sign followed by a decimal
      literal, with whitespace around. */
  lemma ParseDecimalAccepts(s: string)
    ensures ParseDecimal(s).Some? <==> DecimalLiteral(SplitSign(Strip(s)).1)
  {
    UnsignedDecimalAccepts(SplitSign(Strip(s)).1);
  }

  /** A whole part, a point and a fraction part parse to the whole part plus
      the fraction's digits scaled down by their count. */
  lemma ParseDecimalFraction(w: nat, ds: string)
    requires AllDigits(ds)
    ensures ParseDecimal(ShowNat(w) + "." + ds).Some?
    ensures ParseDecimal(ShowNat(w) + "." + ds).value == w as real + FractionValue(ds)
  {
    PointValueOfShowNat(w, ds);
    ParseDecimalPoint(ShowNat(w), ds);
  }

  /** A non-empty whole part, a point and a fraction part parse to their
      point value. */
  lemma ParseDecimalPoint(whole: string, ds: string)
    requires |whole| > 0 && AllDigits(whole) && AllDigits(ds)
    ensures ParseDecimal(whole + "." + ds) == Some(PointValue(whole, ds))
  {
    UnsignedDecimalPoint(whole, ds);
    PointLiteralEnds(whole, ds);
    ParseDecimalUnsigned(whole + "." + ds);
  }

  /** The value of a point literal whose whole part is `w` written out. */
  lemma PointValueOfShowNat(w: nat, ds: string)
    requires AllDigits(ds)
    ensures AllDigits(ShowNat(w)) && PointValue(ShowNat(w), ds) == w as real + FractionValue(ds)
  {
    DigitsOfShowNat(w);
  }

  /** A point literal with a whole part starts with a digit and ends with a
      digit or the point. */
  lemma PointLiteralEnds(whole: string, ds: string)
    requires |whole| > 0 && AllDigits(whole) && AllDigits(ds)
    ensures var s := whole + "." + ds; IsDigit(s[0]) && !IsSpace(s[|s| - 1])
  {
    var s := whole + "." + ds;
    assert s[0] == whole[0];
    assert s[|s| - 1] == if |ds| == 0 then '.' else ds[|ds| - 1];
  }

  /** A minus sign in front of an unpadded literal is split off whole. */
  lemma StripSigned(t: string)
    requires |t| > 0 && !IsSpace(t[|t| - 1])
    ensures SplitSign(Strip("-" + t)) == (true, t)
  {
    var s := "-" + t;
    assert s[1..] == t && s[|s| - 1] == t[|t| - 1];
    StripUnpadded(s);
  }

  /** A leading minus sign negates the value of an unpadded literal that
      does not itself carry a sign. */
  lemma ParseDecimalNegated(t: string)
    requires |t| > 0 && (IsDigit(t[0]) || t[0] == '.') && !IsSpace(t[|t| - 1])
    ensures ParseDecimal("-" + t).Some? <==> ParseDecimal(t).Some?
    ensures ParseDecimal(t).Some? ==> ParseDecimal("-" + t).value == -ParseDecimal(t).value
  {
    ParseDecimalUnsigned(t);
    StripSigned(t);
  }

  /** Python's `int(x)` on a number: truncation toward zero. */
  function Trunc(x: real): (r: int)
    ensures x >= 0.0 ==> r >= 0 && r as real <= x < r as real + 1.0
    ensures x < 0.0 ==> r <= 0 && r as real - 1.0 < x <= r as real
  {
    if x >= 0.0 then x.Floor else -((-x).Floor)
  }

  /** `int(float(text or "0"))` where an unparseable text counts as 0: the
      amount handling the partner postbacks share. The `"0"` fallback is
      written as its value (see `IntOfFloatFallback`). */
  function IntOfFloatOrZero(text: Option<string>): (c: int)
    ensures !Truthy(text) ==> c == 0
    ensures Truthy(text) && ParseDecimal(text.value).None? ==> c == 0
    ensures Truthy(text) && ParseDecimal(text.value).Some? ==> c == Trunc(ParseDecimal(text.value).value)
  {
    if !Truthy(text) then 0
    else match ParseDecimal(text.value)
      case None => 0
      case Some(v) => Trunc(v)
  }

  /** `IntOfFloatOrZero` agrees with parsing the text the source parses,
      the `"0"` fallback included. */
  lemma IntOfFloatFallback(text: Option<string>)
    ensures var parsed := ParseDecimal(OrElse(text, "0"));
            IntOfFloatOrZero(text) == if parsed.Some? then Trunc(parsed.value) else 0
  {
    if !Truthy(text) {
      assert ShowNat(0) == "0";
      ParseDecimalShowNat(0);
    }
  }
}
