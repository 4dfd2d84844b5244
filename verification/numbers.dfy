/**
 * Decimal number parsing, standing in for Python's int() and float() on the
 * text of one CSV cell. Integers: an optional sign, then ASCII digits.
 * Decimals: an optional sign, digits with at most one decimal point and at
 * least one digit, then optionally an exponent marker e or E followed by an
 * integer. Decimals are exact rationals.
 */
module Numbers {
  import opened Wrappers

  predicate IsDigit(c: char) {
    '0' <= c <= '9'
  }

  predicate AllDigits(s: string) {
    forall i :: 0 <= i < |s| ==> IsDigit(s[i])
  }

  function DigitValue(c: char): (d: nat)
    requires IsDigit(c)
    ensures d < 10
  {
    (c as int) - ('0' as int)
  }

  function DigitChar(d: nat): (c: char)
    requires d < 10
    ensures IsDigit(c) && DigitValue(c) == d
  {
    ('0' as int + d) as char
  }

  /** The value of a string of digits, most significant digit first. */
  function DigitsValue(s: string): nat
    requires AllDigits(s)
  {
    if s == [] then 0 else 10 * DigitsValue(s[..|s| - 1]) + DigitValue(s[|s| - 1])
  }

  function Pow10(k: nat): (p: nat)
    ensures p >= 1
  {
    if k == 0 then 1 else 10 * Pow10(k - 1)
  }

  /** The canonical decimal spelling of a natural number (no sign, no leading zeros). */
  function NatToDigits(n: nat): string
  {
    if n < 10 then [DigitChar(n)] else NatToDigits(n / 10) + [DigitChar(n % 10)]
  }

  /** The canonical decimal spelling of an integer, as Python's str() writes it. */
  function IntToString(n: int): string
  {
    if n < 0 then "-" + NatToDigits(-n) else NatToDigits(n)
  }

  /** An optional leading sign, split off: the sign as a factor and the rest of the text. */
  function SplitSign(s: string): (r: (int, string))
    ensures r.0 == -1 <==> |s| > 0 && s[0] == '-'
    ensures r.0 == 1 <==> !(|s| > 0 && s[0] == '-')
    ensures r.1 == if |s| > 0 && (s[0] == '-' || s[0] == '+') then s[1..] else s
  {
    if |s| > 0 && s[0] == '-' then (-1, s[1..])
    else if |s| > 0 && s[0] == '+' then (1, s[1..])
    else (1, s)
  }

  /** Position of the first character of s in marks, or |s| when there is none. */
  function FirstOf(s: string, marks: set<char>): (k: nat)
    ensures k <= |s|
    ensures k < |s| ==> s[k] in marks
    ensures forall j :: 0 <= j < k ==> s[j] !in marks
  {
    if s == [] then 0
    else if s[0] in marks then 0
    else 1 + FirstOf(s[1..], marks)
  }

  /** 10 raised to an integer power, as an exact rational. */
  function Scale(e: int): (r: real)
    ensures r > 0.0
  {
    if e >= 0 then Pow10(e) as real else 1.0 / Pow10(-e) as real
  }

  /** int(s): an optional sign and at least one digit; anything else fails. */
  function ParseInt(s: string): (r: Option<int>)
    ensures r.Some? ==> |s| > 0 && forall i :: 0 <= i < |s| ==> IsDigit(s[i]) || (i == 0 && (s[i] == '-' || s[i] == '+'))
    ensures r.Some? && |s| > 0 && s[0] == '-' ==> r.value <= 0
    ensures r.Some? && !(|s| > 0 && s[0] == '-') ==> r.value >= 0
  {
    var (sign, body) := SplitSign(s);
    if body != [] && AllDigits(body) then Some(sign * DigitsValue(body)) else None
  }

  /** The exact value of the digits whole, a point, and the digits frac. */
  function DecimalValue(whole: string, frac: string): (r: real)
    requires AllDigits(whole) && AllDigits(frac)
    ensures r >= 0.0
  {
    DigitsValue(whole) as real + DigitsValue(frac) as real / Pow10(|frac|) as real
  }

  /** The digits of a mantissa, with at most one decimal point and at least one digit. */
  function ParseMantissa(m: string): (r: Option<real>)
    ensures r.Some? ==> r.value >= 0.0
  {
    var p := FirstOf(m, {'.'});
    var whole := m[..p];
    var frac := if p < |m| then m[p + 1..] else [];
    if AllDigits(whole) && AllDigits(frac) && |whole| + |frac| > 0 then
      Some(DecimalValue(whole, frac))
    else
      None
  }

  /** A magnitude times 10 raised to an exponent. */
  function Scaled(magnitude: real, exponent: int): (r: real)
    ensures magnitude >= 0.0 ==> r >= 0.0
  {
    magnitude * Scale(exponent)
  }

  /** An unsigned decimal: a mantissa, then optionally e or E and an integer exponent. */
  function ParseUnsigned(body: string): (r: Option<real>)
    ensures r.Some? ==> r.value >= 0.0
  {
    var e := FirstOf(body, {'e', 'E'});
    var magnitude := ParseMantissa(body[..e]);
    var exponent := if e < |body| then ParseInt(body[e + 1..]) else Some(0);
    if magnitude.Some? && exponent.Some? then Some(Scaled(magnitude.value, exponent.value)) else None
  }

  /** float(s): an optional sign, then an unsigned decimal. */
  function ParseFloat(s: string): (r: Option<real>)
    ensures r.Some? && |s| > 0 && s[0] == '-' ==> r.value <= 0.0
    ensures r.Some? && !(|s| > 0 && s[0] == '-') ==> r.value >= 0.0
  {
    var (sign, body) := SplitSign(s);
    var unsigned := ParseUnsigned(body);
    if unsigned.None? then None
    else if sign < 0 then Some(-unsigned.value)
    else Some(unsigned.value)
  }

  lemma {:induction false} NatToDigitsWellFormed(n: nat)
    ensures NatToDigits(n) != [] && AllDigits(NatToDigits(n))
    ensures DigitsValue(NatToDigits(n)) == n
  {
    if n >= 10 {
      NatToDigitsWellFormed(n / 10);
      var s := NatToDigits(n / 10);
      var t := s + [DigitChar(n % 10)];
      assert t[..|t| - 1] == s;
    }
  }

  /** Reading back a printed integer gives the integer: int(str(n)) == n. */
  lemma ParseIntRoundTrip(n: int)
    ensures ParseInt(IntToString(n)) == Some(n)
  {
    NatToDigitsWellFormed(if n < 0 then -n else n);
    if n < 0 {
      var d := NatToDigits(-n);
      assert ("-" + d)[1..] == d;
    } else {
      var d := NatToDigits(n);
      assert IsDigit(d[0]);
    }
  }

  /** Every string int() accepts, float() accepts too, with the same value. */
  lemma ParseFloatExtendsParseInt(s: string)
    requires ParseInt(s).Some?
    ensures ParseFloat(s) == Some(ParseInt(s).value as real)
  {
    var (sign, body) := SplitSign(s);
    var e := FirstOf(body, {'e', 'E'});
    assert e == |body| by {
      assert forall j :: 0 <= j < |body| ==> body[j] !in {'e', 'E'};
    }
    assert body[..e] == body;
    var p := FirstOf(body, {'.'});
    assert p == |body| by {
      assert forall j :: 0 <= j < |body| ==> body[j] !in {'.'};
    }
    assert body[..p] == body;
    assert ParseMantissa(body) == Some(DigitsValue(body) as real);
    assert ParseUnsigned(body) == Some(DigitsValue(body) as real);
  }

  /** A string holding a decimal point is never an integer: int("1.0") fails. */
  lemma ParseIntRejectsPoint(s: string, i: nat)
    requires i < |s| && s[i] == '.'
    ensures ParseInt(s) == None
  {
  }

  /** The first mark is at k when s[k] is a mark and nothing before it is. */
  lemma FirstOfAt(s: string, marks: set<char>, k: nat)
    requires k < |s| && s[k] in marks
    requires forall j :: 0 <= j < k ==> s[j] !in marks
    ensures FirstOf(s, marks) == k
  {
  }

  /** A mantissa written as digits, a point and digits reads back as its exact value. */
  lemma ParseMantissaDecimal(whole: string, frac: string)
    requires AllDigits(whole) && AllDigits(frac) && |whole| + |frac| > 0
    ensures ParseMantissa(whole + "." + frac) ==
              Some(DecimalValue(whole, frac))
  {
    var mantissa := whole + "." + frac;
    forall j | 0 <= j < |whole|
      ensures mantissa[j] !in {'.'}
    {
      assert mantissa[j] == whole[j];
    }
    FirstOfAt(mantissa, {'.'}, |whole|);
    var p := FirstOf(mantissa, {'.'});
    assert p == |whole|;
    assert p < |mantissa|;
    assert mantissa[..p] == whole;
    assert mantissa[p + 1..] == frac;
    var v := DecimalValue(whole, frac);
    assert ParseMantissa(mantissa) == Some(v);
  }

  /** Digits, a point, digits and an exponent, unsigned, read back as their exact value. */
  lemma ParseUnsignedScientific(whole: string, frac: string, exponent: int)
    requires AllDigits(whole) && AllDigits(frac) && |whole| + |frac| > 0
    ensures ParseUnsigned(whole + "." + frac + "e" + IntToString(exponent)) ==
              Some(Scaled(DecimalValue(whole, frac), exponent))
  {
    var text := whole + "." + frac + "e" + IntToString(exponent);
    var mantissa := whole + "." + frac;
    assert text == mantissa + "e" + IntToString(exponent);
    forall j | 0 <= j < |mantissa|
      ensures text[j] !in {'e', 'E'}
    {
      assert text[j] == mantissa[j];
      assert mantissa[j] == '.' || IsDigit(mantissa[j]);
    }
    FirstOfAt(text, {'e', 'E'}, |mantissa|);
    assert text[..|mantissa|] == mantissa;
    assert text[|mantissa| + 1..] == IntToString(exponent);
    ParseIntRoundTrip(exponent);
    ParseMantissaDecimal(whole, frac);
  }

  /** Reading back a number written as digits, a point, digits and an exponent gives its exact value. */
  lemma ParseFloatScientific(whole: string, frac: string, exponent: int)
    requires AllDigits(whole) && AllDigits(frac) && |whole| + |frac| > 0
    ensures ParseFloat(whole + "." + frac + "e" + IntToString(exponent)) ==
              Some(Scaled(DecimalValue(whole, frac), exponent))
  {
    var text := whole + "." + frac + "e" + IntToString(exponent);
    assert text[0] == if whole == [] then '.' else whole[0];
    assert SplitSign(text) == (1, text);
    ParseUnsignedScientific(whole, frac, exponent);
  }
}
