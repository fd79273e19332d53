/** The string layer of the fixed-precision decimal encoding: Python's
    `str(n)` for an `int` n (an optional `-` and the digits of |n|, no leading
    zeros), and the part of Python's `Decimal(s)` grammar that such a string
    uses (an optional `-` followed by decimal digits). */
module IntStrings {
  import opened Wrappers

  predicate IsDigit(c: char) {
    '0' <= c <= '9'
  }

  predicate AllDigits(s: string) {
    forall i :: 0 <= i < |s| ==> IsDigit(s[i])
  }

  function DigitValue(c: char): (d: nat)
    requires IsDigit(c)
    ensures d < 10
  {
    c as int - '0' as int
  }

  function DigitChar(d: nat): (c: char)
    requires d < 10
    ensures IsDigit(c) && DigitValue(c) == d
  {
    ('0' as int + d) as char
  }

  /** The number a string of decimal digits denotes, most significant digit
      first; leading zeros are allowed, as `Decimal("007")` allows them. */
  function DigitsValue(s: string): nat
    requires AllDigits(s)
  {
    if s == [] then 0 else DigitsValue(s[..|s| - 1]) * 10 + DigitValue(s[|s| - 1])
  }

  /** Digits without a superfluous leading zero: "0", or a non-empty digit
      string that does not start with '0'. */
  predicate IsCanonicalDigits(s: string) {
    |s| > 0 && AllDigits(s) && (s[0] == '0' ==> |s| == 1)
  }

  /** Exactly the strings Python's `str` produces for an `int`. */
  predicate IsCanonicalInt(s: string) {
    if |s| > 0 && s[0] == '-' then IsCanonicalDigits(s[1..]) && s[1] != '0'
    else IsCanonicalDigits(s)
  }

  /** The strings the decoder accepts: an optional '-' and at least one digit;
      no '+', point, exponent, whitespace or underscore. */
  predicate IsIntLiteral(s: string) {
    if |s| > 0 && s[0] == '-' then |s| > 1 && AllDigits(s[1..])
    else |s| > 0 && AllDigits(s)
  }

  /** Python's `str(n)` for a non-negative `int`. */
  function NatToString(n: nat): (s: string)
    ensures IsCanonicalDigits(s)
    ensures s[0] == '0' <==> n == 0
  {
    if n < 10 then [DigitChar(n)] else NatToString(n / 10) + [DigitChar(n % 10)]
  }

  /** Python's `str(n)` for an `int`. */
  function IntToString(n: int): (s: string)
    ensures IsCanonicalInt(s)
    ensures s[0] == '-' <==> n < 0
  {
    if n < 0 then "-" + NatToString(-n) else NatToString(n)
  }

  /** Parses a sign-and-digits string; anything else is rejected. */
  function ParseInt(s: string): (r: Option<int>)
    ensures r.Some? <==> IsIntLiteral(s)
    ensures r.Some? && |s| > 0 && s[0] == '-' ==> r.value <= 0
    ensures r.Some? && |s| > 0 && s[0] != '-' ==> r.value >= 0
  {
    if |s| > 0 && s[0] == '-' then
      if |s| > 1 && AllDigits(s[1..]) then Some(-(DigitsValue(s[1..]) as int)) else None
    else if |s| > 0 && AllDigits(s) then Some(DigitsValue(s))
    else None
  }

  lemma DigitsValueSnoc(s: string, c: char)
    requires AllDigits(s) && IsDigit(c)
    ensures AllDigits(s + [c])
    ensures DigitsValue(s + [c]) == DigitsValue(s) * 10 + DigitValue(c)
  {
    assert (s + [c])[..|s|] == s;
  }

  /** The digits printed for n denote n. */
  lemma {:induction false} NatToStringValue(n: nat)
    ensures DigitsValue(NatToString(n)) == n
  {
    if n >= 10 {
      NatToStringValue(n / 10);
      DigitsValueSnoc(NatToString(n / 10), DigitChar(n % 10));
    }
  }

  /** A digit string that does not start with '0' denotes a positive number. */
  lemma {:induction false} LeadingNonZeroPositive(s: string)
    requires |s| > 0 && AllDigits(s) && s[0] != '0'
    ensures DigitsValue(s) >= 1
  {
    if |s| > 1 {
      var p := s[..|s| - 1];
      assert p[0] == s[0];
      LeadingNonZeroPositive(p);
    }
  }

  /** Printing the number a canonical digit string denotes gives that string
      back: the printer reaches every canonical digit string. */
  lemma {:induction false} CanonicalDigitsRoundTrip(s: string)
    requires IsCanonicalDigits(s)
    ensures NatToString(DigitsValue(s)) == s
  {
    var p, c := s[..|s| - 1], s[|s| - 1];
    assert s == p + [c];
    if |s| == 1 {
      assert DigitsValue(p) == 0;
    } else {
      assert p[0] == s[0] != '0';
      CanonicalDigitsRoundTrip(p);
      LeadingNonZeroPositive(p);
      var n := DigitsValue(s);
      assert n == DigitsValue(p) * 10 + DigitValue(c) && n >= 10;
      assert n / 10 == DigitsValue(p) && n % 10 == DigitValue(c);
      assert DigitChar(DigitValue(c)) == c;
    }
  }

  /** Decoding what the printer produced gives back the number. */
  lemma IntRoundTrip(n: int)
    ensures ParseInt(IntToString(n)) == Some(n)
  {
    var s := IntToString(n);
    if n < 0 {
      assert s[1..] == NatToString(-n);
      NatToStringValue(-n);
    } else {
      NatToStringValue(n);
    }
  }

  /** Printing what the decoder read from a canonical literal gives the
      literal back, so `IntToString` is a bijection between the integers and
      the canonical literals. */
  lemma CanonicalRoundTrip(s: string)
    requires IsCanonicalInt(s)
    ensures ParseInt(s).Some? && IntToString(ParseInt(s).value) == s
  {
    if s[0] == '-' {
      CanonicalDigitsRoundTrip(s[1..]);
      LeadingNonZeroPositive(s[1..]);
      assert s == "-" + s[1..];
    } else {
      CanonicalDigitsRoundTrip(s);
    }
  }

  /** The printer never emits two strings for one number, nor one string for
      two numbers. */
  lemma IntToStringInjective(m: int, n: int)
    ensures IntToString(m) == IntToString(n) <==> m == n
  {
    IntRoundTrip(m);
    IntRoundTrip(n);
  }

  /** A leading zero does not change the number a digit string denotes. */
  lemma {:induction false} DigitsValueLeadingZero(s: string)
    requires AllDigits(s)
    ensures AllDigits("0" + s) && DigitsValue("0" + s) == DigitsValue(s)
  {
    assert AllDigits("0" + s) by {
      forall i | 0 <= i < |"0" + s| ensures IsDigit(("0" + s)[i]) {
        if i > 0 { assert ("0" + s)[i] == s[i - 1]; }
      }
    }
    if s != [] {
      var p := s[..|s| - 1];
      assert ("0" + s)[..|s|] == "0" + p;
      assert ("0" + s)[|s|] == s[|s| - 1];
      DigitsValueLeadingZero(p);
    }
  }

  /** The digits with superfluous leading zeros removed ("007" to "7",
      "000" to "0"). */
  function StripLeadingZeros(d: string): (r: string)
    requires |d| > 0 && AllDigits(d)
    ensures IsCanonicalDigits(r) && DigitsValue(r) == DigitsValue(d)
    decreases |d|
  {
    if |d| > 1 && d[0] == '0' then
      DigitsValueLeadingZero(d[1..]);
      assert d == "0" + d[1..];
      StripLeadingZeros(d[1..])
    else d
  }

  /** The canonical literal a sign-and-digits string stands for: leading
      zeros removed, and "-0" (with any zeros) written "0". */
  function Canonicalize(s: string): (r: string)
    requires IsIntLiteral(s)
    ensures IsCanonicalInt(r)
  {
    if s[0] == '-' then
      var t := StripLeadingZeros(s[1..]);
      if t == "0" then "0" else "-" + t
    else StripLeadingZeros(s)
  }

  /** Leading zeros, and the sign of a zero, do not change what a literal
      decodes to: every accepted literal decodes like its canonical form,
      which is `str` of the decoded number. */
  lemma DecodesLikeCanonical(s: string)
    requires IsIntLiteral(s)
    ensures ParseInt(s) == ParseInt(Canonicalize(s))
    ensures IntToString(ParseInt(s).value) == Canonicalize(s)
  {
    var c := Canonicalize(s);
    if s[0] == '-' {
      var t := StripLeadingZeros(s[1..]);
      if t != "0" {
        assert c[1..] == t;
      } else {
        assert DigitsValue(t) == 0;
      }
    }
    CanonicalRoundTrip(c);
  }

  /** "007" decodes to 7, and "-0" and "-000" to 0. */
  lemma LeadingZerosExample()
    ensures ParseInt("007") == Some(7)
    ensures ParseInt("-0") == Some(0) && ParseInt("-000") == Some(0)
    ensures ParseInt("-007") == Some(-7)
  {
    DigitsValueLeadingZero("7");
    DigitsValueLeadingZero("07");
    assert "007" == "0" + "07" && "07" == "0" + "7";
    assert "-007"[1..] == "007";
    DigitsValueLeadingZero("0");
    DigitsValueLeadingZero("00");
    assert "-000"[1..] == "000" == "0" + "00";
    assert "00" == "0" + "0";
  }
}
