/** The store encoding of `DecimalColumn` values (subconscious/column.py):
    `get_redis_value` and `get_python_value`. Both read nothing of the column
    but its `decimal_places`, so they are modelled over that count. */
module DecimalEncoding {
  import opened Wrappers
  import opened IntStrings
  import opened ExactDecimal

  /** `Decimal(s)` refuses a string that is not a number. */
  datatype DecodeError = InvalidDecimalString(raw: string)

  /** `get_redis_value(v)` for an exact decimal v: v scaled by
      `10**decimal_places`, truncated toward zero, printed as an integer. */
  function GetRedisValue(decimalPlaces: nat, v: real): (s: string)
    ensures IsCanonicalInt(s)
  {
    IntToString(Trunc(ScaledUp(v, decimalPlaces)))
  }

  /** `get_python_value(s)`: the integer the string denotes, divided by
      `10**decimal_places`. Only sign-and-digits strings are decoded; every
      other string is a decode error. */
  function GetPythonValue(decimalPlaces: nat, s: string): (r: Result<real, DecodeError>)
    ensures r.Success? <==> IsIntLiteral(s)
    ensures r.Failure? ==> r.error == InvalidDecimalString(s)
    ensures r.Success? ==> HasAtMostPlaces(r.value, decimalPlaces)
  {
    match ParseInt(s)
    case None => Failure(InvalidDecimalString(s))
    case Some(n) =>
      ScaledDownHasPlaces(n, decimalPlaces);
      Success(ScaledDown(n, decimalPlaces))
  }

  /** The encoded string denotes v scaled up by `10**decimal_places` and
      truncated toward zero, never rounded: of the same sign, no larger in
      magnitude, and less than one away. */
  lemma RedisValueTruncates(decimalPlaces: nat, v: real)
    ensures ParseInt(GetRedisValue(decimalPlaces, v)).Some?
    ensures 0.0 <= ScaledUp(v, decimalPlaces) ==>
      var n := ParseInt(GetRedisValue(decimalPlaces, v)).value;
      0 <= n && n as real <= ScaledUp(v, decimalPlaces) < n as real + 1.0
    ensures ScaledUp(v, decimalPlaces) < 0.0 ==>
      var n := ParseInt(GetRedisValue(decimalPlaces, v)).value;
      n <= 0 && n as real - 1.0 < ScaledUp(v, decimalPlaces) <= n as real
  {
    IntRoundTrip(Trunc(ScaledUp(v, decimalPlaces)));
  }

  /** Decoding the string of an integer n gives n / 10**decimal_places. */
  lemma PythonValueOfInt(decimalPlaces: nat, n: int)
    ensures GetPythonValue(decimalPlaces, IntToString(n)) == Success(ScaledDown(n, decimalPlaces))
  {
    IntRoundTrip(n);
  }

  /** What a stored value reads back as: v truncated toward zero to
      `decimal_places` digits. */
  lemma RoundTripValue(decimalPlaces: nat, v: real)
    ensures GetPythonValue(decimalPlaces, GetRedisValue(decimalPlaces, v))
         == Success(TruncateToPlaces(v, decimalPlaces))
  {
    PythonValueOfInt(decimalPlaces, Trunc(ScaledUp(v, decimalPlaces)));
  }

  /** A value with at most `decimal_places` fractional digits survives the
      store exactly. */
  lemma RoundTripExact(decimalPlaces: nat, v: real)
    requires HasAtMostPlaces(v, decimalPlaces)
    ensures GetPythonValue(decimalPlaces, GetRedisValue(decimalPlaces, v)) == Success(v)
  {
    RoundTripValue(decimalPlaces, v);
    TruncateToPlacesFixedPoints(v, decimalPlaces);
  }

  /** Any other value comes back truncated toward zero to `decimal_places`
      digits: no larger in magnitude, of the same sign, less than one unit of
      the last place away, and equal to v exactly when v already had at most
      `decimal_places` fractional digits. */
  lemma RoundTripTruncates(decimalPlaces: nat, v: real)
    ensures GetPythonValue(decimalPlaces, GetRedisValue(decimalPlaces, v)).Success?
    ensures HasAtMostPlaces(GetPythonValue(decimalPlaces, GetRedisValue(decimalPlaces, v)).value, decimalPlaces)
    ensures Abs(GetPythonValue(decimalPlaces, GetRedisValue(decimalPlaces, v)).value) <= Abs(v)
    ensures 0.0 <= v ==> 0.0 <= GetPythonValue(decimalPlaces, GetRedisValue(decimalPlaces, v)).value
    ensures v <= 0.0 ==> GetPythonValue(decimalPlaces, GetRedisValue(decimalPlaces, v)).value <= 0.0
    ensures Abs(v - GetPythonValue(decimalPlaces, GetRedisValue(decimalPlaces, v)).value) < 1.0 / Scale(decimalPlaces)
    ensures GetPythonValue(decimalPlaces, GetRedisValue(decimalPlaces, v)).value == v
        <==> HasAtMostPlaces(v, decimalPlaces)
  {
    RoundTripValue(decimalPlaces, v);
    TruncateToPlacesTowardZero(v, decimalPlaces);
    TruncateToPlacesError(v, decimalPlaces);
    TruncateToPlacesFixedPoints(v, decimalPlaces);
  }

  /** Encoding the decoded value again gives the same string: a value read
      back from the store is written back unchanged. */
  lemma EncodeAfterRoundTrip(decimalPlaces: nat, v: real)
    ensures GetPythonValue(decimalPlaces, GetRedisValue(decimalPlaces, v)).Success?
    ensures GetRedisValue(decimalPlaces, GetPythonValue(decimalPlaces, GetRedisValue(decimalPlaces, v)).value)
         == GetRedisValue(decimalPlaces, v)
  {
    RoundTripValue(decimalPlaces, v);
    var n := Trunc(ScaledUp(v, decimalPlaces));
    var w := GetPythonValue(decimalPlaces, GetRedisValue(decimalPlaces, v)).value;
    assert w == ScaledDown(n, decimalPlaces);
    UpAfterDown(n, decimalPlaces);
    assert ScaledUp(w, decimalPlaces) == n as real;
    assert Trunc(n as real) == n;
  }

  /** A stored string with leading zeros or a signed zero ("007", "-0")
      decodes like its canonical form: the decoded value is the number the
      digits denote, scaled down by `10**decimal_places`. */
  lemma NonCanonicalDecodesLikeCanonical(decimalPlaces: nat, s: string)
    requires IsIntLiteral(s)
    ensures GetPythonValue(decimalPlaces, s) == GetPythonValue(decimalPlaces, Canonicalize(s))
  {
    DecodesLikeCanonical(s);
  }

  /** With two decimal places, "007" reads back as 0.07 and "-0" as 0. */
  lemma LeadingZerosDecodeExample()
    ensures GetPythonValue(2, "007") == Success(0.07)
    ensures GetPythonValue(2, "-0") == Success(0.0)
  {
    LeadingZerosExample();
    assert Scale(2) == 100.0;
    assert ScaledDown(7, 2) == 0.07;
    assert ScaledDown(0, 2) == 0.0;
  }

  /** With two decimal places, 12.345 is stored as "1234" and -12.345 as
      "-1234" (truncated, not rounded), and "1234" reads back as 12.34. */
  lemma TwoPlacesExample()
    ensures GetRedisValue(2, 12.345) == "1234"
    ensures GetRedisValue(2, -12.345) == "-1234"
    ensures GetPythonValue(2, "1234") == Success(12.34)
  {
    assert Scale(2) == 100.0;
    assert ScaledUp(12.345, 2) == 1234.5;
    assert ScaledUp(-12.345, 2) == -1234.5;
    assert Trunc(1234.5) == 1234;
    assert Trunc(-1234.5) == -1234;
    assert IntToString(1234) == "1234";
    assert IntToString(-1234) == "-1234";
    PythonValueOfInt(2, 1234);
    assert ScaledDown(1234, 2) == 12.34;
  }
}
