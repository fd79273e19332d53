/** Exact decimal arithmetic for the fixed-precision encoding. A Python
    `Decimal` is modelled as the exact rational it denotes (a Dafny `real`);
    the 28-significant-digit context of Python's `decimal` module is not
    modelled, so products and quotients are exact. */
module ExactDecimal {

  /** Python's `10**places` for a non-negative `int` places, as the factor
      by which a column with `places` decimal places scales a value. */
  function Scale(places: nat): (r: real)
    ensures r >= 1.0
  {
    if places == 0 then 1.0 else 10.0 * Scale(places - 1)
  }

  function Abs(x: real): (r: real)
    ensures r >= 0.0 && (r == x || r == -x)
  {
    if x < 0.0 then -x else x
  }

  predicate IsIntegral(x: real) {
    x.Floor as real == x
  }

  /** Python's `v * (10**places)`. */
  function ScaledUp(v: real, places: nat): real {
    v * Scale(places)
  }

  /** Python's `n / (10**places)`. */
  function ScaledDown(n: int, places: nat): real {
    n as real / Scale(places)
  }

  /** v has at most `places` digits after the decimal point. */
  predicate HasAtMostPlaces(v: real, places: nat) {
    IsIntegral(ScaledUp(v, places))
  }

  /** Python's `int(d)` for a finite `Decimal` d: the integer part, truncated
      toward zero (`.Floor` alone would round negative values down). */
  function Trunc(x: real): (n: int)
    ensures 0.0 <= x ==> 0 <= n && n as real <= x < n as real + 1.0
    ensures x < 0.0 ==> n <= 0 && n as real - 1.0 < x <= n as real
  {
    if x >= 0.0 then x.Floor else -((-x).Floor)
  }

  /** v truncated toward zero to `places` fractional digits. */
  function TruncateToPlaces(v: real, places: nat): real {
    ScaledDown(Trunc(ScaledUp(v, places)), places)
  }

  // The products and quotients above stay behind `ScaledUp` and `ScaledDown`,
  // and the lemmas below reason about them through the small facts on
  // division by a positive number that follow, each scoped to one step.

  lemma DivMonotone(a: real, b: real, s: real)
    requires s > 0.0 && a <= b
    ensures a / s <= b / s
  {}

  lemma DivStrictMonotone(a: real, b: real, s: real)
    requires s > 0.0 && a < b
    ensures a / s < b / s
  {}

  lemma DivDifference(a: real, b: real, s: real)
    requires s > 0.0
    ensures a / s - b / s == (a - b) / s
  {}

  lemma MulDivCancel(v: real, s: real)
    requires s > 0.0
    ensures (v * s) / s == v && (v / s) * s == v
  {}

  /** Truncation leaves an integral value as it is. */
  lemma {:induction false} TruncIntegral(x: real)
    requires IsIntegral(x)
    ensures Trunc(x) as real == x
  {
    var k := x.Floor;
    if x < 0.0 {
      assert -x == (-k) as real;
      assert (-x).Floor == -k;
      assert Trunc(x) == k;
    } else {
      assert Trunc(x) == k;
    }
  }

  /** Scaling up undoes scaling down, and scaling down undoes scaling up. */
  lemma {:induction false} UpAfterDown(n: int, places: nat)
    ensures ScaledUp(ScaledDown(n, places), places) == n as real
  {
    MulDivCancel(n as real, Scale(places));
  }

  lemma {:induction false} DownAfterUp(v: real, places: nat)
    ensures ScaledUp(v, places) / Scale(places) == v
  {
    MulDivCancel(v, Scale(places));
  }

  /** An integer scaled down by `10**places` has at most `places` fractional
      digits. */
  lemma {:induction false} ScaledDownHasPlaces(n: int, places: nat)
    ensures HasAtMostPlaces(ScaledDown(n, places), places)
  {
    UpAfterDown(n, places);
    assert (n as real).Floor == n;
  }

  /** Truncating to `places` digits moves v toward zero, never past it. */
  lemma {:induction false} TruncateToPlacesTowardZero(v: real, places: nat)
    ensures Abs(TruncateToPlaces(v, places)) <= Abs(v)
    ensures 0.0 <= v ==> 0.0 <= TruncateToPlaces(v, places)
    ensures v <= 0.0 ==> TruncateToPlaces(v, places) <= 0.0
  {
    var s := Scale(places);
    var x := ScaledUp(v, places);
    var n := Trunc(x);
    var w := TruncateToPlaces(v, places);
    assert w == n as real / s;
    assert v == x / s by { DownAfterUp(v, places); }
    if 0.0 <= x {
      assert 0.0 <= w <= v by {
        DivMonotone(0.0, n as real, s);
        DivMonotone(n as real, x, s);
      }
    } else {
      assert v <= w <= 0.0 by {
        DivMonotone(n as real, 0.0, s);
        DivMonotone(x, n as real, s);
      }
    }
  }

  /** Truncating to `places` digits moves v by less than one unit of the
      last place. */
  lemma {:induction false} TruncateToPlacesError(v: real, places: nat)
    ensures Abs(v - TruncateToPlaces(v, places)) < 1.0 / Scale(places)
  {
    var s := Scale(places);
    var x := ScaledUp(v, places);
    var n := Trunc(x);
    var w := TruncateToPlaces(v, places);
    assert w == n as real / s;
    assert v == x / s by { DownAfterUp(v, places); }
    if 0.0 <= x {
      assert v - w == (x - n as real) / s by { DivDifference(x, n as real, s); }
      assert 0.0 <= (x - n as real) / s < 1.0 / s by {
        DivStrictMonotone(x - n as real, 1.0, s);
        DivMonotone(0.0, x - n as real, s);
      }
    } else {
      assert w - v == (n as real - x) / s by { DivDifference(n as real, x, s); }
      assert 0.0 <= (n as real - x) / s < 1.0 / s by {
        DivStrictMonotone(n as real - x, 1.0, s);
        DivMonotone(0.0, n as real - x, s);
      }
    }
  }

  /** Truncating to `places` digits yields a value with at most `places`
      digits, and leaves v unchanged exactly when v already has at most
      `places` digits. */
  lemma {:induction false} TruncateToPlacesFixedPoints(v: real, places: nat)
    ensures HasAtMostPlaces(TruncateToPlaces(v, places), places)
    ensures TruncateToPlaces(v, places) == v <==> HasAtMostPlaces(v, places)
  {
    var n := Trunc(ScaledUp(v, places));
    ScaledDownHasPlaces(n, places);
    if HasAtMostPlaces(v, places) {
      assert n as real == ScaledUp(v, places) by { TruncIntegral(ScaledUp(v, places)); }
      assert TruncateToPlaces(v, places) == ScaledUp(v, places) / Scale(places);
      DownAfterUp(v, places);
    }
  }
}
