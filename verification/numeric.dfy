/** Optional values: a parse that may yield NaN, a debounce slot that may be empty. */
module Options {

  datatype Option<+T> = None | Some(value: T)
}

/**
 The numeric primitives the components borrow from JavaScript, over exact reals:
 Math.sqrt (left uninterpreted), Math.round, Number.prototype.toFixed, and the
 centimetre/inch conversions of the screen form.
 */
module Numeric {

  /** Math.sqrt as the host provides it: known only to return the non-negative root. */
  ghost predicate IsSqrt(sqrt: real -> real) {
    forall x :: 0.0 <= x ==> 0.0 <= sqrt(x) && sqrt(x) * sqrt(x) == x
  }

  function Abs(x: real): real {
    if x < 0.0 then -x else x
  }

  /** A non-negative number is the square root of its square, so any candidate root is THE root. */
  lemma RootUnique(a: real, b: real)
    requires 0.0 <= a && 0.0 <= b && a * a == b * b
    ensures a == b
  {
    assert (a - b) * (a + b) == a * a - b * b;
    if a + b == 0.0 {
    } else {
      assert a - b == 0.0;
    }
  }

  lemma SquareMonotone(a: real, b: real)
    requires 0.0 <= a <= b
    ensures a * a <= b * b
  {
    assert a * a <= a * b;
    assert a * b <= b * b;
  }

  lemma SquareNonnegative(x: real)
    ensures 0.0 <= x * x
  {
    if x < 0.0 {
      assert x * x == (-x) * (-x);
    }
  }

  lemma SquareZero(a: real)
    requires a * a == 0.0
    ensures a == 0.0
  {
    if 0.0 <= a {
      RootUnique(a, 0.0);
    } else {
      assert (-a) * (-a) == a * a;
      RootUnique(-a, 0.0);
    }
  }

  lemma SumOfNonnegativesZero(p: real, q: real)
    requires 0.0 <= p && 0.0 <= q && p + q == 0.0
    ensures p == 0.0 && q == 0.0
  {
  }

  /** Only a zero width and a zero height give a zero diagonal. */
  lemma SumOfSquaresZero(a: real, b: real)
    requires a * a + b * b == 0.0
    ensures a == 0.0 && b == 0.0
  {
    SquareNonnegative(a);
    SquareNonnegative(b);
    SumOfNonnegativesZero(a * a, b * b);
    SquareZero(a);
    SquareZero(b);
  }

  lemma SqrtOfSquare(sqrt: real -> real, x: real, r: real)
    requires IsSqrt(sqrt)
    requires 0.0 <= r && r * r == x
    ensures sqrt(x) == r
  {
    RootUnique(sqrt(x), r);
  }

  /**
   cos(atan(t)) = 1 / sqrt(1 + t*t): the screen form computes the width of a
   diagonal-driven edit as diagonal * cos(atan(1 / ratio)); the identity replaces
   the two transcendental calls by one square root.
   */
  function CosAtan(sqrt: real -> real, t: real): (c: real)
    requires IsSqrt(sqrt)
    ensures 0.0 < c
    ensures c * c * (1.0 + t * t) == 1.0
  {
    var s := sqrt(1.0 + t * t);
    assert 1.0 <= s * s;
    assert 0.0 < s;
    var c := 1.0 / s;
    assert c * s == 1.0;
    assert c * c * (s * s) == (c * s) * (c * s);
    c
  }

  /** Math.round: the nearest integer, ties going up (towards positive infinity). */
  function JsRound(x: real): (n: int)
    ensures n as real - 0.5 <= x < n as real + 0.5
  {
    (x + 0.5).Floor
  }

  /** The nearest-integer characterisation determines Math.round completely. */
  lemma JsRoundUnique(x: real, n: int)
    requires n as real - 0.5 <= x < n as real + 0.5
    ensures JsRound(x) == n
  {
  }

  lemma JsRoundOfInteger(n: int)
    ensures JsRound(n as real) == n
  {
    JsRoundUnique(n as real, n);
  }

  function Pow10(d: nat): (p: nat)
    ensures 1 <= p
  {
    if d == 0 then 1 else 10 * Pow10(d - 1)
  }

  /**
   The text Number.prototype.toFixed(digits) produces: a sign, and the digit
   string `units` with a decimal point `digits` places from the right.
   */
  datatype Fixed = Fixed(negative: bool, units: nat, digits: nat)

  /** The number a toFixed text reads as. */
  function Value(f: Fixed): real {
    var magnitude := f.units as real / Pow10(f.digits) as real;
    if f.negative then -magnitude else magnitude
  }

  lemma DivideBound(e: real, p: real, b: real)
    requires 0.0 < p && Abs(e) <= b
    ensures Abs(e / p) <= b / p
  {
    if e < 0.0 {
      assert Abs(e / p) == (-e) / p;
    }
  }

  /** |x| scaled by 10^digits and rounded half up, as toFixed rounds the magnitude. */
  function RoundedUnits(m: real, digits: nat): (n: nat)
    requires 0.0 <= m
    ensures Abs(n as real / Pow10(digits) as real - m) <= 0.5 / Pow10(digits) as real
  {
    var p := Pow10(digits) as real;
    var n := JsRound(m * p);
    assert 0 <= n;
    var e := n as real - m * p;
    assert Abs(e) <= 0.5;
    assert n as real / p - m == e / p;
    DivideBound(e, p, 0.5);
    n
  }

  /** Number.prototype.toFixed over exact reals: the sign is kept, the magnitude rounded. */
  function ToFixed(x: real, digits: nat): (f: Fixed)
    ensures f.digits == digits
    ensures f.negative <==> x < 0.0
    ensures Abs(Value(f) - x) <= 0.5 / Pow10(digits) as real
  {
    Fixed(x < 0.0, RoundedUnits(Abs(x), digits), digits)
  }

  /** A non-negative number on the grid rounds to its own grid index. */
  lemma RoundedUnitsOnGrid(a: nat, digits: nat)
    ensures RoundedUnits(a as real / Pow10(digits) as real, digits) == a
  {
    var p := Pow10(digits) as real;
    assert a as real / p * p == a as real;
    JsRoundOfInteger(a);
  }

  /** A non-negative grid value prints as its grid index. */
  lemma ToFixedOnGridNonnegative(a: nat, digits: nat)
    ensures ToFixed(a as real / Pow10(digits) as real, digits) == Fixed(false, a, digits)
  {
    var x := a as real / Pow10(digits) as real;
    assert Abs(x) == x;
    RoundedUnitsOnGrid(a, digits);
  }

  /** A negative grid value prints as a minus sign and the index of its magnitude. */
  lemma ToFixedOnGridNegative(a: nat, digits: nat)
    requires 0 < a
    ensures ToFixed(-(a as real / Pow10(digits) as real), digits) == Fixed(true, a, digits)
  {
    var x := -(a as real / Pow10(digits) as real);
    assert x < 0.0 && Abs(x) == a as real / Pow10(digits) as real;
    RoundedUnitsOnGrid(a, digits);
  }

  lemma NegateQuotient(a: real, p: real)
    requires 0.0 < p
    ensures -(a / p) == (-a) / p
  {
  }

  /** A number already on the 10^-digits grid is printed exactly. */
  lemma ToFixedOnGrid(k: int, digits: nat)
    ensures Value(ToFixed(k as real / Pow10(digits) as real, digits)) == k as real / Pow10(digits) as real
  {
    var p := Pow10(digits) as real;
    var x := k as real / p;
    if k < 0 {
      var a: nat := -k;
      NegateQuotient(a as real, p);
      assert x == -(a as real / p);
      ToFixedOnGridNegative(a, digits);
      assert Value(Fixed(true, a, digits)) == x;
    } else {
      var a: nat := k;
      ToFixedOnGridNonnegative(a, digits);
      assert Value(Fixed(false, a, digits)) == x;
    }
  }

  /** The two-decimal case, as the metre labels use it. */
  lemma ToFixedHundredths(k: int)
    ensures Value(ToFixed(k as real / 100.0, 2)) == k as real / 100.0
  {
    assert Pow10(2) == 100 by {
      assert Pow10(1) == 10;
    }
    ToFixedOnGrid(k, 2);
  }

  const CmPerInch: real := 2.54

  /** convertFromInches: the exact factor 2.54. */
  function FromInches(inches: real): (cm: real)
    ensures cm / CmPerInch == inches
  {
    inches * CmPerInch
  }

  /** convertToInches: centimetres to inches, rounded to one decimal with Math.round. */
  function ToInches(cm: real): (inches: real)
    ensures Abs(inches - cm / CmPerInch) <= 0.05
    ensures inches - 0.05 <= cm / CmPerInch < inches + 0.05
    ensures (inches * 10.0).Floor as real == inches * 10.0
  {
    var n := JsRound(cm / CmPerInch * 10.0);
    assert Abs(n as real - cm / CmPerInch * 10.0) <= 0.5;
    assert n as real - 0.5 <= cm / CmPerInch * 10.0 < n as real + 0.5;
    assert n as real / 10.0 - cm / CmPerInch == (n as real - cm / CmPerInch * 10.0) / 10.0;
    n as real / 10.0
  }

  /** An inch value on the 0.1 grid survives a trip to centimetres and back unchanged. */
  lemma InchesRoundTrip(inches: real)
    requires (inches * 10.0).Floor as real == inches * 10.0
    ensures ToInches(FromInches(inches)) == inches
  {
    var k := (inches * 10.0).Floor;
    assert FromInches(inches) / CmPerInch * 10.0 == k as real;
    JsRoundOfInteger(k);
  }

  /** Displaying a diagonal in inches, converting back and redisplaying changes nothing. */
  lemma InchesDisplayStable(cm: real)
    ensures ToInches(FromInches(ToInches(cm))) == ToInches(cm)
  {
    InchesRoundTrip(ToInches(cm));
  }
}
