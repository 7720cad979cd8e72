/**
  Java's 32-bit `int`: the value range, two's-complement wrap-around, the
  truncating division of the `/` operator, and Integer.parseInt.
*/
module JavaInt {
  import opened Results

  const MinInt: int := -0x8000_0000
  const MaxInt: int := 0x7fff_ffff
  const Modulus: int := 0x1_0000_0000

  type Int32 = x: int | MinInt <= x <= MaxInt

  /** The int32 value an exact result wraps around to. */
  function Wrap(x: int): (r: Int32)
    ensures (r - x) % Modulus == 0
    ensures MinInt <= x <= MaxInt ==> r == x
  {
    (x - MinInt) % Modulus + MinInt
  }

  /** Wrap is the only int32 value congruent to x modulo 2^32. */
  lemma WrapUnique(x: int, r: Int32)
    requires (r - x) % Modulus == 0
    ensures r == Wrap(x)
  {
    var w := Wrap(x);
    var d := r - w;
    assert d % Modulus == 0 by {
      assert d == (r - x) - (w - x);
    }
    assert -Modulus < d < Modulus;
  }

  /** Unary minus on an int: every value but MIN_VALUE is negated, MIN_VALUE stays itself. */
  function Negate(v: Int32): (r: Int32)
    ensures v != MinInt ==> r == -v
    ensures v == MinInt ==> r == MinInt
  {
    var exact: int := 0 - (v as int);
    if v == MinInt then
      WrapUnique(exact, MinInt);
      Wrap(exact)
    else
      Wrap(exact)
  }

  /** Adding to a wrapped value wraps the same as adding first. */
  lemma WrapAdd(a: int, b: int)
    ensures Wrap(Wrap(a) + b) == Wrap(a + b)
  {
    var w := Wrap(Wrap(a) + b);
    var p, q := w - (Wrap(a) + b), Wrap(a) - a;
    assert p == Modulus * (p / Modulus);
    assert q == Modulus * (q / Modulus);
    assert w - (a + b) == Modulus * (p / Modulus + q / Modulus);
    WrapUnique(a + b, w);
  }

  function Abs(x: int): nat { if x < 0 then -x else x }

  /** The remainder that goes with TruncDiv: it has the sign of the dividend. */
  function TruncRem(a: int, b: int): (r: int)
    requires b != 0
    ensures Abs(r) < Abs(b)
    ensures a < 0 ==> r <= 0
    ensures a >= 0 ==> r >= 0
  {
    if a < 0 then -((-a) % Abs(b)) else a % Abs(b)
  }

  /**
    Quotient rounded toward zero, as Java's `/` computes it before overflow.
    Dafny's own `/` is Euclidean, so it is built from the magnitudes.
  */
  function TruncDiv(a: int, b: int): (q: int)
    requires b != 0
    ensures a == q * b + TruncRem(a, b)
  {
    var n := Abs(b);
    var m := Abs(a) / n;
    assert Abs(a) == m * n + Abs(a) % n;
    if (a < 0) == (b < 0) then
      assert m * b == (if b < 0 then -(m * n) else m * n);
      m
    else
      assert (-m) * b == (if b < 0 then m * n else -(m * n));
      -m
  }

  /** Quotient and remainder are determined by a == q * b + r and the bounds on r. */
  lemma TruncDivUnique(a: int, b: int, q: int, r: int)
    requires b != 0
    requires a == q * b + r && Abs(r) < Abs(b)
    requires a < 0 ==> r <= 0
    requires a >= 0 ==> r >= 0
    ensures q == TruncDiv(a, b) && r == TruncRem(a, b)
  {
    var t, s := TruncDiv(a, b), TruncRem(a, b);
    var k, d := t - q, r - s;
    ProductOfDifference(t, q, b);
    assert k * b == d;
    // both remainders lie on the sign side of a, below |b| in magnitude
    assert Abs(d) < Abs(b);
    if k != 0 {
      MagnitudeOfProduct(k, b);
    }
  }

  lemma ProductOfDifference(t: int, q: int, b: int)
    ensures (t - q) * b == t * b - q * b
  {
  }

  lemma MagnitudeOfProduct(k: int, b: int)
    requires k != 0 && b != 0
    ensures Abs(k * b) >= Abs(b)
  {
    if k > 0 && b > 0 {
      assert k * b >= b;
    } else if k > 0 {
      assert k * b <= b;
    } else if b > 0 {
      assert k * b <= -b;
    } else {
      assert k * b >= -b;
    }
  }

  /** Java's `a / b` on ints: truncation, and MinInt / -1 wraps to MinInt. */
  function Quotient(a: Int32, b: Int32): (r: Int32)
    requires b != 0
    ensures !(a == MinInt && b == -1) ==> r == TruncDiv(a, b)
    ensures a == MinInt && b == -1 ==> r == MinInt
  {
    QuotientBounds(a, b);
    Wrap(TruncDiv(a, b))
  }

  /** The exact quotient of two ints fits an int, except for MinInt / -1. */
  lemma QuotientBounds(a: Int32, b: Int32)
    requires b != 0
    ensures !(a == MinInt && b == -1) ==> MinInt <= TruncDiv(a, b) <= MaxInt
    ensures a == MinInt && b == -1 ==> TruncDiv(a, b) == MaxInt + 1
  {
    var x, y := Abs(a), Abs(b);
    MagnitudeOfQuotient(x, y);
    var m: int := x / y;
    assert x <= Modulus / 2;
    assert TruncDiv(a, b) == if (a < 0) == (b < 0) then m else -m;
    if y == 1 {
      assert m == x;
    } else {
      assert m <= Modulus / 4;
    }
  }

  lemma MagnitudeOfQuotient(x: nat, y: nat)
    requires y >= 1
    ensures y == 1 ==> x / y == x
    ensures x / y <= x
    ensures y >= 2 ==> 2 * (x / y) <= x
  {
    var m, r := x / y, x % y;
    assert x == m * y + r;
    NatProduct(m, y - 1);
    ProductOfDifference(y, 1, m);
    if y >= 2 {
      NatProduct(m, y - 2);
      ProductOfDifference(y, 2, m);
    }
  }

  lemma NatProduct(m: nat, k: nat)
    ensures m * k >= 0
  {
  }

  predicate IsDecimalDigit(c: char) { '0' <= c <= '9' }

  predicate AllDigits(ds: string) { forall i :: 0 <= i < |ds| ==> IsDecimalDigit(ds[i]) }

  /** The value of a string of decimal digits, most significant first. */
  function DigitsValue(ds: string): nat
    requires AllDigits(ds)
    decreases |ds|
  {
    if ds == [] then 0
    else
      assert AllDigits(ds[..|ds| - 1]) && IsDecimalDigit(ds[|ds| - 1]);
      DigitsValue(ds[..|ds| - 1]) * 10 + ((ds[|ds| - 1] as int) - ('0' as int))
  }

  /**
    Integer.parseInt: an optional sign, at least one digit, and a value in
    range; anything else is a NumberFormatException (None).
  */
  function ParseInt(s: string): Option<Int32> {
    if s == [] then None
    else
      var ds := if s[0] == '-' || s[0] == '+' then s[1..] else s;
      if ds == [] || !AllDigits(ds) then None
      else
        var v: int := if s[0] == '-' then -(DigitsValue(ds) as int) else DigitsValue(ds);
        if MinInt <= v <= MaxInt then Some(v) else None
  }

  /** The digit character of d. */
  function DigitChar(d: nat): (c: char)
    requires d < 10
    ensures IsDecimalDigit(c) && (c as int) - ('0' as int) == d
  {
    (('0' as int) + d) as char
  }

  /** The decimal digits of n, without leading zeros. */
  function Decimal(n: nat): (s: string)
    ensures |s| >= 1 && AllDigits(s)
    decreases n
  {
    if n < 10 then [DigitChar(n)] else Decimal(n / 10) + [DigitChar(n % 10)]
  }

  lemma {:induction false} DecimalValue(n: nat)
    ensures DigitsValue(Decimal(n)) == n
    decreases n
  {
    if n >= 10 {
      DecimalValue(n / 10);
      var s := Decimal(n);
      assert s[..|s| - 1] == Decimal(n / 10);
    }
  }

  /** parseInt reads back the decimal digits of n exactly when n fits in an int. */
  lemma ParseDecimal(n: nat)
    ensures ParseInt(Decimal(n)) == if n <= MaxInt then Some(n) else None
  {
    DecimalValue(n);
    assert IsDecimalDigit(Decimal(n)[0]);
  }

  /** With a plus sign in front, the same as without. */
  lemma ParsePlusDecimal(n: nat)
    ensures ParseInt("+" + Decimal(n)) == if n <= MaxInt then Some(n) else None
  {
    DecimalValue(n);
    assert ("+" + Decimal(n))[1..] == Decimal(n);
  }

  /** A sign alone, or nothing, is not a number. */
  lemma ParseNeedsDigits(s: string, i: nat)
    ensures ParseInt("") == None && ParseInt("-") == None && ParseInt("+") == None
    ensures 0 < i < |s| && !IsDecimalDigit(s[i]) ==> ParseInt(s) == None
  {
    if 0 < i < |s| && !IsDecimalDigit(s[i]) && (s[0] == '-' || s[0] == '+') {
      assert s[1..][i - 1] == s[i];
    }
  }

  /** The shortest text of an int: a minus sign for negatives, then its digits. */
  function Numeral(n: Int32): string {
    if n < 0 then "-" + Decimal(-(n as int)) else Decimal(n)
  }

  /** parseInt reads every int back from its numeral. */
  lemma ParseNumeral(n: Int32)
    ensures ParseInt(Numeral(n)) == Some(n)
  {
    if n < 0 {
      ParseNegativeDecimal(-(n as int));
    } else {
      ParseDecimal(n);
    }
  }

  /** With a minus sign in front, down to MinInt. */
  lemma ParseNegativeDecimal(n: nat)
    ensures ParseInt("-" + Decimal(n)) == if n <= -MinInt then Some(-(n as int)) else None
  {
    DecimalValue(n);
    assert ("-" + Decimal(n))[1..] == Decimal(n);
  }
}
