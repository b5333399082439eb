/**
  Exact rational numbers as the `Fraction` class of the voting application
  keeps them: a numerator and a non-zero denominator, both unbounded
  integers. The arithmetic operators cross-multiply without reducing;
  `Normalize` reduces by the greatest common divisor, `Split` separates the
  floor and the fractional rest.
 */
module Fractions {
  import opened Wrappers

  datatype Fraction = Fraction(numerator: int, denominator: int) {
    /** Every Fraction the class hands out has a non-zero denominator. */
    predicate Valid() {
      denominator != 0
    }

    /** The rational number the fraction stands for. */
    function Value(): real
      requires Valid()
    {
      numerator as real / denominator as real
    }
  }

  /** The one exception of the class: a zero denominator. */
  datatype FractionError = ZeroDivisionError

  function Abs(i: int): nat {
    if i < 0 then -i else i
  }

  /** `Fraction(numerator, denominator)`: refuses a zero denominator, stores both as given. */
  function New(numerator: int, denominator: int): (r: Result<Fraction, FractionError>)
    ensures r.Failure? <==> denominator == 0
    ensures r.Success? ==> r.value.Valid() && r.value.Value() == numerator as real / denominator as real
    ensures r.Success? ==> r.value.numerator == numerator && r.value.denominator == denominator
  {
    if denominator == 0 then Failure(ZeroDivisionError) else Success(Fraction(numerator, denominator))
  }

  /** `Fraction(n)`, the integer n as n / 1. */
  function FromInt(n: int): (r: Fraction)
    ensures r.Valid() && r.Value() == n as real
  {
    Fraction(n, 1)
  }

  // ---------------------------------------------------------------------
  // Facts about real division that the solver does not find unaided.

  lemma CrossAdd(a: int, b: int, c: int, d: int)
    requires b != 0 && d != 0
    ensures (a * d + c * b) as real / (b * d) as real == a as real / b as real + c as real / d as real
  {
    var A, B, C, D := a as real, b as real, c as real, d as real;
    assert (b * d) as real == B * D;
    assert (a * d + c * b) as real == A * D + C * B;
    DivideSum(A * D, C * B, B * D);
    Cancel(A, B, D);
    Cancel(C, D, B);
    assert D * B == B * D;
  }

  lemma DivideSum(x: real, y: real, z: real)
    requires z != 0.0
    ensures (x + y) / z == x / z + y / z
  {
  }

  lemma Cancel(x: real, y: real, z: real)
    requires y != 0.0 && z != 0.0
    ensures (x * z) / (y * z) == x / y
  {
  }

  lemma CrossMul(a: int, b: int, c: int, d: int)
    requires b != 0 && d != 0
    ensures (a * c) as real / (b * d) as real == (a as real / b as real) * (c as real / d as real)
  {
    assert (a * c) as real == a as real * c as real;
    assert (b * d) as real == b as real * d as real;
  }

  lemma CrossDiv(a: int, b: int, c: int, d: int)
    requires b != 0 && d != 0 && c != 0
    ensures (a * d) as real / (b * c) as real == (a as real / b as real) / (c as real / d as real)
  {
    assert (a * d) as real == a as real * d as real;
    assert (b * c) as real == b as real * c as real;
  }

  lemma CancelFactor(g: int, n: int, d: int)
    requires g != 0 && d != 0
    ensures (g * n) as real / (g * d) as real == n as real / d as real
  {
    assert (g * n) as real == g as real * n as real;
    assert (g * d) as real == g as real * d as real;
  }

  // ---------------------------------------------------------------------
  // The operators.

  /** `self + other`: (a*d + c*b) / (b*d), unreduced, worth the exact sum. */
  function Add(x: Fraction, y: Fraction): (r: Fraction)
    requires x.Valid() && y.Valid()
    ensures r.Valid() && r.Value() == x.Value() + y.Value()
    ensures r.denominator == x.denominator * y.denominator
  {
    CrossAdd(x.numerator, x.denominator, y.numerator, y.denominator);
    Fraction(x.numerator * y.denominator + y.numerator * x.denominator, x.denominator * y.denominator)
  }

  /** `self - other`: (a*d - c*b) / (b*d), unreduced, worth the exact difference. */
  function Sub(x: Fraction, y: Fraction): (r: Fraction)
    requires x.Valid() && y.Valid()
    ensures r.Valid() && r.Value() == x.Value() - y.Value()
    ensures r.denominator == x.denominator * y.denominator
  {
    CrossAdd(x.numerator, x.denominator, -y.numerator, y.denominator);
    assert (-y.numerator) as real / y.denominator as real == -y.Value();
    Fraction(x.numerator * y.denominator - y.numerator * x.denominator, x.denominator * y.denominator)
  }

  /** `self * other`: (a*c) / (b*d), unreduced, worth the exact product. */
  function Mul(x: Fraction, y: Fraction): (r: Fraction)
    requires x.Valid() && y.Valid()
    ensures r.Valid() && r.Value() == x.Value() * y.Value()
    ensures r.denominator == x.denominator * y.denominator
  {
    CrossMul(x.numerator, x.denominator, y.numerator, y.denominator);
    Fraction(x.numerator * y.numerator, x.denominator * y.denominator)
  }

  /**
    `__div__`: (a*d) / (b*c); constructing it raises ZeroDivisionError exactly
    when the divisor's numerator is 0, otherwise it is worth the exact quotient.
   */
  function Div(x: Fraction, y: Fraction): (r: Result<Fraction, FractionError>)
    requires x.Valid() && y.Valid()
    ensures r.Failure? <==> y.numerator == 0
    ensures r.Success? ==> r.value.Valid() && r.value.Value() == x.Value() / y.Value()
    ensures r.Success? ==> r.value.denominator == x.denominator * y.numerator
  {
    if y.numerator == 0 then Failure(ZeroDivisionError)
    else
      CrossDiv(x.numerator, x.denominator, y.numerator, y.denominator);
      New(x.numerator * y.denominator, x.denominator * y.numerator)
  }

  /** `is_zero`: true exactly for the fractions worth 0. */
  function IsZero(x: Fraction): (r: bool)
    requires x.Valid()
    ensures r <==> x.Value() == 0.0
    ensures r <==> x.numerator == 0
  {
    x.numerator == 0
  }

  // ---------------------------------------------------------------------
  // Greatest common divisor, `math.gcd` on the absolute values.

  function Gcd(a: nat, b: nat): nat
    decreases b
  {
    if b == 0 then a else Gcd(b, a % b)
  }

  lemma ProductMagnitude(m: int, d: int)
    requires m > 0 && d != 0
    ensures m * d >= m || m * d <= -m
  {
    if d > 0 {
      assert m * d == m * (d - 1) + m;
      assert m * (d - 1) >= 0;
    } else {
      assert m * d == -(m * (-d - 1)) - m;
      assert m * (-d - 1) >= 0;
    }
  }

  lemma DivModUnique(n: int, m: int, q: int, r: int)
    requires m > 0 && n == m * q + r && 0 <= r < m
    ensures n / m == q && n % m == r
  {
    var q', r' := n / m, n % m;
    assert n == m * q' + r';
    if q != q' {
      assert m * (q - q') == r' - r by {
        assert m * (q - q') == m * q - m * q';
      }
      ProductMagnitude(m, q - q');
    }
  }

  lemma ModScale(k: nat, a: nat, b: nat)
    requires k > 0 && b > 0
    ensures (k * a) % (k * b) == k * (a % b)
  {
    var q, r := a / b, a % b;
    assert k * a == (k * b) * q + k * r;
    assert k * r < k * b;
    DivModUnique(k * a, k * b, q, k * r);
  }

  /** Scaling both arguments scales the greatest common divisor. */
  lemma {:induction false} GcdScale(k: nat, a: nat, b: nat)
    ensures Gcd(k * a, k * b) == k * Gcd(a, b)
    decreases b
  {
    if b != 0 && k != 0 {
      ModScale(k, a, b);
      GcdScale(k, b, a % b);
    }
  }

  lemma {:induction false} GcdPositive(a: nat, b: nat)
    requires a > 0 || b > 0
    ensures Gcd(a, b) > 0
    decreases b
  {
    if b != 0 {
      GcdPositive(b, a % b);
    }
  }

  lemma MultipleMod(g: int, t: int)
    requires g > 0
    ensures (g * t) % g == 0 && (g * t) / g == t
  {
    DivModUnique(g * t, g, t, 0);
  }

  /** A divisor of b and of a % b divides a. */
  lemma CommonDivisor(a: nat, b: nat, g: nat)
    requires b > 0 && g > 0 && b % g == 0 && (a % b) % g == 0
    ensures a % g == 0
  {
    var q, r := a / b, a % b;
    var s, t := b / g, r / g;
    assert b == g * s && r == g * t;
    assert a == g * (s * q + t) by {
      assert a == b * q + r;
      assert b * q == g * (s * q);
    }
    MultipleMod(g, s * q + t);
  }

  /** The greatest common divisor divides both arguments. */
  lemma {:induction false} GcdDivides(a: nat, b: nat)
    requires a > 0 || b > 0
    ensures Gcd(a, b) > 0 && a % Gcd(a, b) == 0 && b % Gcd(a, b) == 0
    decreases b
  {
    GcdPositive(a, b);
    var g := Gcd(a, b);
    if b != 0 {
      GcdDivides(b, a % b);
      CommonDivisor(a, b, g);
    } else {
      MultipleMod(a, 1);
    }
  }

  /** Two integers are coprime when `math.gcd` of them is 1. */
  predicate Coprime(a: int, b: int) {
    Gcd(Abs(a), Abs(b)) == 1
  }

  lemma ExactDivision(a: int, g: nat)
    requires g > 0 && Abs(a) % g == 0
    ensures a == g * (a / g) && Abs(a / g) == Abs(a) / g
  {
    var t := Abs(a) / g;
    assert Abs(a) == g * t;
    if a >= 0 {
      MultipleMod(g, t);
    } else {
      assert a == g * (-t);
      MultipleMod(g, -t);
    }
  }

  lemma GcdZero(n: nat)
    ensures Gcd(0, n) == n
  {
  }

  lemma CancelLeft(g: int, x: int, y: int)
    requires g > 0 && g * x == g * y
    ensures x == y
  {
    if x != y {
      assert g * (x - y) == g * x - g * y;
      ProductMagnitude(g, x - y);
    }
  }

  /** Dividing numerator and denominator by their gcd leaves them coprime. */
  lemma DivideByGcd(a: int, b: int, g: nat)
    requires b != 0 && g == Gcd(Abs(a), Abs(b))
    ensures g > 0 && a == g * (a / g) && b == g * (b / g)
    ensures Coprime(a / g, b / g)
  {
    GcdDivides(Abs(a), Abs(b));
    ExactDivision(a, g);
    ExactDivision(b, g);
    var a', b' := Abs(a) / g, Abs(b) / g;
    assert Abs(a / g) == a' && Abs(b / g) == b';
    assert g * a' == Abs(a) && g * b' == Abs(b);
    GcdScale(g, a', b');
    assert g * Gcd(a', b') == g * 1;
    CancelLeft(g, Gcd(a', b'), 1);
  }

  /**
    `normalize`: both parts divided (with `//`, exactly) by their non-negative
    greatest common divisor.
   */
  function Normalize(x: Fraction): (r: Fraction)
    requires x.Valid()
    ensures r.Valid() && r.Value() == x.Value()
    ensures Coprime(r.numerator, r.denominator)
    ensures r.denominator > 0 <==> x.denominator > 0
    ensures x.numerator == 0 ==> r.numerator == 0 && (r.denominator == 1 || r.denominator == -1)
  {
    var a, b := x.numerator, x.denominator;
    var g := Gcd(Abs(a), Abs(b));
    DivideByGcd(a, b, g);
    GcdZero(Abs(b));
    var r := Fraction(a / g, b / g);
    assert r.denominator != 0;
    CancelFactor(g, r.numerator, r.denominator);
    assert b > 0 <==> r.denominator > 0 by {
      if r.denominator > 0 { assert g * r.denominator > 0; }
      if r.denominator < 0 { assert g * r.denominator < 0; }
    }
    r
  }

  /** Normalizing a normalized fraction changes nothing. */
  lemma NormalizeIdempotent(x: Fraction)
    requires x.Valid()
    ensures Normalize(Normalize(x)) == Normalize(x)
  {
  }

  /** The documented example: 50/100 becomes 1/2. */
  lemma NormalizeExample()
    ensures Normalize(Fraction(50, 100)) == Fraction(1, 2)
  {
    assert Gcd(50, 100) == 50;
  }

  // ---------------------------------------------------------------------
  // Split into integer part and rest.

  /** Python's floor division `a // b`; Dafny's `/` rounds differently for b < 0. */
  function FloorDiv(a: int, b: int): (q: int)
    requires b != 0
    ensures b > 0 ==> q * b <= a < q * b + b
    ensures b < 0 ==> q * b >= a > q * b + b
  {
    if b > 0 then a / b else (-a) / (-b)
  }

  lemma UnitInterval(p: int, q: int)
    requires q != 0
    requires q > 0 ==> 0 <= p < q
    requires q < 0 ==> q < p <= 0
    ensures 0.0 <= p as real / q as real < 1.0
  {
    if q < 0 {
      assert p as real / q as real == (-p) as real / (-q) as real;
    }
  }

  /**
    `split`: the integer part `a // b` and the rest `self - Fraction(div)`; the
    integer part is the floor of the value and the rest lies in [0, 1), for
    negative fractions and negative denominators as well.
   */
  function Split(x: Fraction): (r: (int, Fraction))
    requires x.Valid()
    ensures r.1.Valid() && r.0 as real + r.1.Value() == x.Value()
    ensures 0.0 <= r.1.Value() < 1.0
    ensures r.0 as real <= x.Value() < (r.0 + 1) as real
    ensures r.1.denominator == x.denominator
  {
    var div := FloorDiv(x.numerator, x.denominator);
    var rest := Sub(x, FromInt(div));
    assert rest.numerator == x.numerator - div * x.denominator;
    UnitInterval(rest.numerator, rest.denominator);
    (div, rest)
  }

  /** The integer part of `split` grows with the value. */
  lemma SplitMonotone(x: Fraction, y: Fraction)
    requires x.Valid() && y.Valid() && x.Value() <= y.Value()
    ensures Split(x).0 <= Split(y).0
  {
    var (tx, ty) := (Split(x).0, Split(y).0);
    assert tx as real <= x.Value() <= y.Value() < (ty + 1) as real;
  }

  /** The documented example: 10/3 splits into 3 and 1/3. */
  lemma SplitExample()
    ensures Split(Fraction(10, 3)).0 == 3
    ensures Split(Fraction(10, 3)).1.Value() == 1.0 / 3.0
  {
  }
}
