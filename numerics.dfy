/**
 * Real-valued helpers shared by the acceleration laws: absolute value,
 * integer powers (Python's `x ** n` with a natural exponent) and the
 * accumulation `s = 0; for t in terms: s += t` written as a sum over a
 * sequence of terms.
 */
module Numerics {

  function Abs(x: real): (r: real)
    ensures r >= 0.0
    ensures r == x || r == -x
  {
    if x < 0.0 then -x else x
  }

  function Min(a: nat, b: nat): (m: nat)
    ensures m <= a && m <= b
    ensures m == a || m == b
  {
    if a <= b then a else b
  }

  /** `x ** n` for a natural exponent. */
  function Pow(x: real, n: nat): (r: real)
    ensures x >= 0.0 ==> r >= 0.0
    ensures x == 1.0 ==> r == 1.0
    ensures x == 0.0 && n > 0 ==> r == 0.0
  {
    if n == 0 then 1.0 else x * Pow(x, n - 1)
  }

  /** The value a left-to-right accumulator loop over `s` ends with. */
  function Sum(s: seq<real>): real
  {
    if s == [] then 0.0 else Sum(s[..|s| - 1]) + s[|s| - 1]
  }

  /** One more step of the accumulator loop. */
  lemma SumStep(s: seq<real>, i: nat)
    requires i < |s|
    ensures Sum(s[..i + 1]) == Sum(s[..i]) + s[i]
  {
    assert s[..i + 1][..i] == s[..i];
  }

  lemma {:induction false} SumAppend(a: seq<real>, b: seq<real>)
    ensures Sum(a + b) == Sum(a) + Sum(b)
    decreases |b|
  {
    if b == [] {
      assert a + b == a;
    } else {
      var b' := b[..|b| - 1];
      assert (a + b)[..|a + b| - 1] == a + b';
      SumAppend(a, b');
    }
  }

  /** A sum of zero terms in every position is zero. */
  lemma {:induction false} SumOfZeros(s: seq<real>)
    requires forall i :: 0 <= i < |s| ==> s[i] == 0.0
    ensures Sum(s) == 0.0
    decreases |s|
  {
    if s != [] {
      SumOfZeros(s[..|s| - 1]);
    }
  }

  /** A sum of equal terms is the count times the term. */
  lemma {:induction false} SumOfConstant(s: seq<real>, c: real)
    requires forall i :: 0 <= i < |s| ==> s[i] == c
    ensures Sum(s) == (|s| as real) * c
    decreases |s|
  {
    if s != [] {
      SumOfConstant(s[..|s| - 1], c);
    }
  }

  lemma SumSingle(x: real)
    ensures Sum([x]) == x
  {
    assert [x][..0] == [];
  }

  /** A term placed between two runs adds itself to their sum. */
  lemma SumAround(before: seq<real>, x: real, after: seq<real>)
    ensures Sum(before + [x] + after) == Sum(before + after) + x
  {
    SumAppend(before + [x], after);
    SumAppend(before, [x]);
    SumAppend(before, after);
    SumSingle(x);
  }

  /** Taking one term out of a sum: the rest plus that term. */
  lemma SumWithout(s: seq<real>, j: nat)
    requires j < |s|
    ensures Sum(s) == Sum(s[..j] + s[j + 1..]) + s[j]
  {
    assert s == s[..j] + [s[j]] + s[j + 1..];
    SumAround(s[..j], s[j], s[j + 1..]);
  }

  /** Dividing by a positive number commutes with `abs`. */
  lemma AbsOverPositive(x: real, d: real)
    requires d > 0.0
    ensures Abs(x) / d == Abs(x / d)
  {
    if x < 0.0 {
      assert x / d < 0.0;
      assert -x / d == -(x / d);
    } else {
      assert x / d >= 0.0;
    }
  }

  /** Taking one whole divisor off leaves the remainder as it was. */
  lemma ModOfShift(x: int, d: int)
    requires d > 0
    ensures (x - d) % d == x % d
  {
    var q, r := x / d, x % d;
    assert x == q * d + r;
    assert x - d == (q - 1) * d + r;
    ModUnique(x - d, d, q - 1, r);
  }

  /** Quotient and remainder are unique: `x == q*d + r` with `0 <= r < d` means `x % d == r`. */
  lemma ModUnique(x: int, d: int, q: int, r: int)
    requires d > 0 && 0 <= r < d && x == q * d + r
    ensures x % d == r
  {
    var q', r' := x / d, x % d;
    assert x == q' * d + r';
    var m := q - q';
    assert m * d == r' - r;
    WholeMultiples(m, d);
  }

  /** Non-zero whole multiples of `d` are at least `d` away from zero. */
  lemma WholeMultiples(m: int, d: int)
    requires d > 0
    ensures m >= 1 ==> m * d >= d
    ensures m <= -1 ==> m * d <= -d
  {
    if m >= 1 {
      assert m * d == (m - 1) * d + d;
      assert (m - 1) * d >= 0;
    } else if m <= -1 {
      assert m * d == (m + 1) * d - d;
      assert (m + 1) * d <= 0;
    }
  }

  lemma SquareFacts(x: real)
    ensures x * x >= 0.0
    ensures x != 0.0 ==> x * x > 0.0
  {
    if x < 0.0 {
      PositiveProduct(-x, -x);
      assert (-x) * (-x) == x * x;
    } else if x > 0.0 {
      PositiveProduct(x, x);
    }
  }

  /** A solver hint for nonlinear real products: the product of two positives is positive. */
  lemma PositiveProduct(x: real, y: real)
    requires x > 0.0 && y > 0.0
    ensures x * y > 0.0
  {
  }

  /** A solver hint: the product of two non-negatives is non-negative. */
  lemma NonNegativeProduct(x: real, y: real)
    requires x >= 0.0 && y >= 0.0
    ensures x * y >= 0.0
  {
  }

  lemma SquareGrows(x: real, y: real)
    requires 0.0 <= x < y
    ensures x * x < y * y
  {
    var d := y - x;
    PositiveProduct(y, d);
    NonNegativeProduct(x, d);
    assert y * y - x * x == x * d + y * d;
  }

  /** A solver hint: a positive times a negative is negative. */
  lemma PositiveTimesNegative(x: real, y: real)
    requires x > 0.0 && y < 0.0
    ensures x * y < 0.0
  {
  }

  /** A solver hint: the product of two non-zero reals is non-zero. */
  lemma NonZeroProduct(x: real, y: real)
    requires x != 0.0 && y != 0.0
    ensures x * y != 0.0
  {
  }
}
