/**
 * The classical baseline: trial division that reports the smallest
 * divisor of a 32-bit integer, or nothing when there is none below the
 * square root.
 */
module ClassicalFactor {
  import opened Wrappers

  const Int32Min: int := -0x8000_0000
  const Int32Max: int := 0x7FFF_FFFF

  /** The range of C#'s `int`. */
  predicate IsInt32(x: int) {
    Int32Min <= x <= Int32Max
  }

  /**
   * A prime has no divisor strictly between 1 and itself.  A zero
   * remainder means the same under C#'s truncating `%` and Dafny's
   * Euclidean `%`, so `n % d != 0` is the source's test.
   */
  predicate IsPrime(n: int) {
    n >= 2 && forall d :: 2 <= d < n ==> n % d != 0
  }

  lemma MulLeft(a: int, b: int, c: int)
    requires a >= 0 && b <= c
    ensures a * b <= a * c
  {
  }

  lemma SquareMonotone(a: int, b: int)
    requires 0 <= a <= b
    ensures a * a <= b * b
  {
    MulLeft(a, a, b);
    MulLeft(b, a, b);
  }

  /** An odd number has no even divisor. */
  lemma OddHasNoEvenDivisor(n: int, j: int)
    requires n % 2 != 0 && j >= 2 && j % 2 == 0
    ensures n % j != 0
  {
    var q, r, h := n / j, n % j, j / 2;
    assert n == j * q + r;
    assert n == 2 * (h * q) + r;
  }

  /** Whatever `m` is, `m * b` leaves no remainder when divided by `b`. */
  lemma MultipleHasNoRemainder(m: int, b: int)
    requires b > 0
    ensures (m * b) % b == 0
  {
    var n := m * b;
    var r := n % b;
    var q := n / b;
    assert n == b * q + r && 0 <= r < b;
    assert b * (m - q) == r;
    assert m - q >= 1 ==> b * (m - q) >= b;
    assert m - q <= -1 ==> b * (m - q) <= -b;
  }

  /** The least divisor of `n` that is at least `k`. */
  ghost function LeastDivisorFrom(n: int, k: int): (d: int)
    requires 2 <= k <= n
    ensures k <= d <= n && n % d == 0
    ensures forall j :: k <= j < d ==> n % j != 0
    decreases n - k
  {
    if n % k == 0 then k else LeastDivisorFrom(n, k + 1)
  }

  /** The cofactor `n / d` of a proper divisor `d` is itself a proper divisor. */
  lemma Cofactor(n: int, d: int)
    requires 2 <= d < n && n % d == 0
    ensures 2 <= n / d && n % (n / d) == 0 && d * (n / d) == n
  {
    var q := n / d;
    assert n == d * q;
    assert q <= 1 ==> d * q <= d;
    MultipleHasNoRemainder(d, q);
  }

  /** A composite number has a divisor whose square does not exceed it. */
  lemma CompositeHasSmallDivisor(n: int) returns (d: int)
    requires n >= 2 && !IsPrime(n)
    ensures 2 <= d && d * d <= n && n % d == 0
  {
    d := LeastDivisorFrom(n, 2);
    var e :| 2 <= e < n && n % e == 0;
    assert d <= e;
    Cofactor(n, d);
    var q := n / d;
    assert q >= d;
    MulLeft(d, d, q);
  }

  /**
   * Trial division that has reached `i` with `i * i > n` and found no
   * divisor below `i` has proved `n` prime.
   */
  lemma NoSmallDivisorMeansPrime(n: int, i: int)
    requires n >= 2 && i >= 2 && i * i > n
    requires forall j :: 2 <= j < i ==> n % j != 0
    ensures IsPrime(n)
  {
    if !IsPrime(n) {
      var d := CompositeHasSmallDivisor(n);
      if d >= i {
        SquareMonotone(i, d);
      }
    }
  }

  /** A divisor at least 2 whose square does not exceed `n` shows that `n` is composite. */
  lemma SmallDivisorMeansComposite(n: int, i: int)
    requires 2 <= i && i * i <= n && n % i == 0
    ensures !IsPrime(n)
  {
    MulLeft(i, 2, i);
  }

  /**
   * A candidate that passes the loop guard is below the number, and small
   * enough that stepping it by 2 cannot overflow a C# `int`.
   */
  lemma CounterBounds(number: int, i: int)
    requires 3 <= i && i * i <= number <= Int32Max
    ensures i <= number && i <= 46340
  {
    MulLeft(i, 3, i);
    if i > 46340 {
      SquareMonotone(46341, i);
    }
  }

  /**
   * `ClassicalFactor.Factor` without its timing: 2 for an even number,
   * otherwise the first odd `i >= 3` with `i * i <= number` that divides
   * `number`, otherwise nothing.  The source's guard
   * `i <= Math.Sqrt(number)` is `i * i <= number`, which agrees with it on
   * the whole 32-bit range.
   */
  method Factor(number: int) returns (factor: Option<int>)
    requires IsInt32(number)
    ensures number % 2 == 0 ==> factor == Some(2)
    ensures factor.Some? ==> factor.value >= 2 && number % factor.value == 0
    ensures factor.Some? ==> forall j :: 2 <= j < factor.value ==> number % j != 0
    ensures number % 2 != 0 && factor.Some? ==>
              factor.value % 2 == 1 && 3 <= factor.value && factor.value * factor.value <= number
    ensures number % 2 != 0 && number < 9 ==> factor == None
    ensures number % 2 != 0 && number >= 3 ==> (factor == None <==> IsPrime(number))
  {
    if number % 2 == 0 {
      return Some(2);
    }
    var i := 3;
    while i * i <= number
      invariant 3 <= i <= 46342 && i % 2 == 1
      invariant forall j :: 2 <= j < i ==> number % j != 0
      decreases number - i
    {
      CounterBounds(number, i);
      if number % i == 0 {
        SmallDivisorMeansComposite(number, i);
        return Some(i);
      }
      OddHasNoEvenDivisor(number, i + 1);
      i := i + 2;
    }
    if number >= 3 {
      NoSmallDivisorMeansPrime(number, i);
    }
    return None;
  }
}
