/** The trial-division primality routine of the algorithm service. */
module PrimeCheckRoutine {
  import opened Wrappers
  import opened Errors
  import opened Payloads

  /** `int(n ** 0.5)`, taken as the exact integer square root (the largest s with s*s <= n). */
  function FloorSqrt(n: nat): (s: nat)
    ensures s * s <= n < (s + 1) * (s + 1)
  {
    if n == 0 then 0
    else
      var r := FloorSqrt(n - 1);
      if (r + 1) * (r + 1) <= n then
        assert (r + 2) * (r + 2) == (r + 1) * (r + 1) + 2 * r + 3;
        r + 1
      else r
  }

  /** A prime has no divisor between 2 and itself. */
  predicate IsPrime(n: int) {
    n >= 2 && forall d :: 2 <= d < n ==> n % d != 0
  }

  /** `d` is the smallest divisor of `n` that is at least 2. */
  predicate IsLeastDivisor(n: int, d: int) {
    2 <= d && n % d == 0 && forall e :: 2 <= e < d ==> n % e != 0
  }

  /** The first `d` in from..bound, in increasing order, that divides `n`. */
  function FirstDivisor(n: int, from: nat, bound: nat): (r: Option<int>)
    requires from >= 1
    ensures r.Some? ==> from <= r.value <= bound && n % r.value == 0
    ensures r.Some? ==> forall e :: from <= e < r.value ==> n % e != 0
    ensures r.None? ==> forall e :: from <= e <= bound ==> n % e != 0
    decreases bound + 1 - from
  {
    if from > bound then None
    else if n % from == 0 then Some(from)
    else FirstDivisor(n, from + 1, bound)
  }

  lemma MulBelow(a: nat, b: nat, c: nat)
    requires a >= c && b >= c
    ensures a * b >= c * c
  {
  }

  lemma MultipleHasZeroRemainder(a: int, d: int, m: int)
    requires d > 0 && a == d * m
    ensures a % d == 0
  {
    var k := m - a / d;
    assert a == d * (a / d) + a % d;
    assert d * k == a % d by {
      assert d * k == d * m - d * (a / d);
    }
  }

  /** A divisor e of n below n has a partner n / e that is at least 2 and divides n too. */
  lemma DivisorPair(n: nat, e: nat)
    requires 2 <= e < n && n % e == 0
    ensures var q := n / e; 2 <= q && n == e * q && n % q == 0
  {
    var q := n / e;
    assert n == e * q;
    MultipleHasZeroRemainder(n, q, e);
  }

  /** Of a divisor pair e * q == n, one side is no larger than the square root. */
  lemma SmallDivisor(n: nat, e: nat) returns (w: nat)
    requires 2 <= e < n && n % e == 0
    ensures 2 <= w <= FloorSqrt(n) && n % w == 0
  {
    var s := FloorSqrt(n);
    DivisorPair(n, e);
    var q := n / e;
    if e > s && q > s {
      MulBelow(e, q, s + 1);
      assert false;
    }
    w := if e <= s then e else q;
  }

  /** From 2 on, the square root lies below the number, so trial division never tries the number itself. */
  lemma SqrtBelow(n: nat)
    requires n >= 2
    ensures FloorSqrt(n) < n
  {
  }

  /**
   * Trial division up to the square root decides primality: a composite number
   * always has a divisor no larger than its square root.
   */
  lemma TrialDivisionDecides(n: nat)
    requires n >= 2
    ensures FirstDivisor(n, 2, FloorSqrt(n)).None? <==> IsPrime(n)
  {
    if !IsPrime(n) {
      var e :| 2 <= e < n && n % e == 0;
      var w := SmallDivisor(n, e);
    } else {
      SqrtBelow(n);
    }
  }

  /** What the routine returns: an error without a number, otherwise the primality verdict and the smallest divisor. */
  function PrimeCheckOutcome(input: Input): (r: Result<Output, Error>)
    ensures r.Err? <==> input.number.None?
    ensures r.Err? ==> r.error == ValueError("number is required")
    ensures r.Ok? ==> r.value.PrimeCheckResult? && r.value.number == input.number.value
    ensures r.Ok? ==> (r.value.isPrime <==> IsPrime(r.value.number))
    ensures r.Ok? ==> (r.value.divisor.Some? <==> r.value.number >= 2 && !r.value.isPrime)
    ensures r.Ok? && r.value.divisor.Some? ==>
      var d := r.value.divisor.value; var n := r.value.number;
      IsLeastDivisor(n, d) && d * d <= n
  {
    match input.number
    case None => Err(ValueError("number is required"))
    case Some(n) =>
      if n < 2 then Ok(PrimeCheckResult(false, n, None))
      else
        TrialDivisionDecides(n);
        match FirstDivisor(n, 2, FloorSqrt(n))
        case Some(d) =>
          assert d * d <= n by { MulBelow(FloorSqrt(n), FloorSqrt(n), d); }
          Ok(PrimeCheckResult(false, n, Some(d)))
        case None => Ok(PrimeCheckResult(true, n, None))
  }

  /** Tries 2, 3, ... up to the square root and stops at the first divisor, as the service does. */
  method PrimeCheckAlgorithm(input: Input) returns (r: Result<Output, Error>)
    ensures r == PrimeCheckOutcome(input)
  {
    if input.number.None? {
      return Err(ValueError("number is required"));
    }
    var number := input.number.value;
    if number < 2 {
      return Ok(PrimeCheckResult(false, number, None));
    }
    var bound := FloorSqrt(number);
    for i := 2 to bound + 1
      invariant FirstDivisor(number, i, bound) == FirstDivisor(number, 2, bound)
    {
      if number % i == 0 {
        return Ok(PrimeCheckResult(false, number, Some(i)));
      }
    }
    return Ok(PrimeCheckResult(true, number, None));
  }

  /** The floor square root is the only s with s*s <= n < (s+1)*(s+1). */
  lemma FloorSqrtUnique(n: nat, s: nat)
    requires s * s <= n < (s + 1) * (s + 1)
    ensures FloorSqrt(n) == s
  {
    var t := FloorSqrt(n);
    if t < s {
      MulBelow(s, s, t + 1);
    } else if t > s {
      MulBelow(t, t, s + 1);
    }
  }

  /** 1 is not prime and has no divisor reported. */
  lemma ExampleOne()
    ensures PrimeCheckOutcome(EmptyInput.(number := Some(1))) == Ok(PrimeCheckResult(false, 1, None))
  {
  }

  /** 2 is prime: there is nothing to try below its square root. */
  lemma ExampleTwo()
    ensures PrimeCheckOutcome(EmptyInput.(number := Some(2))) == Ok(PrimeCheckResult(true, 2, None))
  {
    FloorSqrtUnique(2, 1);
  }

  /** 4 is not prime, with divisor 2. */
  lemma ExampleFour()
    ensures PrimeCheckOutcome(EmptyInput.(number := Some(4))) == Ok(PrimeCheckResult(false, 4, Some(2)))
  {
    FloorSqrtUnique(4, 2);
  }

  /** 17 is prime: 2, 3 and 4 do not divide it. */
  lemma ExampleSeventeen()
    ensures PrimeCheckOutcome(EmptyInput.(number := Some(17))) == Ok(PrimeCheckResult(true, 17, None))
  {
    FloorSqrtUnique(17, 4);
    assert FirstDivisor(17, 2, 4) == FirstDivisor(17, 3, 4) == FirstDivisor(17, 4, 4) == FirstDivisor(17, 5, 4) == None;
  }
}
