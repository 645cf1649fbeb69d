/** The Fibonacci routine of the algorithm service. */
module FibonacciRoutine {
  import opened Wrappers
  import opened Errors
  import opened Payloads

  /** F(0) = 0, F(1) = 1, F(k) = F(k-1) + F(k-2). */
  function Fib(k: nat): nat {
    if k < 2 then k else Fib(k - 1) + Fib(k - 2)
  }

  /** F(0), ..., F(n). */
  function FibSequence(n: nat): seq<int> {
    seq(n + 1, k requires 0 <= k => Fib(k))
  }

  /** `n` when it is given, 10 otherwise. */
  function RequestedN(input: Input): int {
    input.n.GetOr(10)
  }

  /** What the routine returns for an input: an error for a negative `n`, otherwise F(n) and F(0)..F(n). */
  function FibonacciOutcome(input: Input): (r: Result<Output, Error>)
    ensures r.Err? <==> RequestedN(input) < 0
    ensures r.Err? ==> r.error == ValueError("n must be non-negative")
    ensures r.Ok? ==> r.value.FibonacciResult?
    ensures r.Ok? ==> var s := r.value.sequence; var n := RequestedN(input);
      && |s| == n + 1
      && s[0] == 0
      && (n >= 1 ==> s[1] == 1)
      && (forall k :: 2 <= k <= n ==> s[k] == s[k - 1] + s[k - 2])
      && r.value.result == s[n]
  {
    var n := RequestedN(input);
    if n < 0 then Err(ValueError("n must be non-negative"))
    else Ok(FibonacciResult(Fib(n), FibSequence(n)))
  }

  /** Builds the sequence by appending the sum of the last two elements, as the service does. */
  method FibonacciAlgorithm(input: Input) returns (r: Result<Output, Error>)
    ensures r == FibonacciOutcome(input)
  {
    var n := input.n.GetOr(10);
    if n < 0 {
      return Err(ValueError("n must be non-negative"));
    }
    if n <= 1 {
      assert FibSequence(n) == if n == 0 then [0] else [0, 1];
      return Ok(FibonacciResult(n, if n == 0 then [0] else [0, 1]));
    }
    var sequence := [0, 1];
    for i := 2 to n + 1
      invariant |sequence| == i
      invariant forall k :: 0 <= k < i ==> sequence[k] == Fib(k)
    {
      sequence := sequence + [sequence[i - 1] + sequence[i - 2]];
    }
    assert sequence == FibSequence(n);
    return Ok(FibonacciResult(sequence[n], sequence));
  }

  /** The sequence for n extends the sequence for n - 1 by one element. */
  lemma PrefixStable(input: Input, shorter: Input)
    requires RequestedN(input) >= 1 && RequestedN(shorter) == RequestedN(input) - 1
    ensures FibonacciOutcome(shorter).value.sequence == FibonacciOutcome(input).value.sequence[..RequestedN(input)]
  {
  }

  /** The default request (no `n`) computes F(10) = 55 with eleven elements. */
  lemma DefaultIsTen()
    ensures FibonacciOutcome(EmptyInput) == Ok(FibonacciResult(55, [0, 1, 1, 2, 3, 5, 8, 13, 21, 34, 55]))
  {
    assert Fib(2) == 1 && Fib(3) == 2 && Fib(4) == 3 && Fib(5) == 5 && Fib(6) == 8;
    assert Fib(7) == 13 && Fib(8) == 21 && Fib(9) == 34 && Fib(10) == 55;
    var s := FibonacciOutcome(EmptyInput).value.sequence;
    assert s == [0, 1, 1, 2, 3, 5, 8, 13, 21, 34, 55];
  }
}
