/** The shapes of the dictionaries the routines read and return, and the closed set of algorithm kinds. */
module Payloads {
  import opened Wrappers

  type Matrix = seq<seq<int>>

  /** The four supported kinds and the string each one travels as. */
  datatype AlgorithmType = Fibonacci | PrimeCheck | Sorting | MatrixMultiply {
    function Name(): string {
      match this
      case Fibonacci => "fibonacci"
      case PrimeCheck => "prime_check"
      case Sorting => "sorting"
      case MatrixMultiply => "matrix_multiply"
    }
  }

  /** `AlgorithmType(s)`: the kind whose string value is `s`, if any. */
  function ParseAlgorithmType(s: string): (t: Option<AlgorithmType>)
    ensures t.Some? ==> t.value.Name() == s
  {
    if s == "fibonacci" then Some(Fibonacci)
    else if s == "prime_check" then Some(PrimeCheck)
    else if s == "sorting" then Some(Sorting)
    else if s == "matrix_multiply" then Some(MatrixMultiply)
    else None
  }

  /** Every kind's string parses back to that kind. */
  lemma ParseName(t: AlgorithmType)
    ensures ParseAlgorithmType(t.Name()) == Some(t)
  {
  }

  /** The keys of `input_data` the routines look up; None stands for a missing key. */
  datatype Input = Input(
    n: Option<int>,
    number: Option<int>,
    elements: Option<seq<int>>,  // the "array" key
    algorithm: Option<string>,
    matrixA: Option<Matrix>,
    matrixB: Option<Matrix>)

  /** An input holding nothing but the given keys. */
  const EmptyInput := Input(None, None, None, None, None, None)

  /** The result dictionary of each routine. */
  datatype Output =
    | FibonacciResult(result: int, sequence: seq<int>)
    | PrimeCheckResult(isPrime: bool, number: int, divisor: Option<int>)
    | SortingResult(original: seq<int>, sorted: seq<int>, algorithm: string)
    | MatrixResult(matrixA: Matrix, matrixB: Matrix, product: Matrix, dimensions: string)
}
