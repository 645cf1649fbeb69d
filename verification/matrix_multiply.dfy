/** The matrix multiplication routine of the algorithm service. */
module MatrixRoutine {
  import opened Wrappers
  import opened Errors
  import opened Payloads
  import opened Decimal

  /** a[i][k] and b[k][j] exist for every k < n. */
  predicate Readable(a: Matrix, b: Matrix, i: nat, j: nat, n: nat) {
    i < |a| && n <= |a[i]| && n <= |b| && forall k :: 0 <= k < n ==> j < |b[k]|
  }

  /** a[i][0] * b[0][j] + ... + a[i][n-1] * b[n-1][j], added in increasing k as the loop does. */
  function Dot(a: Matrix, b: Matrix, i: nat, j: nat, n: nat): int
    requires Readable(a, b, i, j, n)
  {
    if n == 0 then 0 else Dot(a, b, i, j, n - 1) + a[i][n - 1] * b[n - 1][j]
  }

  /**
   * Every a[i][k] and b[k][j] the triple loop reads exists. With no column in `b`
   * the inner loops never run, so nothing is read at all.
   */
  predicate ReadsInBounds(a: Matrix, b: Matrix)
    requires |a| > 0 && |b| > 0 && |a[0]| == |b|
  {
    |b[0]| == 0 ||
    ((forall i :: 0 <= i < |a| ==> |a[i]| >= |a[0]|) &&
     (forall k :: 0 <= k < |b| ==> |b[k]| >= |b[0]|))
  }

  /** The rows_a by cols_b matrix of dot products. */
  function Product(a: Matrix, b: Matrix): (c: Matrix)
    requires |a| > 0 && |b| > 0 && |a[0]| == |b| && ReadsInBounds(a, b)
    ensures |c| == |a|
    ensures forall i :: 0 <= i < |c| ==> |c[i]| == |b[0]|
    ensures forall i, j :: 0 <= i < |c| && 0 <= j < |c[i]| ==> c[i][j] == Dot(a, b, i, j, |b|)
  {
    seq(|a|, i requires 0 <= i < |a| =>
      seq(|b[0]|, j requires 0 <= j < |b[0]| => Dot(a, b, i, j, |b|)))
  }

  /** "{rows_a}x{cols_a} × {rows_b}x{cols_b} = {rows_a}x{cols_b}". */
  function Dimensions(rowsA: nat, colsA: nat, rowsB: nat, colsB: nat): string {
    NatToString(rowsA) + "x" + NatToString(colsA) + " \U{D7} " +
    NatToString(rowsB) + "x" + NatToString(colsB) + " = " +
    NatToString(rowsA) + "x" + NatToString(colsB)
  }

  /** What the routine returns: the two input errors, an IndexError for a ragged matrix, or the product. */
  function MatrixMultiplyOutcome(input: Input): (r: Result<Output, Error>)
    ensures var a, b := input.matrixA.GetOr([]), input.matrixB.GetOr([]);
      && (|a| == 0 || |b| == 0 ==> r == Err(ValueError("Both matrices are required")))
      && (|a| > 0 && |b| > 0 && |a[0]| != |b| ==>
            r == Err(ValueError("Matrix dimensions are incompatible for multiplication")))
      && (|a| > 0 && |b| > 0 && |a[0]| == |b| && !ReadsInBounds(a, b) ==> r == Err(IndexError(ListIndexOutOfRange)))
      && (|a| > 0 && |b| > 0 && |a[0]| == |b| && ReadsInBounds(a, b) ==>
            r == Ok(MatrixResult(a, b, Product(a, b), Dimensions(|a|, |a[0]|, |b|, |b[0]|))))
  {
    var a, b := input.matrixA.GetOr([]), input.matrixB.GetOr([]);
    if |a| == 0 || |b| == 0 then Err(ValueError("Both matrices are required"))
    else if |a[0]| != |b| then Err(ValueError("Matrix dimensions are incompatible for multiplication"))
    else if !ReadsInBounds(a, b) then Err(IndexError(ListIndexOutOfRange))
    else Ok(MatrixResult(a, b, Product(a, b), Dimensions(|a|, |a[0]|, |b|, |b[0]|)))
  }

  /** The innermost loop: `result[i][j] += a[i][k] * b[k][j]` for each k, stopping at the first index out of range. */
  method AccumulateCell(result: array2<int>, a: Matrix, b: Matrix, i: nat, j: nat, n: nat) returns (ok: bool)
    requires i < result.Length0 && j < result.Length1 && i < |a| && n <= |b|
    requires result[i, j] == 0
    modifies result
    ensures ok <==> Readable(a, b, i, j, n)
    ensures ok ==> result[i, j] == Dot(a, b, i, j, n)
    ensures forall i', j' :: 0 <= i' < result.Length0 && 0 <= j' < result.Length1 && (i' != i || j' != j) ==>
      result[i', j'] == old(result[i', j'])
  {
    for k := 0 to n
      invariant Readable(a, b, i, j, k)
      invariant result[i, j] == Dot(a, b, i, j, k)
      invariant forall i', j' :: 0 <= i' < result.Length0 && 0 <= j' < result.Length1 && (i' != i || j' != j) ==>
        result[i', j'] == old(result[i', j'])
    {
      if k >= |a[i]| || j >= |b[k]| {
        return false;
      }
      result[i, j] := result[i, j] + a[i][k] * b[k][j];
    }
    return true;
  }

  /** Checks the dimensions, then accumulates `result[i][j] += a[i][k] * b[k][j]` in a triple loop. */
  method MatrixMultiplyAlgorithm(input: Input) returns (r: Result<Output, Error>)
    ensures r == MatrixMultiplyOutcome(input)
  {
    var a, b := input.matrixA.GetOr([]), input.matrixB.GetOr([]);
    if |a| == 0 || |b| == 0 {
      return Err(ValueError("Both matrices are required"));
    }
    var rowsA, colsA := |a|, |a[0]|;
    var rowsB, colsB := |b|, |b[0]|;
    if colsA != rowsB {
      return Err(ValueError("Matrix dimensions are incompatible for multiplication"));
    }
    var result := new int[rowsA, colsB]((_, _) => 0);
    for i := 0 to rowsA
      invariant forall i', j' :: 0 <= i' < i && 0 <= j' < colsB ==>
        Readable(a, b, i', j', colsA) && result[i', j'] == Dot(a, b, i', j', colsA)
      invariant forall i', j' :: i <= i' < rowsA && 0 <= j' < colsB ==> result[i', j'] == 0
    {
      for j := 0 to colsB
        invariant forall i', j' :: 0 <= i' < i && 0 <= j' < colsB ==>
          Readable(a, b, i', j', colsA) && result[i', j'] == Dot(a, b, i', j', colsA)
        invariant forall j' :: 0 <= j' < j ==>
          Readable(a, b, i, j', colsA) && result[i, j'] == Dot(a, b, i, j', colsA)
        invariant forall i', j' :: i <= i' < rowsA && j <= j' < colsB ==> result[i', j'] == 0
        invariant forall i', j' :: i < i' < rowsA && 0 <= j' < colsB ==> result[i', j'] == 0
      {
        var ok := AccumulateCell(result, a, b, i, j, colsA);
        if !ok {
          OutOfRangeCell(a, b, i, j);
          return Err(IndexError(ListIndexOutOfRange));
        }
      }
    }
    var product := seq(rowsA, i requires 0 <= i < rowsA reads result =>
      seq(colsB, j requires 0 <= j < colsB reads result => result[i, j]));
    ProductOfCells(a, b, product);
    return Ok(MatrixResult(a, b, product, Dimensions(rowsA, colsA, rowsB, colsB)));
  }

  /** A cell whose entries cannot all be read means some row is too short. */
  lemma OutOfRangeCell(a: Matrix, b: Matrix, i: nat, j: nat)
    requires |a| > 0 && |b| > 0 && |a[0]| == |b|
    requires i < |a| && j < |b[0]| && !Readable(a, b, i, j, |b|)
    ensures !ReadsInBounds(a, b)
  {
  }

  /** A matrix of the right shape whose every cell is the dot product is the product, and every read was in range. */
  lemma ProductOfCells(a: Matrix, b: Matrix, product: Matrix)
    requires |a| > 0 && |b| > 0 && |a[0]| == |b|
    requires |product| == |a| && forall i :: 0 <= i < |a| ==> |product[i]| == |b[0]|
    requires forall i, j :: 0 <= i < |a| && 0 <= j < |b[0]| ==>
      Readable(a, b, i, j, |b|) && product[i][j] == Dot(a, b, i, j, |b|)
    ensures ReadsInBounds(a, b) && product == Product(a, b)
  {
    if |b[0]| > 0 {
      forall i | 0 <= i < |a| ensures |a[i]| >= |a[0]| {
        assert Readable(a, b, i, 0, |b|);
      }
      assert Readable(a, b, 0, |b[0]| - 1, |b|);
    }
    var expected := Product(a, b);
    forall i | 0 <= i < |a| ensures product[i] == expected[i] {
    }
  }

  /** [[1, 2], [3, 4]] times [[5, 6], [7, 8]] is [[19, 22], [43, 50]], described as "2x2 × 2x2 = 2x2". */
  lemma Example()
    ensures MatrixMultiplyOutcome(EmptyInput.(matrixA := Some([[1, 2], [3, 4]]), matrixB := Some([[5, 6], [7, 8]])))
         == Ok(MatrixResult([[1, 2], [3, 4]], [[5, 6], [7, 8]], [[19, 22], [43, 50]], "2x2 \U{D7} 2x2 = 2x2"))
  {
    var a, b := [[1, 2], [3, 4]], [[5, 6], [7, 8]];
    assert ReadsInBounds(a, b);
    var c := Product(a, b);
    assert c[0] == [19, 22] by {
      assert Dot(a, b, 0, 0, 1) == 5 && Dot(a, b, 0, 1, 1) == 6;
    }
    assert c[1] == [43, 50] by {
      assert Dot(a, b, 1, 0, 1) == 15 && Dot(a, b, 1, 1, 1) == 18;
    }
    assert c == [[19, 22], [43, 50]];
    assert NatToString(2) == "2";
    assert Dimensions(2, 2, 2, 2) == "2x2 \U{D7} 2x2 = 2x2";
    var input := EmptyInput.(matrixA := Some(a), matrixB := Some(b));
    assert input.matrixA.GetOr([]) == a && input.matrixB.GetOr([]) == b;
  }

  /** Multiplying a 2x3 matrix by a 2x2 one is refused. */
  lemma IncompatibleExample()
    ensures MatrixMultiplyOutcome(EmptyInput.(matrixA := Some([[1, 2, 3], [4, 5, 6]]), matrixB := Some([[1, 2], [3, 4]])))
         == Err(ValueError("Matrix dimensions are incompatible for multiplication"))
  {
  }
}
