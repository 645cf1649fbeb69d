/** The pure helpers: key filtering, slice-based pagination and the matrix shape check. */
module Helpers {
  import opened Wrappers
  import opened Errors
  import opened Payloads
  import opened MatrixRoutine

  /** `sanitize_dict`: the entries of `data` whose key is allowed. */
  function SanitizeDict<V>(data: map<string, V>, allowedKeys: seq<string>): (r: map<string, V>)
    ensures forall k :: k in r <==> k in data && k in allowedKeys
    ensures forall k :: k in r ==> r[k] == data[k]
  {
    map k | k in data && k in allowedKeys :: data[k]
  }

  /** Filtering a second time with the same keys changes nothing. */
  lemma SanitizeIdempotent<V>(data: map<string, V>, allowedKeys: seq<string>)
    ensures SanitizeDict(SanitizeDict(data, allowedKeys), allowedKeys) == SanitizeDict(data, allowedKeys)
  {
  }

  /** Filtering by two key lists gives the same dictionary in either order. */
  lemma SanitizeCommutes<V>(data: map<string, V>, first: seq<string>, second: seq<string>)
    ensures SanitizeDict(SanitizeDict(data, first), second) == SanitizeDict(SanitizeDict(data, second), first)
  {
  }

  /** Python's `a // b`: the floor of the quotient, for either sign of `b`. */
  function FloorDiv(a: int, b: int): (q: int)
    requires b != 0
    ensures b > 0 ==> b * q <= a < b * q + b
    ensures b < 0 ==> b * q + b < a <= b * q
  {
    if b > 0 then a / b else (-a) / (-b)
  }

  /** Where a Python slice bound lands in a list of length `len`: negative counts from the end, then clamped. */
  function SliceIndex(i: int, len: nat): (c: nat)
    ensures c <= len
    ensures 0 <= i <= len ==> c == i
    ensures i > len ==> c == len
    ensures i < 0 ==> c == if i + len < 0 then 0 else i + len
  {
    if i < 0 then (if i + len < 0 then 0 else i + len)
    else if i > len then len
    else i
  }

  /** Python's `s[start:end]`. */
  function PySlice<T>(s: seq<T>, start: int, end: int): seq<T> {
    var lo, hi := SliceIndex(start, |s|), SliceIndex(end, |s|);
    if lo < hi then s[lo..hi] else []
  }

  /** The dictionary `paginate_results` returns. */
  datatype Page<T> = Page(items: seq<T>, total: nat, page: int, perPage: int, totalPages: int)

  /** `paginate_results`; the page count divides by `per_page`, so a zero page size raises. */
  function PaginateResults<T>(items: seq<T>, page: int, perPage: int): (r: Result<Page<T>, Error>)
    ensures r.Err? <==> perPage == 0
    ensures r.Err? ==> r.error == ZeroDivisionError(IntegerDivisionByZero)
    ensures r.Ok? ==> r.value.total == |items| && r.value.page == page && r.value.perPage == perPage
  {
    var start := (page - 1) * perPage;
    var end := start + perPage;
    if perPage == 0 then Err(ZeroDivisionError(IntegerDivisionByZero))
    else Ok(Page(PySlice(items, start, end), |items|, page, perPage, FloorDiv(|items| + perPage - 1, perPage)))
  }

  function Min(x: int, y: int): int {
    if x <= y then x else y
  }

  /** The index of the first item of `page`, for a positive page and page size. */
  function PageStart(page: int, perPage: int): (start: nat)
    requires page >= 1 && perPage >= 1
    ensures start == (page - 1) * perPage
  {
    MulNonNegative(page - 1, perPage);
    (page - 1) * perPage
  }

  /** For a positive page and page size, a page is the stretch [(page-1)*per_page, page*per_page) cut to the list. */
  lemma PageIsWindow<T>(items: seq<T>, page: int, perPage: int)
    requires page >= 1 && perPage >= 1
    ensures var r, start := PaginateResults(items, page, perPage), PageStart(page, perPage);
      && r.Ok?
      && r.value.items == items[Min(start, |items|)..Min(start + perPage, |items|)]
      && |r.value.items| <= perPage
  {
  }

  lemma MulNonNegative(x: int, y: int)
    requires x >= 0 && y >= 0
    ensures x * y >= 0
  {
  }

  /** `total_pages` is the ceiling of len / per_page: the fewest pages of that size that hold the list. */
  lemma TotalPagesIsCeiling<T>(items: seq<T>, page: int, perPage: int)
    requires perPage >= 1
    ensures var r := PaginateResults(items, page, perPage);
      && r.Ok?
      && r.value.totalPages >= 0
      && (r.value.totalPages - 1) * perPage < |items| <= r.value.totalPages * perPage
  {
    var len, tp := |items|, PaginateResults(items, page, perPage).value.totalPages;
    assert tp == FloorDiv(len + perPage - 1, perPage);
    assert perPage * tp <= len + perPage - 1 < perPage * tp + perPage;
    MulCommutes(tp, perPage);
    MulDistributes(tp, perPage);
    if tp < 0 {
      MulMonotone(tp, -1, perPage);
    }
  }

  lemma MulCommutes(x: int, y: int)
    ensures x * y == y * x
  {
  }

  lemma MulDistributes(x: int, y: int)
    ensures (x - 1) * y == x * y - y
  {
  }

  /** Every page after the last one is empty. */
  lemma BeyondLastPageEmpty<T>(items: seq<T>, page: int, perPage: int)
    requires perPage >= 1
    requires page > PaginateResults(items, 1, perPage).value.totalPages
    ensures PaginateResults(items, page, perPage).value.items == []
  {
    var tp := PaginateResults(items, 1, perPage).value.totalPages;
    TotalPagesIsCeiling(items, 1, perPage);
    PageIsWindow(items, page, perPage);
    assert PageStart(page, perPage) >= tp * perPage by {
      MulMonotone(tp, page - 1, perPage);
    }
  }

  lemma MulMonotone(x: int, y: int, m: int)
    requires x <= y && m >= 0
    ensures x * m <= y * m
  {
    assert y * m - x * m == (y - x) * m;
    MulNonNegative(y - x, m);
  }

  /** The items of pages 1 to k, one after another. */
  function PagesUpTo<T>(items: seq<T>, perPage: int, k: nat): seq<T>
    requires perPage >= 1
  {
    if k == 0 then [] else PagesUpTo(items, perPage, k - 1) + PaginateResults(items, k, perPage).value.items
  }

  lemma {:induction false} PagesUpToPrefix<T>(items: seq<T>, perPage: int, k: nat)
    requires perPage >= 1
    ensures Min(k * perPage, |items|) >= 0
    ensures PagesUpTo(items, perPage, k) == items[..Min(k * perPage, |items|)]
  {
    MulNonNegative(k, perPage);
    if k > 0 {
      var start := PageStart(k, perPage);
      MulDistributes(k, perPage);
      PagesUpToPrefix(items, perPage, k - 1);
      PageIsWindow(items, k, perPage);
      JoinSlices(items, PagesUpTo(items, perPage, k - 1), PaginateResults(items, k, perPage).value.items,
                 Min(start, |items|), Min(k * perPage, |items|));
    }
  }

  /** A prefix followed by the stretch right after it is the longer prefix. */
  lemma JoinSlices<T>(items: seq<T>, prefix: seq<T>, next: seq<T>, lo: nat, hi: nat)
    requires lo <= hi <= |items|
    requires prefix == items[..lo] && next == items[lo..hi]
    ensures prefix + next == items[..hi]
  {
    assert items[..hi] == items[..lo] + items[lo..hi];
  }

  /** Reading pages 1 to total_pages in order gives back the whole list. */
  lemma PagesReproduceList<T>(items: seq<T>, perPage: int)
    requires perPage >= 1
    ensures PagesUpTo(items, perPage, PaginateResults(items, 1, perPage).value.totalPages) == items
  {
    TotalPagesIsCeiling(items, 1, perPage);
    var tp := PaginateResults(items, 1, perPage).value.totalPages;
    PagesUpToPrefix(items, perPage, tp);
    assert items[..|items|] == items;
  }

  /** Every row has `cols` entries. */
  function RowsHaveLength(rows: Matrix, cols: nat): (ok: bool)
    ensures ok <==> forall i :: 0 <= i < |rows| ==> |rows[i]| == cols
  {
    rows == [] || (|rows[0]| == cols && RowsHaveLength(rows[1..], cols))
  }

  /** `validate_matrix`: a non-empty matrix with a non-empty first row, and every row as long as the first. */
  function ValidateMatrix(matrix: Matrix): (ok: bool)
    ensures ok <==> && |matrix| > 0 && |matrix[0]| > 0
                    && forall i :: 0 <= i < |matrix| ==> |matrix[i]| == |matrix[0]|
  {
    if |matrix| == 0 || |matrix[0]| == 0 then false else RowsHaveLength(matrix, |matrix[0]|)
  }

  /** Two valid matrices whose inner dimensions agree are multiplied without error. */
  lemma ValidMatricesMultiply(a: Matrix, b: Matrix)
    requires ValidateMatrix(a) && ValidateMatrix(b) && |a[0]| == |b|
    ensures var r := MatrixMultiplyOutcome(EmptyInput.(matrixA := Some(a), matrixB := Some(b)));
      && r.Ok? && |r.value.product| == |a|
      && forall i :: 0 <= i < |a| ==> |r.value.product[i]| == |b[0]|
  {
    assert ReadsInBounds(a, b);
  }
}
