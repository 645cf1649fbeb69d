# Algorithm service of fastapi-supabase, modelled in Dafny

This project models the algorithm part of the FastAPI/Supabase backend, and the properties proved below are about that model:

- **The four routines** that `AlgorithmService` runs on a user's `input_data`:
  - Fibonacci, built by a loop;
  - prime check, by trial division up to the square root;
  - sorting, by a three-way quicksort, a top-down mergesort with a two-pointer merge, or the built-in sort as fallback;
  - matrix multiply, by a triple loop after two dimension checks.
- **The dispatcher `process_algorithm`**, which keeps a history record for each request in the `algorithm_requests` table. It creates the record as "processing", runs the routine, then marks the record "completed" with the result. After the record is created, any failure is written as "failed" with the error message and re-raised wrapped. If that failure write itself raises, its exception propagates and the record stays "processing". An empty create response raises KeyError('id') (see below).
- **The in-memory `AlgorithmRequest` record**: its status enum and its three mutators.
- **The pure helpers**: `sanitize_dict`, `paginate_results` and `validate_matrix`.
- **The list logic of the algorithm endpoints**: the history type filter, the static type catalog and the per-status and per-type statistics.

How each piece is modelled:

- **Loops become loops.** The loops that build or update state are `method`s with loops: Fibonacci, prime check, `_merge`, the matrix triple loop over an `array2`, and the usage-counting loop. The read-only row loop of `validate_matrix`, in the pure helpers, is the recursive function `RowsHaveLength`. The first four are proved equal to a specification function (`FibonacciOutcome`, `PrimeCheckOutcome`, `Merged`, `MatrixMultiplyOutcome`), and what the source promises is proved about those functions. The usage loop (`CountUsage`) is proved to leave exactly the types present as keys (`TypesPresent`), each mapped to its number of requests (`CountType`).
- **Recursive code stays functional.** `_quicksort` and `_mergesort` are recursion and comprehensions in the source, so they are functions here.
- **Python exceptions are values.** They become an `Error` datatype (ValueError, IndexError, KeyError, ZeroDivisionError, the store's exception and the dispatcher's wrapped exception), returned in a `Result`. `Str` gives the text `str(e)` would produce.
- **The Supabase table is an abstract store.** `RecordStore.Store` is a class holding a map from id to row. Its `CreateRecord` and `UpdateRecord` may each succeed or fail; the environment decides which. The store also keeps a log of every call with its outcome. `ProcessAlgorithm` is proved against `Lifecycle`, a predicate over the calls one invocation makes, so the order of store mutations is stated exactly.
- **`AlgorithmRequest` is a class.** Its mutators have field-level `modifies` frames and say what every other field keeps.

## Behaviour of the code worth knowing

- **Unknown algorithm type.** An unknown type still leaves a "failed" record behind. The record is created before the type is examined (app/services/algorithm_service.py:24, 36).
- **Empty first row of `matrix_b`.** This is not an error: `cols_b` is 0, the inner loops never run, and the product is a matrix of empty rows (app/services/algorithm_service.py:119-133).
- **Unguarded transitions.** The `AlgorithmRequest` mutators check nothing about the current status (app/models/algorithm.py:36-47; `CompletedThenFailed`, `FailedThenCompleted`).
- **A create call that returns no row.** The create wrapper then returns `{}` (app/services/supabase_service.py:12), and `request_record["id"]` raises `KeyError('id')`. Because `request_record` is bound, the except block indexes `request_record["id"]` again to mark the record failed. That raises KeyError once more, unwrapped, so no update is made. `Lifecycle` states this case.

## Model

| member | source | states |
|---|---|---|
| Payloads.ParseAlgorithmType | app/schemas/algorithm.py:7-11 | a string names an algorithm type only if it is that type's value |
| Payloads.ParseName | app/schemas/algorithm.py:7-11 | every algorithm type's value parses back to that type |
| Decimal.ParseNatToString | app/services/algorithm_service.py:139 | the decimal numeral used in the dimension string reads back as the number it renders |
| Decimal.NatToStringInjective | app/services/algorithm_service.py:139 | distinct sizes render as distinct numerals |
| FibonacciRoutine.FibonacciOutcome | app/services/algorithm_service.py:70-82 | an error exactly when n (default 10) is negative, with the source's message; otherwise a sequence of length n+1 starting 0, 1, where each later element is the sum of the two before it, and whose element n is the result |
| FibonacciRoutine.FibonacciAlgorithm | app/services/algorithm_service.py:70-82 | the appending loop returns exactly FibonacciOutcome, including the n <= 1 early returns |
| FibonacciRoutine.PrefixStable | app/services/algorithm_service.py:78-80 | the sequence for n-1 is the sequence for n without its last element |
| FibonacciRoutine.DefaultIsTen | app/services/algorithm_service.py:71 | with no n the result is 55 with the eleven numbers 0..55 |
| PrimeCheckRoutine.FloorSqrt | app/services/algorithm_service.py:92 | the integer square root: s*s <= n < (s+1)*(s+1) |
| PrimeCheckRoutine.FloorSqrtUnique | app/services/algorithm_service.py:92 | that bound pins down the square root uniquely |
| PrimeCheckRoutine.FirstDivisor | app/services/algorithm_service.py:92-94 | the first d in the range that divides n, with no divisor before it, or none in the range at all |
| PrimeCheckRoutine.TrialDivisionDecides | app/services/algorithm_service.py:92-96 | for n >= 2, no divisor up to the square root exists exactly when n is prime |
| PrimeCheckRoutine.PrimeCheckOutcome | app/services/algorithm_service.py:84-96 | an error exactly when the number is missing; otherwise is_prime holds iff the number is prime; a divisor is reported iff the number is >= 2 and composite, and it is the least divisor >= 2 with d*d <= number |
| PrimeCheckRoutine.PrimeCheckAlgorithm | app/services/algorithm_service.py:84-96 | the loop with its early return gives exactly PrimeCheckOutcome |
| PrimeCheckRoutine.ExampleOne | app/services/algorithm_service.py:89-90 | 1 is reported not prime, without a divisor |
| PrimeCheckRoutine.ExampleTwo | app/services/algorithm_service.py:92-96 | 2 is reported prime |
| PrimeCheckRoutine.ExampleFour | app/services/algorithm_service.py:92-94 | 4 is reported not prime with divisor 2 |
| PrimeCheckRoutine.ExampleSeventeen | app/services/algorithm_service.py:92-96 | 17 is reported prime |
| SortingRoutine.Part | app/services/algorithm_service.py:147-149 | each comprehension keeps every element on its side of the pivot, as often as it occurs, and nothing else |
| SortingRoutine.PartitionSplits | app/services/algorithm_service.py:146-149 | the three buckets together are the input; with the pivot taken from the list, both outer buckets are shorter than it |
| SortingRoutine.SortedJoin | app/services/algorithm_service.py:151 | ascending left and right buckets around the pivot's bucket join into an ascending list |
| SortingRoutine.QuicksortStep | app/services/algorithm_service.py:151 | sorting the outer buckets and joining gives an ascending permutation of the input |
| SortingRoutine.Quicksort | app/services/algorithm_service.py:142-151 | `_quicksort` returns an ascending permutation of its input |
| SortingRoutine.Merged | app/services/algorithm_service.py:163-178 | the merge has length len(left) + len(right) |
| SortingRoutine.MergedPermutation | app/services/algorithm_service.py:163-178 | the merge holds the elements of both lists, each as often as in both together |
| SortingRoutine.MergedSorted | app/services/algorithm_service.py:163-178 | merging two ascending lists gives an ascending list |
| SortingRoutine.TakeLeft | app/services/algorithm_service.py:168-170 | a step that takes the left head, the left one on ties, is a step of the merge |
| SortingRoutine.TakeRight | app/services/algorithm_service.py:171-173 | a step that takes the right head is a step of the merge |
| SortingRoutine.MergedRemainders | app/services/algorithm_service.py:175-176 | once one side is used up, the merge is the two remainders appended |
| SortingRoutine.Merge | app/services/algorithm_service.py:163-178 | the two-pointer loop computes exactly the merge |
| SortingRoutine.MergeSort | app/services/algorithm_service.py:153-161 | `_mergesort` returns an ascending permutation of its input |
| SortingRoutine.BuiltinSorted | app/services/algorithm_service.py:107 | `sorted` returns an ascending permutation of its input |
| SortingRoutine.SortedPermutationUnique | app/services/algorithm_service.py:102-107 | two ascending permutations of one list are equal |
| SortingRoutine.SortsAgree | app/services/algorithm_service.py:102-107 | quicksort and mergesort return what `sorted` returns, for every input |
| SortingRoutine.SortingAlgorithm | app/services/algorithm_service.py:98-113 | "original" is the input array (default empty), unchanged; "algorithm" is the given name (default "quicksort"); whatever the name, "sorted" is the ascending permutation of the array |
| SortingRoutine.DefaultExample | app/services/algorithm_service.py:99-103 | with no algorithm given, [2, 1] sorts to [1, 2] under "quicksort" |
| MatrixRoutine.Product | app/services/algorithm_service.py:128-133 | rows_a by cols_b, and entry [i][j] is the sum over k of a[i][k]*b[k][j] |
| MatrixRoutine.MatrixMultiplyOutcome | app/services/algorithm_service.py:115-140 | a missing or empty matrix gives "Both matrices are required"; cols_a != rows_b gives the incompatibility error; a row too short for the loop gives an IndexError; otherwise the inputs, the product and the dimension string |
| MatrixRoutine.AccumulateCell | app/services/algorithm_service.py:132-133 | the k loop succeeds iff every entry it reads exists, leaves the dot product in the cell and touches no other cell |
| MatrixRoutine.MatrixMultiplyAlgorithm | app/services/algorithm_service.py:115-140 | the triple loop over a zero-filled result gives exactly MatrixMultiplyOutcome |
| MatrixRoutine.OutOfRangeCell | app/services/algorithm_service.py:130-133 | a cell whose entries cannot all be read means a row of a or b is shorter than the first |
| MatrixRoutine.ProductOfCells | app/services/algorithm_service.py:128-133 | a result of the right shape whose cells are all dot products is the product, and every read was in range |
| MatrixRoutine.Example | app/services/algorithm_service.py:115-140 | [[1,2],[3,4]] times [[5,6],[7,8]] is [[19,22],[43,50]], described as "2x2 × 2x2 = 2x2" |
| MatrixRoutine.IncompatibleExample | app/services/algorithm_service.py:125-126 | a 2x3 times a 2x2 matrix is refused |
| RecordStore.Patched | app/services/algorithm_service.py:39-60 | a completion write sets status, result and completion time; a failure write sets status, error and completion time; every other field is kept |
| RecordStore.Store.CreateRecord | app/services/supabase_service.py:9-14 | the call is logged; on success the row is inserted under a fresh id; an empty response changes nothing; a failure is a store exception "Failed to create record: ..." |
| RecordStore.Store.UpdateRecord | app/services/supabase_service.py:36-41 | the call is logged; on success the patch is applied to that row, if it exists; a failure is a store exception "Failed to update record: ..." |
| AlgorithmService.Routine | app/services/algorithm_service.py:27-36 | any name that is not an algorithm type gives "Unknown algorithm type: <name>" |
| AlgorithmService.UnknownTypeExactly | app/services/algorithm_service.py:27-36 | the unknown-type error arises for exactly the names that are not algorithm types; no routine produces that message |
| AlgorithmService.RunRoutine | app/services/algorithm_service.py:27-36 | the if/elif chain runs the loop implementation of the chosen routine and returns what Routine specifies |
| AlgorithmService.RecordFailure | app/services/algorithm_service.py:53-61 | one update writes "failed" with str(e); the call raises the wrapped error, or the update's own exception if that update failed |
| AlgorithmService.Settle | app/services/algorithm_service.py:38-61 | after creation, a result is written as "completed" and returned; a routine error, or a failed completion write, is written as "failed" instead |
| AlgorithmService.ProcessAlgorithm | app/services/algorithm_service.py:13-61 | the calls made are exactly a Lifecycle: a "processing" create first; nothing more if it raised or returned no row; otherwise the settle sequence, whose completion write carries the completion-time reading and whose failure write the failure-time reading; the table is those calls replayed; the created id is fresh |
| AlgorithmService.FinalRecord | app/services/algorithm_service.py:16-61 | once created, the record keeps its creation fields and ends "completed" iff the call succeeds, with the returned id, the result and the completion time; "failed" iff the call raises the wrapped error, whose message is the prefix plus the stored error, with the failure time; still "processing" iff the call raises a store exception |
| AlgorithmModel.AlgorithmStatus.Value | app/models/algorithm.py:6-10 | each status has a non-empty string value |
| AlgorithmModel.ParseStatus | app/models/algorithm.py:6-10 | a string names a status only if it is that status's value |
| AlgorithmModel.ParseValue | app/models/algorithm.py:6-10 | every status's value parses back to that status |
| AlgorithmModel.ValueInjective | app/models/algorithm.py:6-10 | distinct statuses have distinct values |
| AlgorithmModel.AlgorithmRequest.constructor | app/models/algorithm.py:14-34 | every field is taken as given; a missing created_at becomes the current time |
| AlgorithmModel.AlgorithmRequest.MarkProcessing | app/models/algorithm.py:36-37 | only the status changes, to processing |
| AlgorithmModel.AlgorithmRequest.MarkCompleted | app/models/algorithm.py:39-42 | status completed, the result and the completion time are set; error and the identity fields are kept |
| AlgorithmModel.AlgorithmRequest.MarkFailed | app/models/algorithm.py:44-47 | status failed, the error and the completion time are set; result and the identity fields are kept |
| AlgorithmModel.AlgorithmRequest.ToDict | app/models/algorithm.py:49-60 | every field unchanged, the status as its string value, which parses back to the status |
| AlgorithmModel.NewRequestDefaults | app/models/algorithm.py:20-34 | a request built from the required arguments is pending, with no result, error or completion time, created now |
| AlgorithmModel.CompletedThenFailed | app/models/algorithm.py:36-47 | no transition is guarded: a completed request can be marked failed, and it keeps its result |
| AlgorithmModel.FailedThenCompleted | app/models/algorithm.py:39-47 | a failed request can be marked completed, and it keeps its error |
| Helpers.SanitizeDict | app/utils/helpers.py:27-28 | exactly the keys in both the data and the allowed keys, each with its original value |
| Helpers.SanitizeIdempotent | app/utils/helpers.py:27-28 | filtering twice with the same keys is filtering once |
| Helpers.SanitizeCommutes | app/utils/helpers.py:27-28 | filtering by two key lists in either order gives the same dictionary |
| Helpers.FloorDiv | app/utils/helpers.py:40 | Python's `//`: the floor of the quotient, for either sign of the divisor |
| Helpers.SliceIndex | app/utils/helpers.py:36 | a slice bound counts from the end when negative, then is clamped to the list |
| Helpers.PaginateResults | app/utils/helpers.py:31-41 | a ZeroDivisionError exactly when per_page is 0; otherwise total is the list length, and page and per_page are echoed |
| Helpers.PageStart | app/utils/helpers.py:32 | the first index of a positive page is (page-1)*per_page, never negative |
| Helpers.PageIsWindow | app/utils/helpers.py:32-36 | for a positive page and page size, items are the list from (page-1)*per_page to page*per_page, clamped, so at most per_page of them |
| Helpers.TotalPagesIsCeiling | app/utils/helpers.py:40 | total_pages is the ceiling of len/per_page: (total_pages-1)*per_page < len <= total_pages*per_page |
| Helpers.BeyondLastPageEmpty | app/utils/helpers.py:32-40 | every page after total_pages is empty |
| Helpers.PagesUpToPrefix | app/utils/helpers.py:32-36 | pages 1 to k, concatenated, are the first k*per_page items |
| Helpers.PagesReproduceList | app/utils/helpers.py:31-41 | pages 1 to total_pages, concatenated, are the whole list |
| Helpers.RowsHaveLength | app/utils/helpers.py:63-65 | the row loop passes iff every row has the given length |
| Helpers.ValidateMatrix | app/utils/helpers.py:56-67 | true iff the matrix and its first row are non-empty and every row is as long as the first |
| Helpers.ValidMatricesMultiply | app/utils/helpers.py:56-67 | two valid matrices whose inner sizes agree multiply without error, giving rows_a by cols_b |
| AlgorithmsApi.FilterHistory | app/api/v1/algorithms.py:59-60 | without a filter the history is unchanged; with one it is never longer |
| AlgorithmsApi.FilterHistoryContents | app/api/v1/algorithms.py:59-60 | an item is kept iff it is in the history and has the requested type, as often as it occurs there |
| AlgorithmsApi.FilterHistoryAppend | app/api/v1/algorithms.py:59-60 | the filter keeps order: filtering a concatenation concatenates the filtered parts |
| AlgorithmsApi.FilterHistoryIdempotent | app/api/v1/algorithms.py:59-60 | filtering twice by the same type is filtering once |
| AlgorithmsApi.AlgorithmTypes | app/api/v1/algorithms.py:70-105 | four entries, named fibonacci, prime_check, sorting and matrix_multiply, in that order |
| AlgorithmsApi.CatalogNamesDistinct | app/api/v1/algorithms.py:73-103 | no name is listed twice |
| AlgorithmsApi.ListedExactly | app/api/v1/algorithms.py:70-105 | a name is listed iff it is an algorithm type |
| AlgorithmsApi.CatalogIsDispatchable | app/api/v1/algorithms.py:70-105 | a name is listed iff the dispatcher accepts it rather than raising the unknown-type error |
| AlgorithmsApi.WithStatus | app/api/v1/algorithms.py:127-128 | exactly the requests with that status, each kept as often as it occurs, so its length is the count of that status; never more than all of them |
| AlgorithmsApi.StatusCountsBounded | app/api/v1/algorithms.py:126-128 | completed plus failed never exceeds the total |
| AlgorithmsApi.CountType | app/api/v1/algorithms.py:131-136 | the number of requests of a type is at most the total |
| AlgorithmsApi.CountTypeAppend | app/api/v1/algorithms.py:132-136 | one more request adds one to its type's count and nothing to the others |
| AlgorithmsApi.CountTypePositive | app/api/v1/algorithms.py:131-136 | a type's count is positive iff the type occurs |
| AlgorithmsApi.GetAlgorithmStats | app/api/v1/algorithms.py:117-143 | total is the number of requests; completed and failed count those statuses; the usage keys are exactly the types present, each mapped to its number of requests |
| AlgorithmsApi.CountUsage | app/api/v1/algorithms.py:131-136 | the loop leaves a dictionary whose keys are exactly the types present, each mapped to its number of requests |
| AlgorithmsApi.DistinctTypes | app/api/v1/algorithms.py:131-136 | a list holding each type present exactly once, and nothing else; it is the usage dictionary's key set |
| AlgorithmsApi.UsageSumsToTotal | app/api/v1/algorithms.py:131-143 | the usage values add up to the total number of requests |
| AlgorithmsApi.EmptyStats | app/api/v1/algorithms.py:117-123 | with no requests every count is zero and usage is empty |

## Left out

- Authentication, token handling and password hashing are foreign library calls and not part of this model.
- The Supabase client and its query builder are left out. The one table `process_algorithm` writes is modelled as an abstract store whose calls may fail. Whether a call fails, and the failure's text, are chosen by the environment.
- `get_algorithm_history` and the history and stats queries are left out: they are store queries. The filter and the counting are modelled over the list of rows they return.
- The HTTP endpoints' mapping of exceptions to status 500 and their response models are left out: they are framework code.
- The pydantic schemas are declarative validation that `input_data` never goes through, so the model assumes no bounds on n, number or the array. Only the algorithm-type enum is used.
- The helpers `generate_uuid`, the datetime (de)serialisers, `validate_json`, `format_error_response` and `calculate_processing_time` are left out: they involve randomness, library parsing, the clock and float formatting.
- Clock readings (`datetime.utcnow()`) are opaque integer parameters; `processing_time` is the constant string the code returns.
- PrimeCheckRoutine.FloorSqrt: `int(number ** 0.5)` is modelled as the exact integer square root. Float rounding, which can differ for numbers above 2^52, is not modelled. Nor is the OverflowError ("int too large to convert to float") that `number ** 0.5` raises for numbers from 2^1024 up. In the code, that error makes `process_algorithm` mark the record failed and raise the wrapped error; the model returns a primality verdict for such numbers instead.
- SortingRoutine.Quicksort: the interpreter's recursion limit is not modelled. `_quicksort` recurses once per level on each outer bucket. On an array in which the middle element of every sub-list is that sub-list's minimum, `left` is always empty and `right` loses one element per level, so the recursion is n-1 deep. Near 1000 elements Python raises RecursionError. In the code, such an input leaves a "failed" record and raises the wrapped "maximum recursion depth exceeded" error; the model returns the sorted list, and so SortingRoutine.SortingAlgorithm, whose default is "quicksort", does too. `_mergesort` recurses only about log n deep.
- Input values of the wrong type, and keys present with an explicit null, are not modelled. Each key is either absent, and takes its default, or holds a well-typed value. As a result, the Python TypeError paths do not occur in the model.
- Dictionary key order is not modelled, except for the catalog's input schemas. The usage dictionary is a Dafny map, which has no order.
- AlgorithmsApi.FilterHistory: only each item's `algorithm_type` field is compared. The `AlgorithmHistoryItem` conversion that follows the filter is left out.
- RecordStore.Store: a create or update that raises is assumed to leave the table unchanged, and so is a create that answers with no row. The store wrapper gives no such guarantee: it turns every exception into "Failed to ...", including one raised after the database already applied the write. The last clause of AlgorithmService.FinalRecord depends on this assumption: the record is still "processing" exactly when the call raises a store exception.
- RecordStore.Store.UpdateRecord: a successful update of an id with no row changes nothing. The database's response to that case is not modelled.
- The model proves nothing about concurrent requests against one store.
