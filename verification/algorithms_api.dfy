/** The list logic of the algorithm endpoints: the history type filter, the type catalog and the stats counts. */
module AlgorithmsApi {
  import opened Wrappers
  import opened Errors
  import opened Payloads
  import opened RecordStore
  import opened AlgorithmService

  // ---------------------------------------------------------------- history

  /** Whether a history item passes the optional type filter. */
  predicate Matches(item: Row, algorithmType: Option<AlgorithmType>) {
    algorithmType.None? || item.algorithmType == algorithmType.value.Name()
  }

  /** With a type given, the items of that type in their original order; with none, the history as it is. */
  function FilterHistory(history: seq<Row>, algorithmType: Option<AlgorithmType>): (r: seq<Row>)
    ensures algorithmType.None? ==> r == history
    ensures |r| <= |history|
  {
    if history == [] then []
    else (if Matches(history[0], algorithmType) then [history[0]] else []) + FilterHistory(history[1..], algorithmType)
  }

  /**
   * The filtered history holds every matching item as often as the history does,
   * and nothing else.
   */
  lemma {:induction false} FilterHistoryContents(history: seq<Row>, algorithmType: Option<AlgorithmType>)
    ensures forall item :: item in FilterHistory(history, algorithmType) <==> item in history && Matches(item, algorithmType)
    ensures forall item :: multiset(FilterHistory(history, algorithmType))[item] ==
                           if Matches(item, algorithmType) then multiset(history)[item] else 0
  {
    if history != [] {
      FilterHistoryContents(history[1..], algorithmType);
      assert history == [history[0]] + history[1..];
    }
  }

  /** Filtering keeps order: the filtered concatenation is the concatenation of the filtered parts. */
  lemma {:induction false} FilterHistoryAppend(front: seq<Row>, back: seq<Row>, algorithmType: Option<AlgorithmType>)
    ensures FilterHistory(front + back, algorithmType) == FilterHistory(front, algorithmType) + FilterHistory(back, algorithmType)
  {
    if front != [] {
      var head := if Matches(front[0], algorithmType) then [front[0]] else [];
      assert (front + back)[0] == front[0];
      assert (front + back)[1..] == front[1..] + back;
      assert FilterHistory(front + back, algorithmType) == head + FilterHistory(front[1..] + back, algorithmType);
      assert FilterHistory(front, algorithmType) == head + FilterHistory(front[1..], algorithmType);
      FilterHistoryAppend(front[1..], back, algorithmType);
    } else {
      assert front + back == back;
    }
  }

  /** Filtering twice by the same type is filtering once. */
  lemma {:induction false} FilterHistoryIdempotent(history: seq<Row>, algorithmType: Option<AlgorithmType>)
    ensures FilterHistory(FilterHistory(history, algorithmType), algorithmType) == FilterHistory(history, algorithmType)
  {
    if history != [] {
      var head := if Matches(history[0], algorithmType) then [history[0]] else [];
      var tail := FilterHistory(history[1..], algorithmType);
      FilterHistoryAppend(head, tail, algorithmType);
      FilterHistoryIdempotent(history[1..], algorithmType);
      if Matches(history[0], algorithmType) {
        assert head[1..] == [];
      }
    }
  }

  // ---------------------------------------------------------------- catalog

  /** One entry of the `/types` listing; the input schema keeps the dictionary's key order. */
  datatype TypeInfo = TypeInfo(name: string, description: string, inputSchema: seq<(string, string)>)

  /** The algorithm types in the catalog's order. */
  const CatalogOrder := [Fibonacci, PrimeCheck, Sorting, MatrixMultiply]

  const FibonacciInfo := TypeInfo("fibonacci", "Calculate Fibonacci numbers",
    [("n", "integer (0-100) - The nth Fibonacci number to calculate")])
  const PrimeCheckInfo := TypeInfo("prime_check", "Check if a number is prime",
    [("number", "integer (>=2) - The number to check for primality")])
  const SortingInfo := TypeInfo("sorting", "Sort an array of integers",
    [("array", "array of integers (max 1000) - Array to sort"),
     ("algorithm", "string (optional) - Sorting algorithm ('quicksort', 'mergesort')")])
  const MatrixMultiplyInfo := TypeInfo("matrix_multiply", "Multiply two matrices",
    [("matrix_a", "2D array of integers - First matrix"),
     ("matrix_b", "2D array of integers - Second matrix")])

  /** The static catalog `/types` returns: one entry per algorithm type, in this order. */
  function AlgorithmTypes(): (types: seq<TypeInfo>)
    ensures |types| == |CatalogOrder|
    ensures forall i :: 0 <= i < |types| ==> types[i].name == CatalogOrder[i].Name()
  {
    [FibonacciInfo, PrimeCheckInfo, SortingInfo, MatrixMultiplyInfo]
  }

  /** Whether `name` is listed in the catalog. */
  predicate Listed(name: string) {
    exists i :: 0 <= i < |AlgorithmTypes()| && AlgorithmTypes()[i].name == name
  }

  /** The catalog names each algorithm type once. */
  lemma CatalogNamesDistinct(i: nat, j: nat)
    requires i < j < |AlgorithmTypes()|
    ensures AlgorithmTypes()[i].name != AlgorithmTypes()[j].name
  {
    ParseName(CatalogOrder[i]);
    ParseName(CatalogOrder[j]);
  }

  /** The names listed are exactly the names of the algorithm types. */
  lemma ListedExactly(name: string)
    ensures Listed(name) <==> ParseAlgorithmType(name).Some?
  {
    var types := AlgorithmTypes();
    if Listed(name) {
      var i :| 0 <= i < |types| && types[i].name == name;
      ParseName(CatalogOrder[i]);
    }
    if ParseAlgorithmType(name).Some? {
      var t := ParseAlgorithmType(name).value;
      var i := match t case Fibonacci => 0 case PrimeCheck => 1 case Sorting => 2 case MatrixMultiply => 3;
      assert types[i].name == name;
    }
  }

  /**
   * The catalog lists exactly the names the dispatcher accepts: a listed name never
   * gets the unknown-type error, and every other name always does.
   */
  lemma CatalogIsDispatchable(name: string, input: Input)
    ensures Listed(name) <==> Routine(name, input) != Err(ValueError(UnknownTypePrefix + name))
  {
    ListedExactly(name);
    UnknownTypeExactly(name, input);
  }

  // ---------------------------------------------------------------- stats

  /** The two columns the stats query selects. */
  datatype StatsRow = StatsRow(algorithmType: string, status: string)

  /** The dictionary `/stats` returns. */
  datatype Stats = Stats(totalRequests: nat, completedRequests: nat, failedRequests: nat, algorithmUsage: map<string, nat>)

  /** `[r for r in requests if r["status"] == status]`: every request with that status, as often as it occurs. */
  function WithStatus(rows: seq<StatsRow>, status: string): (r: seq<StatsRow>)
    ensures |r| <= |rows|
    ensures forall x :: x in r <==> x in rows && x.status == status
    ensures forall x :: multiset(r)[x] == if x.status == status then multiset(rows)[x] else 0
  {
    if rows == [] then []
    else
      assert rows == [rows[0]] + rows[1..];
      (if rows[0].status == status then [rows[0]] else []) + WithStatus(rows[1..], status)
  }

  /** No request is both completed and failed, so the two counts together never exceed the total. */
  lemma {:induction false} StatusCountsBounded(rows: seq<StatsRow>)
    ensures |WithStatus(rows, "completed")| + |WithStatus(rows, "failed")| <= |rows|
  {
    if rows != [] {
      StatusCountsBounded(rows[1..]);
    }
  }

  /** The number of requests of type `t`. */
  function CountType(rows: seq<StatsRow>, t: string): (c: nat)
    ensures c <= |rows|
  {
    if rows == [] then 0
    else CountType(rows[..|rows| - 1], t) + (if rows[|rows| - 1].algorithmType == t then 1 else 0)
  }

  /** The types that occur among the requests. */
  function TypesPresent(rows: seq<StatsRow>): set<string> {
    set i | 0 <= i < |rows| :: rows[i].algorithmType
  }

  lemma {:induction false} CountTypeAppend(rows: seq<StatsRow>, x: StatsRow, t: string)
    ensures CountType(rows + [x], t) == CountType(rows, t) + (if x.algorithmType == t then 1 else 0)
  {
    assert (rows + [x])[..|rows|] == rows;
  }

  lemma TypesPresentAppend(rows: seq<StatsRow>, x: StatsRow)
    ensures TypesPresent(rows + [x]) == TypesPresent(rows) + {x.algorithmType}
  {
    var all := rows + [x];
    forall u ensures u in TypesPresent(all) <==> u in TypesPresent(rows) + {x.algorithmType} {
      if u in TypesPresent(all) {
        var i :| 0 <= i < |all| && all[i].algorithmType == u;
        if i < |rows| {
          assert rows[i] == all[i];
        }
      }
      if u in TypesPresent(rows) {
        var i :| 0 <= i < |rows| && rows[i].algorithmType == u;
        assert all[i] == rows[i];
      }
      if u == x.algorithmType {
        assert all[|rows|] == x;
      }
    }
  }

  /** A type that does not occur has count zero, and one that occurs has a positive count. */
  lemma {:induction false} CountTypePositive(rows: seq<StatsRow>, t: string)
    ensures CountType(rows, t) > 0 <==> t in TypesPresent(rows)
  {
    if rows != [] {
      var front, last := rows[..|rows| - 1], rows[|rows| - 1];
      CountTypePositive(front, t);
      assert rows == front + [last];
      TypesPresentAppend(front, last);
    }
  }

  /** The stats counting: the pure counts, then the per-type usage dictionary. */
  method GetAlgorithmStats(rows: seq<StatsRow>) returns (stats: Stats)
    ensures stats.totalRequests == |rows|
    ensures stats.completedRequests == |WithStatus(rows, "completed")|
    ensures stats.failedRequests == |WithStatus(rows, "failed")|
    ensures stats.algorithmUsage.Keys == TypesPresent(rows)
    ensures forall t :: t in stats.algorithmUsage ==> stats.algorithmUsage[t] == CountType(rows, t)
  {
    if |rows| == 0 {
      return Stats(0, 0, 0, map[]);
    }
    var totalRequests := |rows|;
    var completedRequests := |WithStatus(rows, "completed")|;
    var failedRequests := |WithStatus(rows, "failed")|;
    var usage := CountUsage(rows);
    stats := Stats(totalRequests, completedRequests, failedRequests, usage);
  }

  /** The loop filling `algorithm_usage`: a new type starts at 0, then every request adds 1 to its type. */
  method CountUsage(rows: seq<StatsRow>) returns (usage: map<string, nat>)
    ensures usage.Keys == TypesPresent(rows)
    ensures forall t :: t in usage ==> usage[t] == CountType(rows, t)
  {
    usage := map[];
    for i := 0 to |rows|
      invariant usage.Keys == TypesPresent(rows[..i])
      invariant forall t :: t in usage ==> usage[t] == CountType(rows[..i], t)
    {
      var algType := rows[i].algorithmType;
      assert rows[..i + 1] == rows[..i] + [rows[i]];
      if algType !in usage {
        CountTypePositive(rows[..i], algType);
        usage := usage[algType := 0];
      }
      usage := usage[algType := usage[algType] + 1];
      forall t ensures CountType(rows[..i + 1], t) == CountType(rows[..i], t) + (if algType == t then 1 else 0) {
        CountTypeAppend(rows[..i], rows[i], t);
      }
      TypesPresentAppend(rows[..i], rows[i]);
    }
    assert rows[..|rows|] == rows;
  }

  /** The usage dictionary's keys as a list: each type present, once. */
  function DistinctTypes(rows: seq<StatsRow>): (d: seq<string>)
    ensures forall t :: t in d <==> t in TypesPresent(rows)
    ensures forall i, j :: 0 <= i < j < |d| ==> d[i] != d[j]
  {
    if rows == [] then []
    else
      var front := rows[..|rows| - 1];
      var last := rows[|rows| - 1].algorithmType;
      var d := DistinctTypes(front);
      assert rows == front + [rows[|rows| - 1]];
      TypesPresentAppend(front, rows[|rows| - 1]);
      if last in d then d else d + [last]
  }

  /** The counts of the listed types, added up. */
  function SumCounts(rows: seq<StatsRow>, types: seq<string>): nat {
    if types == [] then 0
    else SumCounts(rows, types[..|types| - 1]) + CountType(rows, types[|types| - 1])
  }

  lemma {:induction false} SumCountsAppendRow(rows: seq<StatsRow>, x: StatsRow, types: seq<string>)
    requires forall i, j :: 0 <= i < j < |types| ==> types[i] != types[j]
    ensures SumCounts(rows + [x], types) == SumCounts(rows, types) + (if x.algorithmType in types then 1 else 0)
  {
    if types != [] {
      var front := types[..|types| - 1];
      SumCountsAppendRow(rows, x, front);
      CountTypeAppend(rows, x, types[|types| - 1]);
      assert types == front + [types[|types| - 1]];
    }
  }

  /** The usage values, one for each type present, once, add up to the total number of requests. */
  lemma {:induction false} UsageSumsToTotal(rows: seq<StatsRow>)
    ensures SumCounts(rows, DistinctTypes(rows)) == |rows|
  {
    if rows != [] {
      var front := rows[..|rows| - 1];
      var x := rows[|rows| - 1];
      var d := DistinctTypes(front);
      assert rows == front + [x];
      UsageSumsToTotal(front);
      SumCountsAppendRow(front, x, d);
      if x.algorithmType !in d {
        CountTypePositive(front, x.algorithmType);
        CountTypeAppend(front, x, x.algorithmType);
        assert (d + [x.algorithmType])[..|d|] == d;
      }
    }
  }

  /** With no requests everything is zero and the usage dictionary is empty. */
  method EmptyStats() returns (stats: Stats)
    ensures stats == Stats(0, 0, 0, map[])
  {
    stats := GetAlgorithmStats([]);
  }
}
