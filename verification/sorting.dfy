/** The sorting routine of the algorithm service: quicksort, mergesort and the built-in fallback. */
module SortingRoutine {
  import opened Wrappers
  import opened Payloads

  /** Ascending order. */
  predicate Sorted(s: seq<int>) {
    forall i, j :: 0 <= i < j < |s| ==> s[i] <= s[j]
  }

  /** The three buckets of quicksort's partition. */
  datatype Side = Below | Level | Above

  predicate OnSide(x: int, pivot: int, side: Side) {
    match side
    case Below => x < pivot
    case Level => x == pivot
    case Above => x > pivot
  }

  /** `[x for x in s if x < pivot]`, `... x == pivot`, `... x > pivot`: each element kept as often as it occurs. */
  function Part(s: seq<int>, pivot: int, side: Side): (r: seq<int>)
    ensures forall x :: multiset(r)[x] == if OnSide(x, pivot, side) then multiset(s)[x] else 0
  {
    if s == [] then []
    else
      assert s == [s[0]] + s[1..];
      (if OnSide(s[0], pivot, side) then [s[0]] else []) + Part(s[1..], pivot, side)
  }

  /** The three buckets together hold the input, and the pivot's bucket is never empty. */
  lemma PartitionSplits(s: seq<int>, pivot: int)
    requires pivot in s
    ensures multiset(Part(s, pivot, Below)) + multiset(Part(s, pivot, Level)) + multiset(Part(s, pivot, Above)) == multiset(s)
    ensures |Part(s, pivot, Below)| < |s| && |Part(s, pivot, Above)| < |s|
  {
    var below, level, above := Part(s, pivot, Below), Part(s, pivot, Level), Part(s, pivot, Above);
    assert multiset(below) + multiset(level) + multiset(above) == multiset(s) by {
      forall x ensures (multiset(below) + multiset(level) + multiset(above))[x] == multiset(s)[x] {
      }
    }
    assert |multiset(below)| + |multiset(level)| + |multiset(above)| == |s|;
    assert pivot in multiset(level);
  }

  lemma SortedJoin(left: seq<int>, middle: seq<int>, right: seq<int>, pivot: int)
    requires Sorted(left) && Sorted(right)
    requires forall x :: x in left ==> OnSide(x, pivot, Below)
    requires forall x :: x in middle ==> OnSide(x, pivot, Level)
    requires forall x :: x in right ==> OnSide(x, pivot, Above)
    ensures Sorted(left + middle + right)
  {
    var s := left + middle + right;
    var m := |left| + |middle|;
    assert forall k :: 0 <= k < |left| ==> s[k] == left[k];
    assert forall k :: m <= k < |s| ==> s[k] == right[k - m];
    assert forall k :: 0 <= k < m ==> s[k] <= pivot by {
      forall k | 0 <= k < m ensures s[k] <= pivot {
        if k < |left| { assert left[k] in left; } else { assert s[k] == middle[k - |left|] && middle[k - |left|] in middle; }
      }
    }
    assert forall k :: |left| <= k < |s| ==> s[k] >= pivot by {
      forall k | |left| <= k < |s| ensures s[k] >= pivot {
        if k >= m { assert right[k - m] in right; } else { assert s[k] == middle[k - |left|] && middle[k - |left|] in middle; }
      }
    }
  }

  /** Every element of a rearranged bucket lies on the bucket's side of the pivot. */
  lemma BucketSide(s: seq<int>, pivot: int, side: Side, t: seq<int>)
    requires multiset(t) == multiset(Part(s, pivot, side))
    ensures forall x :: x in t ==> OnSide(x, pivot, side)
  {
    forall x | x in t ensures OnSide(x, pivot, side) {
      assert x in multiset(t);
    }
  }

  /** Sorted rearrangements of the outer buckets around the pivot's bucket give a sorted rearrangement of the whole. */
  lemma QuicksortStep(s: seq<int>, pivot: int, sortedLeft: seq<int>, sortedRight: seq<int>)
    requires pivot in s
    requires Sorted(sortedLeft) && multiset(sortedLeft) == multiset(Part(s, pivot, Below))
    requires Sorted(sortedRight) && multiset(sortedRight) == multiset(Part(s, pivot, Above))
    ensures var r := sortedLeft + Part(s, pivot, Level) + sortedRight;
      Sorted(r) && multiset(r) == multiset(s)
  {
    var middle := Part(s, pivot, Level);
    PartitionSplits(s, pivot);
    BucketSide(s, pivot, Below, sortedLeft);
    BucketSide(s, pivot, Level, middle);
    BucketSide(s, pivot, Above, sortedRight);
    SortedJoin(sortedLeft, middle, sortedRight, pivot);
  }

  /** `_quicksort`: middle element as pivot, three-way partition, recurse on the outer buckets. */
  function Quicksort(s: seq<int>): (r: seq<int>)
    ensures multiset(r) == multiset(s)
    ensures Sorted(r)
    decreases |s|
  {
    if |s| <= 1 then s
    else
      var pivot := s[|s| / 2];
      var left, middle, right := Part(s, pivot, Below), Part(s, pivot, Level), Part(s, pivot, Above);
      PartitionSplits(s, pivot);
      QuicksortStep(s, pivot, Quicksort(left), Quicksort(right));
      Quicksort(left) + middle + Quicksort(right)
  }

  lemma SortedCons(x: int, s: seq<int>)
    requires Sorted(s)
    requires forall y :: y in s ==> x <= y
    ensures Sorted([x] + s)
  {
    var t := [x] + s;
    forall i, j | 0 <= i < j < |t| ensures t[i] <= t[j] {
      if i > 0 { assert t[i] == s[i - 1] && t[j] == s[j - 1]; } else { assert t[j] in s; }
    }
  }

  /** The two-pointer merge, stated as a recursion: take the smaller head, the left one on ties. */
  function Merged(left: seq<int>, right: seq<int>): (r: seq<int>)
    ensures |r| == |left| + |right|
    decreases |left| + |right|
  {
    if left == [] then right
    else if right == [] then left
    else if left[0] <= right[0] then [left[0]] + Merged(left[1..], right)
    else [right[0]] + Merged(left, right[1..])
  }

  /** The merge holds the elements of both lists, each as often as in the two together. */
  lemma {:induction false} MergedPermutation(left: seq<int>, right: seq<int>)
    ensures multiset(Merged(left, right)) == multiset(left) + multiset(right)
    decreases |left| + |right|
  {
    if left != [] && right != [] {
      if left[0] <= right[0] {
        var rest := Merged(left[1..], right);
        MergedPermutation(left[1..], right);
        assert Merged(left, right) == [left[0]] + rest;
        assert multiset([left[0]] + rest) == multiset{left[0]} + multiset(rest);
        assert left == [left[0]] + left[1..];
      } else {
        var rest := Merged(left, right[1..]);
        MergedPermutation(left, right[1..]);
        assert Merged(left, right) == [right[0]] + rest;
        assert multiset([right[0]] + rest) == multiset{right[0]} + multiset(rest);
        assert right == [right[0]] + right[1..];
      }
    }
  }

  /** A value no larger than the heads of two ascending lists is no larger than anything in their merge. */
  lemma BelowMerged(x: int, left: seq<int>, right: seq<int>)
    requires Sorted(left) && Sorted(right)
    requires left != [] ==> x <= left[0]
    requires right != [] ==> x <= right[0]
    ensures forall y :: y in Merged(left, right) ==> x <= y
  {
    MergedPermutation(left, right);
    forall y | y in Merged(left, right) ensures x <= y {
      assert y in multiset(left) + multiset(right);
      if y in left {
        var k :| 0 <= k < |left| && left[k] == y;
        assert left[0] <= left[k];
      } else {
        assert y in right;
        var k :| 0 <= k < |right| && right[k] == y;
        assert right[0] <= right[k];
      }
    }
  }

  /** Merging two ascending lists gives an ascending list. */
  lemma {:induction false} MergedSorted(left: seq<int>, right: seq<int>)
    requires Sorted(left) && Sorted(right)
    ensures Sorted(Merged(left, right))
    decreases |left| + |right|
  {
    if left != [] && right != [] {
      if left[0] <= right[0] {
        MergedSorted(left[1..], right);
        BelowMerged(left[0], left[1..], right);
        SortedCons(left[0], Merged(left[1..], right));
      } else {
        MergedSorted(left, right[1..]);
        BelowMerged(right[0], left, right[1..]);
        SortedCons(right[0], Merged(left, right[1..]));
      }
    }
  }

  /** One step of the two-pointer merge from positions i and j: the left head is taken. */
  lemma TakeLeft(left: seq<int>, right: seq<int>, i: nat, j: nat)
    requires i < |left| && j < |right| && left[i] <= right[j]
    ensures Merged(left[i..], right[j..]) == [left[i]] + Merged(left[i + 1..], right[j..])
  {
    assert left[i..][1..] == left[i + 1..];
  }

  /** One step of the two-pointer merge from positions i and j: the right head is taken. */
  lemma TakeRight(left: seq<int>, right: seq<int>, i: nat, j: nat)
    requires i < |left| && j < |right| && left[i] > right[j]
    ensures Merged(left[i..], right[j..]) == [right[j]] + Merged(left[i..], right[j + 1..])
  {
    assert right[j..][1..] == right[j + 1..];
  }

  /** Once one list is used up, the merge of the remainders is the two remainders one after the other. */
  lemma MergedRemainders(left: seq<int>, right: seq<int>, i: nat, j: nat)
    requires i <= |left| && j <= |right| && (i == |left| || j == |right|)
    ensures Merged(left[i..], right[j..]) == left[i..] + right[j..]
  {
    if i == |left| {
      assert left[i..] == [];
      assert [] + right[j..] == right[j..];
    } else {
      assert right[j..] == [];
      assert left[i..] + [] == left[i..];
    }
  }

  lemma Regroup(front: seq<int>, x: int, back: seq<int>)
    ensures front + ([x] + back) == (front + [x]) + back
  {
  }

  /** `_merge`: advances `i` and `j` while both lists have elements, then appends both remainders. */
  method Merge(left: seq<int>, right: seq<int>) returns (result: seq<int>)
    ensures result == Merged(left, right)
  {
    result := [];
    var i, j := 0, 0;
    while i < |left| && j < |right|
      invariant 0 <= i <= |left| && 0 <= j <= |right|
      invariant result + Merged(left[i..], right[j..]) == Merged(left, right)
      decreases |left| - i + |right| - j
    {
      if left[i] <= right[j] {
        TakeLeft(left, right, i, j);
        Regroup(result, left[i], Merged(left[i + 1..], right[j..]));
        result := result + [left[i]];
        i := i + 1;
      } else {
        TakeRight(left, right, i, j);
        Regroup(result, right[j], Merged(left[i..], right[j + 1..]));
        result := result + [right[j]];
        j := j + 1;
      }
    }
    MergedRemainders(left, right, i, j);
    assert result + (left[i..] + right[j..]) == (result + left[i..]) + right[j..];
    result := result + left[i..];
    result := result + right[j..];
  }

  /** `_mergesort`: split at the middle, sort both halves, merge them. */
  function MergeSort(s: seq<int>): (r: seq<int>)
    ensures multiset(r) == multiset(s)
    ensures Sorted(r)
    decreases |s|
  {
    if |s| <= 1 then s
    else
      var mid := |s| / 2;
      assert s == s[..mid] + s[mid..];
      MergedSorted(MergeSort(s[..mid]), MergeSort(s[mid..]));
      MergedPermutation(MergeSort(s[..mid]), MergeSort(s[mid..]));
      Merged(MergeSort(s[..mid]), MergeSort(s[mid..]))
  }

  function Insert(x: int, s: seq<int>): (r: seq<int>)
    requires Sorted(s)
    ensures multiset(r) == multiset(s) + multiset{x}
    ensures Sorted(r)
  {
    if s == [] || x <= s[0] then
      SortedCons(x, s);
      [x] + s
    else
      assert s == [s[0]] + s[1..];
      var rest := Insert(x, s[1..]);
      forall y | y in rest ensures s[0] <= y {
        assert y in multiset(s[1..]) + multiset{x};
      }
      SortedCons(s[0], rest);
      [s[0]] + rest
  }

  /** Python's built-in `sorted` on integers: the ascending rearrangement, built here by insertion. */
  function BuiltinSorted(s: seq<int>): (r: seq<int>)
    ensures multiset(r) == multiset(s)
    ensures Sorted(r)
  {
    if s == [] then []
    else
      assert s == [s[0]] + s[1..];
      Insert(s[0], BuiltinSorted(s[1..]))
  }

  /** The head of an ascending list is its least element. */
  lemma HeadIsLeast(s: seq<int>, x: int)
    requires Sorted(s) && x in multiset(s)
    ensures s[0] <= x
  {
    var k :| 0 <= k < |s| && s[k] == x;
  }

  /** Removing the head of a list removes one copy of it from its multiset. */
  lemma DropHead(s: seq<int>)
    requires s != []
    ensures multiset(s[1..]) == multiset(s) - multiset{s[0]}
  {
    assert s == [s[0]] + s[1..];
  }

  /** Two ascending arrangements of one non-empty multiset start with the same element, and their tails hold the same elements. */
  lemma SameHead(a: seq<int>, b: seq<int>)
    requires Sorted(a) && Sorted(b) && multiset(a) == multiset(b) && a != []
    ensures b != [] && a[0] == b[0] && multiset(a[1..]) == multiset(b[1..])
  {
    assert a[0] in multiset(b);
    assert b != [];
    assert b[0] in multiset(a);
    HeadIsLeast(a, b[0]);
    HeadIsLeast(b, a[0]);
    DropHead(a);
    DropHead(b);
  }

  /** A multiset has exactly one ascending arrangement. */
  lemma {:induction false} SortedPermutationUnique(a: seq<int>, b: seq<int>)
    requires Sorted(a) && Sorted(b) && multiset(a) == multiset(b)
    ensures a == b
    decreases |a|
  {
    if a == [] {
      assert |b| == |multiset(b)| == |multiset(a)| == 0;
    } else {
      SameHead(a, b);
      SortedTail(a);
      SortedTail(b);
      SortedPermutationUnique(a[1..], b[1..]);
      assert a == [a[0]] + a[1..] && b == [b[0]] + b[1..];
    }
  }

  lemma SortedTail(s: seq<int>)
    requires Sorted(s) && s != []
    ensures Sorted(s[1..])
  {
  }

  /** Both hand-written sorts agree with the built-in one on every input. */
  lemma SortsAgree(s: seq<int>)
    ensures Quicksort(s) == BuiltinSorted(s)
    ensures MergeSort(s) == BuiltinSorted(s)
  {
    SortedPermutationUnique(Quicksort(s), BuiltinSorted(s));
    SortedPermutationUnique(MergeSort(s), BuiltinSorted(s));
  }

  /** `_sorting_algorithm`: the original array, its sorted copy and the algorithm name (default "quicksort"). */
  function SortingAlgorithm(input: Input): (r: Output)
    ensures r.SortingResult?
    ensures r.original == input.elements.GetOr([])
    ensures r.algorithm == input.algorithm.GetOr("quicksort")
    ensures r.sorted == BuiltinSorted(r.original)
  {
    var arr := input.elements.GetOr([]);
    var algorithm := input.algorithm.GetOr("quicksort");
    SortsAgree(arr);
    var sortedArray :=
      if algorithm == "quicksort" then Quicksort(arr)
      else if algorithm == "mergesort" then MergeSort(arr)
      else BuiltinSorted(arr);
    SortingResult(arr, sortedArray, algorithm)
  }

  /** The default algorithm sorts [2, 1] into [1, 2] and reports "quicksort". */
  lemma DefaultExample()
    ensures SortingAlgorithm(EmptyInput.(elements := Some([2, 1])))
         == SortingResult([2, 1], [1, 2], "quicksort")
  {
    assert multiset([2, 1]) == multiset([1, 2]) by {
      assert [2, 1] == [2] + [1] && [1, 2] == [1] + [2];
    }
    SortedPermutationUnique(BuiltinSorted([2, 1]), [1, 2]);
  }
}
