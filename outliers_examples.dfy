/**
 * The IQR bounds on a concrete column: ten values with one far above the
 * rest.
 */
module OutliersExamples {
  import opened Stats
  import opened Outliers

  /** A sequence that never decreases from one value to the next is sorted. */
  lemma {:induction false} SortedStepwise(s: seq<real>, i: nat, j: nat)
    requires i <= j < |s|
    requires forall k :: 0 <= k < |s| - 1 ==> s[k] <= s[k + 1]
    ensures s[i] <= s[j]
    decreases j - i
  {
    if i < j {
      SortedStepwise(s, i + 1, j);
    }
  }

  lemma StepwiseSorted(s: seq<real>)
    requires forall k :: 0 <= k < |s| - 1 ==> s[k] <= s[k + 1]
    ensures IsSorted(s)
  {
    forall i, j | 0 <= i < j < |s| ensures s[i] <= s[j] {
      SortedStepwise(s, i, j);
    }
  }

  function Swap(a: seq<real>, i: nat, j: nat): seq<real>
    requires i < |a| && j < |a|
  {
    a[i := a[j]][j := a[i]]
  }

  lemma SwapPermutes(a: seq<real>, i: nat, j: nat)
    requires i < |a| && j < |a|
    ensures multiset(Swap(a, i, j)) == multiset(a)
  {
  }

  /** The column 10, 12, 12, 13, 12, 11, 14, 13, 15, 102. */
  predicate IsSample(xs: seq<real>) {
    && |xs| == 10
    && xs[0] == 10.0 && xs[1] == 12.0 && xs[2] == 12.0 && xs[3] == 13.0 && xs[4] == 12.0
    && xs[5] == 11.0 && xs[6] == 14.0 && xs[7] == 13.0 && xs[8] == 15.0 && xs[9] == 102.0
  }

  /** Sorting depends only on the values: a sorted rearrangement is the sort. */
  lemma SortIs(xs: seq<real>, s: seq<real>)
    requires IsSorted(s) && multiset(s) == multiset(xs)
    ensures Sort(xs) == s
  {
    SortedUnique(Sort(xs), s);
  }

  /** Four exchanges sort the column. */
  lemma SampleSorts(xs: seq<real>) returns (s: seq<real>)
    requires IsSample(xs)
    ensures IsSorted(s) && multiset(s) == multiset(xs) && |s| == 10 && s[2] == 12.0 && s[7] == 14.0
  {
    var a1 := Swap(xs, 1, 5);
    var a2 := Swap(a1, 3, 4);
    var a3 := Swap(a2, 4, 5);
    s := Swap(a3, 6, 7);
    assert s[0] == 10.0 && s[1] == 11.0 && s[2] == 12.0 && s[3] == 12.0 && s[4] == 12.0;
    assert s[5] == 13.0 && s[6] == 13.0 && s[7] == 14.0 && s[8] == 15.0 && s[9] == 102.0;
    StepwiseSorted(s);
    SwapPermutes(xs, 1, 5);
    SwapPermutes(a1, 3, 4);
    SwapPermutes(a2, 4, 5);
    SwapPermutes(a3, 6, 7);
  }

  /**
   * The quartiles of 10, 12, 12, 13, 12, 11, 14, 13, 15, 102 are 12 and 14,
   * so the bounds are 9 and 17, and only the value 102 lies outside them.
   */
  lemma IqrWorkedExample(xs: seq<real>)
    requires IsSample(xs)
    ensures IqrBounds(xs).0 == 9.0 && IqrBounds(xs).1 == 17.0
    ensures forall k :: 0 <= k < |xs| ==> (xs[k] < 9.0 || xs[k] > 17.0 <==> k == 9)
  {
    var s := SampleSorts(xs);
    SortIs(xs, s);
    assert Quartiles(s).0 == 12.0 && Quartiles(s).1 == 14.0;
  }

  /** The remover as the command-line driver builds it, with no arguments, and one that names only its method. */
  method DefaultRemovers() returns (r: OutlierRemover, iqr: OutlierRemover)
    ensures r.how == "zscore" && r.threshold == 2.0 && r.outlierLog == []
    ensures iqr.how == "iqr" && iqr.threshold == 2.0 && iqr.outlierLog == []
  {
    r := new OutlierRemover();
    iqr := new OutlierRemover(how := "iqr");
  }
}
