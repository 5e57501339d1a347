/**
 * The statistics the processors take from Python's `statistics`,
 * `collections` and built-ins, over exact reals: sum, mean, sample variance
 * and standard deviation, minimum, maximum, sorting, median and mode.
 */
module Stats {

  function Sum(xs: seq<real>): real {
    if xs == [] then 0.0 else xs[0] + Sum(xs[1..])
  }

  lemma {:induction false} SumAppend(xs: seq<real>, ys: seq<real>)
    ensures Sum(xs + ys) == Sum(xs) + Sum(ys)
  {
    if xs != [] {
      var zs := xs + ys;
      assert zs[0] == xs[0] && zs[1..] == xs[1..] + ys;
      SumAppend(xs[1..], ys);
      assert Sum(zs) == zs[0] + Sum(zs[1..]);
    } else {
      assert xs + ys == ys;
    }
  }

  /** `statistics.mean`. */
  function Mean(xs: seq<real>): real
    requires |xs| > 0
  {
    Sum(xs) / |xs| as real
  }

  lemma Square(d: real)
    ensures d * d >= 0.0
    ensures d * d == 0.0 <==> d == 0.0
  {
    if d < 0.0 {
      assert d * d == (-d) * (-d);
    }
    if d != 0.0 {
      assert (d * d) / d == d;
    }
  }

  /** The sum of squared deviations from `m`. */
  function SquaredDeviations(xs: seq<real>, m: real): (r: real)
    ensures r >= 0.0
  {
    if xs == [] then 0.0
    else
      Square(xs[0] - m);
      (xs[0] - m) * (xs[0] - m) + SquaredDeviations(xs[1..], m)
  }

  /** The sample variance (divisor n - 1) that `statistics.stdev` takes the root of. */
  function Variance(xs: seq<real>): (v: real)
    requires |xs| >= 2
    ensures v >= 0.0
  {
    SquaredDeviations(xs, Mean(xs)) / (|xs| - 1) as real
  }

  /**
   * `statistics.stdev`, given the library's square root `sqrt`, which the
   * model does not define.
   */
  function Stdev(xs: seq<real>, sqrt: real -> real): real
    requires |xs| >= 2
  {
    sqrt(Variance(xs))
  }

  /** `sqrt` is a square root at `v`. */
  predicate IsRootOf(sqrt: real -> real, v: real) {
    sqrt(v) >= 0.0 && sqrt(v) * sqrt(v) == v
  }

  predicate AllEqual(xs: seq<real>) {
    forall i :: 0 <= i < |xs| ==> xs[i] == xs[0]
  }

  lemma {:induction false} SquaredDeviationsZero(xs: seq<real>, m: real)
    ensures SquaredDeviations(xs, m) == 0.0 <==> forall i :: 0 <= i < |xs| ==> xs[i] == m
  {
    if xs != [] {
      SquaredDeviationsZero(xs[1..], m);
      Square(xs[0] - m);
      if SquaredDeviations(xs, m) == 0.0 {
        forall i | 0 <= i < |xs| ensures xs[i] == m {
          if i > 0 { assert xs[i] == xs[1..][i - 1]; }
        }
      }
    }
  }

  lemma {:induction false} SumConstant(xs: seq<real>, c: real)
    requires forall i :: 0 <= i < |xs| ==> xs[i] == c
    ensures Sum(xs) == |xs| as real * c
  {
    if xs != [] {
      assert forall i :: 0 <= i < |xs[1..]| ==> xs[1..][i] == xs[i + 1];
      SumConstant(xs[1..], c);
    }
  }

  /** The sample variance is zero exactly when every value is the same. */
  lemma VarianceZeroIffConstant(xs: seq<real>)
    requires |xs| >= 2
    ensures Variance(xs) == 0.0 <==> AllEqual(xs)
  {
    var m := Mean(xs);
    SquaredDeviationsZero(xs, m);
    if AllEqual(xs) {
      SumConstant(xs, xs[0]);
      assert m == xs[0];
    }
  }

  /** `min(xs)`. */
  function Min(xs: seq<real>): (m: real)
    requires |xs| > 0
    ensures m in xs && forall i :: 0 <= i < |xs| ==> m <= xs[i]
  {
    if |xs| == 1 then xs[0]
    else
      var r := Min(xs[1..]);
      assert forall i :: 1 <= i < |xs| ==> xs[i] == xs[1..][i - 1];
      if xs[0] <= r then xs[0] else r
  }

  /** `max(xs)`. */
  function Max(xs: seq<real>): (m: real)
    requires |xs| > 0
    ensures m in xs && forall i :: 0 <= i < |xs| ==> xs[i] <= m
  {
    if |xs| == 1 then xs[0]
    else
      var r := Max(xs[1..]);
      assert forall i :: 1 <= i < |xs| ==> xs[i] == xs[1..][i - 1];
      if xs[0] >= r then xs[0] else r
  }

  predicate IsSorted(s: seq<real>) {
    forall i, j :: 0 <= i < j < |s| ==> s[i] <= s[j]
  }

  /** A value no greater than the first of a sorted sequence extends it sorted. */
  lemma SortedCons(x: real, s: seq<real>)
    requires IsSorted(s) && (s == [] || x <= s[0])
    ensures IsSorted([x] + s)
  {
    var r := [x] + s;
    forall i, j | 0 <= i < j < |r| ensures r[i] <= r[j] {
      assert r[j] == s[j - 1];
      if i > 0 {
        assert r[i] == s[i - 1];
      } else if j > 1 {
        assert s[0] <= s[j - 1];
      }
    }
  }

  /** The values of the sorted sequence `s` with `x` inserted before the first larger one. */
  function Insert(x: real, s: seq<real>): (r: seq<real>)
    requires IsSorted(s)
    ensures IsSorted(r) && multiset(r) == multiset(s) + multiset{x}
  {
    if s == [] then [x]
    else if x <= s[0] then
      SortedCons(x, s);
      [x] + s
    else
      SortedTail(s);
      var t := Insert(x, s[1..]);
      assert s == [s[0]] + s[1..];
      assert t[0] in multiset(t);
      assert t[0] == x || t[0] in multiset(s[1..]);
      assert s[0] <= t[0] by {
        if t[0] != x {
          var k :| 0 <= k < |s[1..]| && s[1..][k] == t[0];
          assert s[k + 1] == t[0];
        }
      }
      SortedCons(s[0], t);
      [s[0]] + t
  }

  /** `sorted(xs)`: the ascending permutation of `xs`. */
  function Sort(xs: seq<real>): (r: seq<real>)
    ensures IsSorted(r) && multiset(r) == multiset(xs)
  {
    if xs == [] then []
    else
      assert xs == [xs[0]] + xs[1..];
      Insert(xs[0], Sort(xs[1..]))
  }

  /** The first value of a sorted sequence is at most any of its values. */
  lemma SortedFirstLeast(a: seq<real>, x: real)
    requires IsSorted(a) && x in multiset(a)
    ensures a != [] && a[0] <= x
  {
    var k :| 0 <= k < |a| && a[k] == x;
  }

  /** The last value of a sorted sequence is at least any of its values. */
  lemma SortedLastGreatest(a: seq<real>, x: real)
    requires IsSorted(a) && x in multiset(a)
    ensures a != [] && x <= a[|a| - 1]
  {
    var k :| 0 <= k < |a| && a[k] == x;
  }

  lemma SortedTail(a: seq<real>)
    requires IsSorted(a) && a != []
    ensures IsSorted(a[1..])
  {
    forall i, j | 0 <= i < j < |a| - 1 ensures a[1..][i] <= a[1..][j] {
      assert a[1..][i] == a[i + 1] && a[1..][j] == a[j + 1];
    }
  }

  lemma MultisetTail(a: seq<real>)
    requires a != []
    ensures multiset(a[1..]) == multiset(a) - multiset{a[0]}
  {
    assert a == [a[0]] + a[1..];
  }

  /** Two non-empty sorted sequences holding the same values start alike and hold the same values after that. */
  lemma SortedSameStart(a: seq<real>, b: seq<real>)
    requires IsSorted(a) && IsSorted(b) && multiset(a) == multiset(b) && a != []
    ensures b != [] && a[0] == b[0] && multiset(a[1..]) == multiset(b[1..])
  {
    assert a[0] in multiset(a);
    SortedFirstLeast(b, a[0]);
    assert b[0] in multiset(b);
    SortedFirstLeast(a, b[0]);
    MultisetTail(a);
    MultisetTail(b);
  }

  /** Two sorted sequences holding the same values are equal. */
  lemma {:induction false} SortedUnique(a: seq<real>, b: seq<real>)
    requires IsSorted(a) && IsSorted(b) && multiset(a) == multiset(b)
    ensures a == b
    decreases |a|
  {
    if a == [] {
      assert |b| == |multiset(b)| == 0;
    } else {
      SortedSameStart(a, b);
      SortedTail(a);
      SortedTail(b);
      SortedUnique(a[1..], b[1..]);
      assert a == [a[0]] + a[1..] && b == [b[0]] + b[1..];
    }
  }

  lemma SortLength(xs: seq<real>)
    ensures |Sort(xs)| == |xs|
  {
    calc {
      |Sort(xs)|;
      |multiset(Sort(xs))|;
      |multiset(xs)|;
      |xs|;
    }
  }

  /** `statistics.median`: the middle of the sorted values, or the mean of the two middle ones. */
  function Median(xs: seq<real>): real
    requires |xs| > 0
  {
    SortLength(xs);
    var s := Sort(xs);
    var n := |s|;
    if n % 2 == 1 then s[n / 2] else (s[n / 2 - 1] + s[n / 2]) / 2.0
  }

  /** The first and last sorted values are the minimum and the maximum. */
  lemma SortEnds(xs: seq<real>)
    requires |xs| > 0
    ensures |Sort(xs)| == |xs|
    ensures Sort(xs)[0] == Min(xs) && Sort(xs)[|xs| - 1] == Max(xs)
  {
    SortLength(xs);
    var s := Sort(xs);
    var lo, hi := Min(xs), Max(xs);
    assert lo in multiset(xs) && hi in multiset(xs);
    SortedFirstLeast(s, lo);
    SortedLastGreatest(s, hi);
    assert s[0] in multiset(s) && s[|s| - 1] in multiset(s);
    assert s[0] in xs && s[|s| - 1] in xs;
  }

  /** The median lies between the smallest and the largest value. */
  lemma MedianBounds(xs: seq<real>)
    requires |xs| > 0
    ensures Min(xs) <= Median(xs) <= Max(xs)
  {
    SortEnds(xs);
    var s := Sort(xs);
    var n := |s|;
    if n % 2 == 1 {
      assert s[0] <= s[n / 2] <= s[n - 1];
    } else {
      assert s[0] <= s[n / 2 - 1] <= s[n / 2] <= s[n - 1];
    }
  }

  /** The number of occurrences of `x` in `xs`. */
  function Count<T(==)>(xs: seq<T>, x: T): (c: nat)
    ensures c <= |xs|
  {
    if xs == [] then 0
    else (if xs[0] == x then 1 else 0) + Count(xs[1..], x)
  }

  /** The position of the first occurrence of `x` in `xs`. */
  function FirstIndex<T(==)>(xs: seq<T>, x: T): (k: nat)
    requires x in xs
    ensures k < |xs| && xs[k] == x && forall j :: 0 <= j < k ==> xs[j] != x
  {
    if xs[0] == x then 0 else 1 + FirstIndex(xs[1..], x)
  }

  /**
   * The value `Counter(xs).most_common(1)[0][0]` returns: the most frequent
   * value, and among equally frequent values the one seen first.
   */
  ghost predicate IsModeOf<T>(xs: seq<T>, m: T) {
    && m in xs
    && (forall i :: 0 <= i < |xs| ==> Count(xs, xs[i]) <= Count(xs, m))
    && (forall j :: 0 <= j < FirstIndex(xs, m) ==> Count(xs, xs[j]) < Count(xs, m))
  }

  /** At most one value is the mode. */
  lemma ModeUnique<T>(xs: seq<T>, a: T, b: T)
    requires IsModeOf(xs, a) && IsModeOf(xs, b)
    ensures a == b
  {
    var ka, kb := FirstIndex(xs, a), FirstIndex(xs, b);
  }

  /** The scan `max` performs over the counter's keys, from position `i` on. */
  function BestFrom<T(==)>(xs: seq<T>, i: nat, best: T): T
    decreases |xs| - i
  {
    if i >= |xs| then best
    else if Count(xs, xs[i]) > Count(xs, best) then BestFrom(xs, i + 1, xs[i])
    else BestFrom(xs, i + 1, best)
  }

  function Mode<T(==)>(xs: seq<T>): T
    requires |xs| > 0
  {
    BestFrom(xs, 1, xs[0])
  }

  lemma {:induction false} BestFromIsMode<T>(xs: seq<T>, i: nat, best: T)
    requires 0 < i <= |xs|
    requires best in xs[..i]
    requires forall j :: 0 <= j < i ==> Count(xs, xs[j]) <= Count(xs, best)
    requires forall j :: 0 <= j < FirstIndex(xs, best) ==> Count(xs, xs[j]) < Count(xs, best)
    ensures IsModeOf(xs, BestFrom(xs, i, best))
    decreases |xs| - i
  {
    if i == |xs| {
      assert xs[..i] == xs;
    } else {
      assert xs[..i + 1] == xs[..i] + [xs[i]];
      if Count(xs, xs[i]) > Count(xs, best) {
        var x := xs[i];
        assert forall j :: 0 <= j < i ==> xs[j] != x;
        assert FirstIndex(xs, x) == i;
        BestFromIsMode(xs, i + 1, x);
      } else {
        BestFromIsMode(xs, i + 1, best);
      }
    }
  }

  /** `Mode` returns the most frequent value, ties going to the value seen first. */
  lemma ModeIsMode<T>(xs: seq<T>)
    requires |xs| > 0
    ensures IsModeOf(xs, Mode(xs))
  {
    assert xs[..1] == [xs[0]];
    BestFromIsMode(xs, 1, xs[0]);
  }
}
