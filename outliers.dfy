/**
 * The outlier remover: in every column whose numbers are more than half of
 * the rows, it flags values by z-score or by the interquartile range, logs
 * each flag, and drops every row whose number its log names.
 */
module Outliers {
  import opened Dicts
  import opened Cells
  import opened Stats
  import opened Logs

  function Abs(x: real): (r: real)
    ensures r >= 0.0 && (r == x || r == -x)
  {
    if x < 0.0 then -x else x
  }

  /**
   * The entries a detector writes for the points `ps`: `entry(p)` for every
   * point whose value `flagged` accepts, in point order.
   */
  function Detect(ps: seq<Point>, flagged: real -> bool, entry: Point -> LogEntry): (log: seq<LogEntry>)
    ensures |log| <= |ps|
    decreases |ps|
  {
    if ps == [] then []
    else
      var p := ps[|ps| - 1];
      Detect(ps[..|ps| - 1], flagged, entry) + (if flagged(p.value) then [entry(p)] else [])
  }

  lemma DetectStep(ps: seq<Point>, k: nat, flagged: real -> bool, entry: Point -> LogEntry)
    requires k < |ps|
    ensures Detect(ps[..k + 1], flagged, entry) ==
      Detect(ps[..k], flagged, entry) + (if flagged(ps[k].value) then [entry(ps[k])] else [])
  {
    assert ps[..k + 1][..k] == ps[..k];
  }

  /** Every entry is that of a flagged point. */
  lemma {:induction false} DetectSound(ps: seq<Point>, flagged: real -> bool, entry: Point -> LogEntry)
    ensures forall e :: e in Detect(ps, flagged, entry) ==>
      exists k :: 0 <= k < |ps| && flagged(ps[k].value) && e == entry(ps[k])
    decreases |ps|
  {
    if ps != [] {
      var front := ps[..|ps| - 1];
      DetectSound(front, flagged, entry);
      forall e | e in Detect(front, flagged, entry)
        ensures exists k :: 0 <= k < |ps| && flagged(ps[k].value) && e == entry(ps[k])
      {
        var k :| 0 <= k < |front| && flagged(front[k].value) && e == entry(front[k]);
        assert ps[k] == front[k];
      }
    }
  }

  /** Every flagged point has its entry. */
  lemma {:induction false} DetectComplete(ps: seq<Point>, flagged: real -> bool, entry: Point -> LogEntry)
    ensures forall k :: 0 <= k < |ps| && flagged(ps[k].value) ==> entry(ps[k]) in Detect(ps, flagged, entry)
    decreases |ps|
  {
    if ps != [] {
      var front := ps[..|ps| - 1];
      DetectComplete(front, flagged, entry);
      forall k | 0 <= k < |ps| - 1 ensures ps[k] == front[k] { }
    }
  }

  /** A point that is not flagged leaves the log shorter than the points. */
  lemma {:induction false} DetectMisses(ps: seq<Point>, flagged: real -> bool, entry: Point -> LogEntry, k: nat)
    requires k < |ps| && !flagged(ps[k].value)
    ensures |Detect(ps, flagged, entry)| < |ps|
    decreases |ps|
  {
    var front := ps[..|ps| - 1];
    if k < |ps| - 1 {
      assert front[k] == ps[k];
      DetectMisses(front, flagged, entry, k);
    }
  }

  /**
   * When the points come in strictly increasing row order and each entry
   * carries its point's 1-based row, the entries come in strictly
   * increasing row order too.
   */
  lemma {:induction false} DetectOrdered(ps: seq<Point>, flagged: real -> bool, entry: Point -> LogEntry)
    requires forall k, l :: 0 <= k < l < |ps| ==> ps[k].index < ps[l].index
    requires forall k :: 0 <= k < |ps| ==> entry(ps[k]).row == ps[k].index + 1
    ensures forall k, l :: 0 <= k < l < |Detect(ps, flagged, entry)| ==>
      RowIndex(Detect(ps, flagged, entry)[k]) < RowIndex(Detect(ps, flagged, entry)[l])
    decreases |ps|
  {
    if ps != [] {
      var front, p := ps[..|ps| - 1], ps[|ps| - 1];
      DetectOrdered(front, flagged, entry);
      DetectSound(front, flagged, entry);
      var a := Detect(front, flagged, entry);
      forall k | 0 <= k < |a|
        ensures RowIndex(a[k]) < RowIndex(entry(p))
      {
        assert a[k] in a;
        var m :| 0 <= m < |front| && flagged(front[m].value) && a[k] == entry(front[m]);
        assert front[m] == ps[m];
      }
      AppendIncreasing(a, if flagged(p.value) then [entry(p)] else [], RowIndex);
    }
  }

  // --------------------------------------------------------------- z-score

  function ZScore(v: real, mean: real, std: real): real
    requires std != 0.0
  {
    Abs((v - mean) / std)
  }

  function ZFlag(mean: real, std: real, threshold: real): real -> bool
    requires std != 0.0
  {
    v => ZScore(v, mean, std) > threshold
  }

  function ZEntry(mean: real, std: real, column: string, now: Time): Point -> LogEntry
    requires std != 0.0
  {
    (p: Point) => ZOutlier(now, column, p.index + 1, p.value, ZScore(p.value, mean, std))
  }

  /** `std_val`: the sample standard deviation, or 0 for a single value. */
  function StdOf(xs: seq<real>, sqrt: real -> real): real {
    if |xs| > 1 then Stdev(xs, sqrt) else 0.0
  }

  /**
   * `_zscore_outliers`: nothing when the standard deviation is zero, else an
   * entry for every point whose z-score exceeds the threshold.
   */
  function ZScoreLog(ps: seq<Point>, column: string, threshold: real, sqrt: real -> real, now: Time): seq<LogEntry>
    requires |ps| > 0
  {
    var xs := Values(ps);
    var mean := Mean(xs);
    var std := StdOf(xs, sqrt);
    if std == 0.0 then [] else Detect(ps, ZFlag(mean, std, threshold), ZEntry(mean, std, column, now))
  }

  /**
   * The z-score log names exactly the points whose z-score exceeds the
   * threshold, each with its 1-based row, its value and its z-score.
   */
  lemma ZScoreLogSpec(ps: seq<Point>, column: string, threshold: real, sqrt: real -> real, now: Time)
    requires |ps| > 0
    ensures var xs := Values(ps);
      var mean, std := Mean(xs), StdOf(xs, sqrt);
      && (std == 0.0 ==> ZScoreLog(ps, column, threshold, sqrt, now) == [])
      && (std != 0.0 ==>
        && (forall e :: e in ZScoreLog(ps, column, threshold, sqrt, now) ==>
              exists k :: 0 <= k < |ps| && ZScore(ps[k].value, mean, std) > threshold &&
                e == ZOutlier(now, column, ps[k].index + 1, ps[k].value, ZScore(ps[k].value, mean, std)))
        && (forall k :: 0 <= k < |ps| && ZScore(ps[k].value, mean, std) > threshold ==>
              ZOutlier(now, column, ps[k].index + 1, ps[k].value, ZScore(ps[k].value, mean, std))
                in ZScoreLog(ps, column, threshold, sqrt, now)))
    ensures (forall k, l :: 0 <= k < l < |ps| ==> ps[k].index < ps[l].index) ==>
      forall k, l :: 0 <= k < l < |ZScoreLog(ps, column, threshold, sqrt, now)| ==>
        ZScoreLog(ps, column, threshold, sqrt, now)[k].row < ZScoreLog(ps, column, threshold, sqrt, now)[l].row
  {
    var xs := Values(ps);
    var mean, std := Mean(xs), StdOf(xs, sqrt);
    if std != 0.0 {
      var flag, entry := ZFlag(mean, std, threshold), ZEntry(mean, std, column, now);
      DetectSound(ps, flag, entry);
      DetectComplete(ps, flag, entry);
      if forall k, l :: 0 <= k < l < |ps| ==> ps[k].index < ps[l].index {
        DetectOrdered(ps, flag, entry);
      }
    }
  }

  /** Cancelling a non-zero factor. */
  lemma Cancel(a: real, b: real, s: real)
    requires s != 0.0 && a * s == b * s
    ensures a == b
  {
    assert (a - b) * s == 0.0;
  }

  lemma MulPositive(a: real, b: real)
    requires a > 0.0 && b > 0.0
    ensures a * b > 0.0
  {
  }

  /** For a non-negative `d`, a positive `s` and a non-negative `t`: `d / s > t` exactly when `d² > t² s²`. */
  lemma QuotientAbove(d: real, s: real, t: real)
    requires d >= 0.0 && s > 0.0 && t >= 0.0
    ensures d / s > t <==> d * d > t * t * (s * s)
  {
    var q, ts := d / s, t * s;
    assert q * s == d;
    assert ts >= 0.0;
    assert q > t <==> q * s > ts;
    assert t * t * (s * s) == ts * ts;
    if d > ts {
      MulPositive(d - ts, d + ts);
      assert d * d - ts * ts == (d - ts) * (d + ts);
    } else {
      assert ts - d >= 0.0 && ts + d >= 0.0;
      assert (ts - d) * (ts + d) >= 0.0;
      assert ts * ts - d * d == (ts - d) * (ts + d);
    }
  }

  /** `|x / s| = |x| / s` for a positive `s`. */
  lemma AbsQuotient(x: real, s: real)
    requires s > 0.0
    ensures Abs(x / s) == Abs(x) / s
  {
    var q := x / s;
    assert q * s == x;
    if x < 0.0 {
      assert q < 0.0;
      assert (-q) * s == Abs(x);
      assert (Abs(x) / s) * s == Abs(x);
      Cancel(-q, Abs(x) / s, s);
    } else {
      assert q >= 0.0;
    }
  }

  /**
   * Where `sqrt` is a square root of the variance, a z-score above a
   * non-negative threshold means a squared deviation above the threshold's
   * square times the variance.
   */
  lemma ZScoreMeaning(xs: seq<real>, v: real, threshold: real, sqrt: real -> real)
    requires |xs| >= 2 && threshold >= 0.0
    requires IsRootOf(sqrt, Variance(xs)) && Stdev(xs, sqrt) != 0.0
    ensures ZScore(v, Mean(xs), Stdev(xs, sqrt)) > threshold <==>
      (v - Mean(xs)) * (v - Mean(xs)) > threshold * threshold * Variance(xs)
  {
    var m, s := Mean(xs), Stdev(xs, sqrt);
    var d := Abs(v - m);
    assert s > 0.0;
    AbsQuotient(v - m, s);
    assert d * d == (v - m) * (v - m);
    assert s * s == Variance(xs);
    QuotientAbove(d, s, threshold);
  }

  /** A column of one repeated value has no z-score outliers. */
  lemma ZScoreConstantNone(ps: seq<Point>, column: string, threshold: real, sqrt: real -> real, now: Time)
    requires |ps| >= 2 && AllEqual(Values(ps))
    requires IsRootOf(sqrt, Variance(Values(ps)))
    ensures ZScoreLog(ps, column, threshold, sqrt, now) == []
  {
    var xs := Values(ps);
    VarianceZeroIffConstant(xs);
    var r := sqrt(0.0);
    assert r * r == 0.0;
    Square(r);
  }

  // ------------------------------------------------------------------- IQR

  /** `(q1, q3)`: the values at positions `n // 4` and `3 * n // 4` of the sorted values. */
  function Quartiles(sorted: seq<real>): (real, real)
    requires |sorted| > 0
  {
    (sorted[|sorted| / 4], sorted[3 * |sorted| / 4])
  }

  /** `(lower_bound, upper_bound)`: the quartiles widened by 1.5 times their distance. */
  function IqrBounds(xs: seq<real>): (real, real)
    requires |xs| > 0
  {
    SortLength(xs);
    var q := Quartiles(Sort(xs));
    Widen(q.0, q.1)
  }

  /** `q1 - 1.5 * iqr` and `q3 + 1.5 * iqr`, where `iqr = q3 - q1`. */
  function Widen(q1: real, q3: real): (b: (real, real))
    ensures q1 <= q3 ==> b.0 <= q1 && q3 <= b.1
  {
    var iqr := q3 - q1;
    (q1 - 1.5 * iqr, q3 + 1.5 * iqr)
  }

  /** The quartiles are values of the input, in order, and lie within the bounds. */
  lemma IqrBoundsOrder(xs: seq<real>)
    requires |xs| > 0
    ensures |Sort(xs)| == |xs|
    ensures Quartiles(Sort(xs)).0 in xs && Quartiles(Sort(xs)).1 in xs
    ensures IqrBounds(xs).0 <= Quartiles(Sort(xs)).0 <= Quartiles(Sort(xs)).1 <= IqrBounds(xs).1
  {
    SortLength(xs);
    var s := Sort(xs);
    assert s[|s| / 4] in multiset(xs) && s[3 * |s| / 4] in multiset(xs);
  }

  function IqrFlag(lower: real, upper: real): real -> bool {
    v => v < lower || v > upper
  }

  function IqrEntry(lower: real, upper: real, column: string, now: Time): Point -> LogEntry {
    (p: Point) => IqrOutlier(now, column, p.index + 1, p.value, lower, upper)
  }

  /** `_iqr_outliers`: an entry for every point strictly outside the bounds. */
  function IqrLog(ps: seq<Point>, column: string, now: Time): seq<LogEntry>
    requires |ps| > 0
  {
    var b := IqrBounds(Values(ps));
    Detect(ps, IqrFlag(b.0, b.1), IqrEntry(b.0, b.1, column, now))
  }

  lemma IqrLogIs(ps: seq<Point>, column: string, now: Time, lower: real, upper: real)
    requires |ps| > 0 && IqrBounds(Values(ps)).0 == lower && IqrBounds(Values(ps)).1 == upper
    ensures IqrLog(ps, column, now) == Detect(ps, IqrFlag(lower, upper), IqrEntry(lower, upper, column, now))
  {
  }

  /**
   * The IQR log names exactly the points outside the bounds, each with its
   * 1-based row, its value and the bounds.
   */
  lemma IqrLogSpec(ps: seq<Point>, column: string, now: Time)
    requires |ps| > 0
    ensures var b := IqrBounds(Values(ps));
      && (forall e :: e in IqrLog(ps, column, now) ==>
            exists k :: 0 <= k < |ps| && (ps[k].value < b.0 || ps[k].value > b.1) &&
              e == IqrOutlier(now, column, ps[k].index + 1, ps[k].value, b.0, b.1))
      && (forall k :: 0 <= k < |ps| && (ps[k].value < b.0 || ps[k].value > b.1) ==>
            IqrOutlier(now, column, ps[k].index + 1, ps[k].value, b.0, b.1) in IqrLog(ps, column, now))
    ensures (forall k, l :: 0 <= k < l < |ps| ==> ps[k].index < ps[l].index) ==>
      forall k, l :: 0 <= k < l < |IqrLog(ps, column, now)| ==>
        IqrLog(ps, column, now)[k].row < IqrLog(ps, column, now)[l].row
  {
    var b := IqrBounds(Values(ps));
    var flag, entry := IqrFlag(b.0, b.1), IqrEntry(b.0, b.1, column, now);
    IqrLogIs(ps, column, now, b.0, b.1);
    DetectSound(ps, flag, entry);
    DetectComplete(ps, flag, entry);
    if forall k, l :: 0 <= k < l < |ps| ==> ps[k].index < ps[l].index {
      DetectOrdered(ps, flag, entry);
    }
  }

  /** The IQR log never flags the point at the lower quartile, so it never flags every point. */
  lemma IqrLogMisses(ps: seq<Point>, column: string, now: Time)
    requires |ps| > 0
    ensures |IqrLog(ps, column, now)| < |ps|
  {
    var xs := Values(ps);
    var b := IqrBounds(xs);
    var flag, entry := IqrFlag(b.0, b.1), IqrEntry(b.0, b.1, column, now);
    IqrLogIs(ps, column, now, b.0, b.1);
    IqrBoundsOrder(xs);
    var q1 := Quartiles(Sort(xs)).0;
    var k :| 0 <= k < |xs| && xs[k] == q1;
    assert !flag(ps[k].value);
    DetectMisses(ps, flag, entry, k);
  }

  // ------------------------------------------------------------- the remover

  /**
   * `_detect_outliers`: nothing for a column with fewer than three numbers,
   * the z-score log when the method is `zscore`, and the IQR log for any
   * other method.
   */
  function Detected(data: Dataset, column: string, how: string, threshold: real, sqrt: real -> real, now: Time): seq<LogEntry> {
    var ps := Points(data, column);
    if |ps| < 3 then []
    else if how == "zscore" then ZScoreLog(ps, column, threshold, sqrt, now)
    else IqrLog(ps, column, now)
  }

  function DetectedIn(data: Dataset, how: string, threshold: real, sqrt: real -> real, now: Time): string -> seq<LogEntry> {
    c => Detected(data, c, how, threshold, sqrt, now)
  }

  /** What `process` appends to the log: the detections of the qualifying columns, in header order. */
  function OutlierLog(data: Dataset, how: string, threshold: real, sqrt: real -> real, now: Time): seq<LogEntry> {
    if data == [] then []
    else ConcatMap(DetectedIn(data, how, threshold, sqrt, now), QualifyingColumns(data, Headers(data)))
  }

  /**
   * A column's detections all name that column and a row, 1-based, whose
   * cell in that column is a number, and they come in strictly increasing
   * row order.
   */
  lemma DetectedSpec(data: Dataset, column: string, how: string, threshold: real, sqrt: real -> real, now: Time)
    ensures forall e :: e in Detected(data, column, how, threshold, sqrt, now) ==>
      e.column == column && 1 <= e.row <= |data| && NumericAt(data[e.row - 1], column).Some?
    ensures forall k, l :: 0 <= k < l < |Detected(data, column, how, threshold, sqrt, now)| ==>
      RowIndex(Detected(data, column, how, threshold, sqrt, now)[k]) < RowIndex(Detected(data, column, how, threshold, sqrt, now)[l])
  {
    var ps := Points(data, column);
    if |ps| >= 3 {
      var xs := Values(ps);
      if how == "zscore" {
        var mean, std := Mean(xs), StdOf(xs, sqrt);
        if std != 0.0 {
          DetectFrom(data, column, ps, ZFlag(mean, std, threshold), ZEntry(mean, std, column, now));
        }
      } else {
        var b := IqrBounds(xs);
        IqrLogIs(ps, column, now, b.0, b.1);
        DetectFrom(data, column, ps, IqrFlag(b.0, b.1), IqrEntry(b.0, b.1, column, now));
      }
    }
  }

  /** The entries detected among a column's points name that column, in row order. */
  lemma DetectFrom(data: Dataset, column: string, ps: seq<Point>, flagged: real -> bool, entry: Point -> LogEntry)
    requires ps == Points(data, column)
    requires forall k :: 0 <= k < |ps| ==> entry(ps[k]).row == ps[k].index + 1 && entry(ps[k]).column == column
    ensures forall e :: e in Detect(ps, flagged, entry) ==>
      e.column == column && 1 <= e.row <= |data| && NumericAt(data[e.row - 1], column).Some?
    ensures forall k, l :: 0 <= k < l < |Detect(ps, flagged, entry)| ==>
      RowIndex(Detect(ps, flagged, entry)[k]) < RowIndex(Detect(ps, flagged, entry)[l])
  {
    DetectSound(ps, flagged, entry);
    DetectOrdered(ps, flagged, entry);
  }

  /**
   * `process` logs exactly the detections of the qualifying columns; they
   * come column by column in header order and, within a column, row by
   * row, so no detection is logged twice.
   */
  lemma OutlierLogSpec(data: Dataset, how: string, threshold: real, sqrt: real -> real, now: Time)
    ensures data == [] ==> OutlierLog(data, how, threshold, sqrt, now) == []
    ensures data != [] ==>
      var log, cs := OutlierLog(data, how, threshold, sqrt, now), QualifyingColumns(data, Headers(data));
      && (forall e :: e in log ==> e.column in cs && e in Detected(data, e.column, how, threshold, sqrt, now))
      && (forall h, e :: h in cs && e in Detected(data, h, how, threshold, sqrt, now) ==> e in log)
    ensures data != [] && Distinct(Headers(data)) ==>
      var log, cs := OutlierLog(data, how, threshold, sqrt, now), QualifyingColumns(data, Headers(data));
      forall k, l :: 0 <= k < l < |log| ==> LexLess(ColumnPosition(cs), RowIndex, log[k], log[l])
  {
    if data != [] {
      var cs, ls := QualifyingColumns(data, Headers(data)), DetectedParts(data, how, threshold, sqrt, now);
      OutlierLogParts(data, how, threshold, sqrt, now);
      DetectedPartsSpec(data, how, threshold, sqrt, now);
      forall e: LogEntry | e in Flatten(ls)
        ensures e.column in cs && e in Detected(data, e.column, how, threshold, sqrt, now)
      {
        var i := FlattenWhich(ls, e);
      }
      forall h, e | h in cs && e in Detected(data, h, how, threshold, sqrt, now)
        ensures e in Flatten(ls)
      {
        var i :| 0 <= i < |cs| && cs[i] == h;
        FlattenHas(ls, i, e);
      }
      if Distinct(Headers(data)) {
        QualifyingColumnsDistinct(data, Headers(data));
        forall i, l | 0 <= i < |ls| && 0 <= l < |ls[i]|
          ensures ColumnPosition(cs)(ls[i][l]) == i
        {
          assert ls[i][l] in ls[i];
          PositionDistinct(cs, i);
        }
        FlattenLexOrdered(ls, ColumnPosition(cs), RowIndex);
      }
    }
  }

  /** The detections of each qualifying column, in header order. */
  function DetectedParts(data: Dataset, how: string, threshold: real, sqrt: real -> real, now: Time): (ls: seq<seq<LogEntry>>)
    requires data != []
    ensures |ls| == |QualifyingColumns(data, Headers(data))|
  {
    var cs := QualifyingColumns(data, Headers(data));
    seq(|cs|, i requires 0 <= i < |cs| => Detected(data, cs[i], how, threshold, sqrt, now))
  }

  lemma OutlierLogParts(data: Dataset, how: string, threshold: real, sqrt: real -> real, now: Time)
    requires data != []
    ensures OutlierLog(data, how, threshold, sqrt, now) == Flatten(DetectedParts(data, how, threshold, sqrt, now))
  {
    var f, cs := DetectedIn(data, how, threshold, sqrt, now), QualifyingColumns(data, Headers(data));
    ConcatMapFlatten(f, cs);
    assert seq(|cs|, i requires 0 <= i < |cs| => f(cs[i])) == DetectedParts(data, how, threshold, sqrt, now);
  }

  lemma DetectedPartsSpec(data: Dataset, how: string, threshold: real, sqrt: real -> real, now: Time)
    requires data != []
    ensures var cs, ls := QualifyingColumns(data, Headers(data)), DetectedParts(data, how, threshold, sqrt, now);
      forall i :: 0 <= i < |ls| ==>
        && ls[i] == Detected(data, cs[i], how, threshold, sqrt, now)
        && (forall e :: e in ls[i] ==> e.column == cs[i])
        && (forall k, l :: 0 <= k < l < |ls[i]| ==> RowIndex(ls[i][k]) < RowIndex(ls[i][l]))
  {
    var cs := QualifyingColumns(data, Headers(data));
    forall i | 0 <= i < |cs| {
      DetectedSpec(data, cs[i], how, threshold, sqrt, now);
    }
  }

  /** The 0-based positions below `n` whose 1-based number `rows` does not hold, in order. */
  function KeptIndexes(n: nat, rows: set<nat>): (idx: seq<nat>)
    ensures |idx| <= n
    ensures forall k :: 0 <= k < |idx| ==> idx[k] < n && idx[k] + 1 !in rows
    ensures forall k, l :: 0 <= k < l < |idx| ==> idx[k] < idx[l]
    ensures forall i :: 0 <= i < n && i + 1 !in rows ==> i in idx
  {
    if n == 0 then [] else KeptIndexes(n - 1, rows) + (if n in rows then [] else [n - 1])
  }

  /** `[row for i, row in enumerate(data) if i + 1 not in rows]`. */
  function KeepRows(data: Dataset, rows: set<nat>): (kept: Dataset)
    ensures |kept| == |KeptIndexes(|data|, rows)|
    ensures forall k :: 0 <= k < |kept| ==> kept[k] == data[KeptIndexes(|data|, rows)[k]]
  {
    var idx := KeptIndexes(|data|, rows);
    seq(|idx|, k requires 0 <= k < |idx| => data[idx[k]])
  }

  lemma KeepRowsStep(data: Dataset, rows: set<nat>, i: nat)
    requires i < |data|
    ensures KeepRows(data[..i + 1], rows) == KeepRows(data[..i], rows) + (if i + 1 in rows then [] else [data[i]])
  {
    var a, b := KeepRows(data[..i + 1], rows), KeepRows(data[..i], rows);
    var c := b + (if i + 1 in rows then [] else [data[i]]);
    assert |a| == |c|;
    forall k | 0 <= k < |a| ensures a[k] == c[k] {
      if k < |b| {
        assert KeptIndexes(i + 1, rows)[k] == KeptIndexes(i, rows)[k];
      }
    }
  }

  /**
   * The remover keeps exactly the rows whose 1-based number `rows` does not
   * hold, in their order; a set without the rows' numbers keeps them all.
   */
  lemma KeepRowsSpec(data: Dataset, rows: set<nat>)
    ensures |KeepRows(data, rows)| <= |data|
    ensures forall i :: 0 <= i < |data| && i + 1 !in rows ==> data[i] in KeepRows(data, rows)
    ensures (forall r :: 1 <= r <= |data| ==> r !in rows) ==> KeepRows(data, rows) == data
  {
    var idx := KeptIndexes(|data|, rows);
    forall i | 0 <= i < |data| && i + 1 !in rows ensures data[i] in KeepRows(data, rows) {
      assert i in idx;
      var k :| 0 <= k < |idx| && idx[k] == i;
      assert KeepRows(data, rows)[k] == data[i];
    }
    if forall r :: 1 <= r <= |data| ==> r !in rows {
      KeptAll(|data|, rows);
    }
  }

  lemma {:induction false} KeptAll(n: nat, rows: set<nat>)
    requires forall r :: 1 <= r <= n ==> r !in rows
    ensures |KeptIndexes(n, rows)| == n && forall k :: 0 <= k < n ==> KeptIndexes(n, rows)[k] == k
  {
    if n > 0 {
      KeptAll(n - 1, rows);
      assert n !in rows;
    }
  }

  lemma RowsStep(log: seq<LogEntry>, k: nat)
    requires k < |log|
    ensures Rows(log[..k + 1]) == Rows(log[..k]) + {log[k].row}
  {
    var a, b := log[..k + 1], log[..k];
    forall r ensures r in Rows(a) <==> r in Rows(b) + {log[k].row} {
      if r in Rows(a) {
        var j :| 0 <= j < |a| && a[j].row == r;
        if j < k { assert b[j] == a[j]; }
      }
      if r in Rows(b) {
        var j :| 0 <= j < |b| && b[j].row == r;
        assert a[j] == b[j];
      }
      if r == log[k].row { assert a[k].row == r; }
    }
  }

  /** The loop that collects the row numbers a log names. */
  method OutlierRows(log: seq<LogEntry>) returns (rows: set<nat>)
    ensures rows == Rows(log)
  {
    rows := {};
    for k := 0 to |log|
      invariant rows == Rows(log[..k])
    {
      RowsStep(log, k);
      rows := rows + {log[k].row};
    }
    assert log[..|log|] == log;
  }

  /** The comprehension that keeps the rows whose 1-based number `rows` does not hold. */
  method DropRows(data: Dataset, rows: set<nat>) returns (cleaned: Dataset)
    ensures cleaned == KeepRows(data, rows)
  {
    cleaned := [];
    for i := 0 to |data|
      invariant cleaned == KeepRows(data[..i], rows)
    {
      KeepRowsStep(data, rows, i);
      if i + 1 !in rows {
        cleaned := cleaned + [data[i]];
      }
    }
    assert data[..|data|] == data;
  }

  /** The outlier remover, its settings and the log it keeps across calls. */
  class OutlierRemover {
    const how: string
    const threshold: real
    var outlierLog: seq<LogEntry>

    /** `OutlierRemover(method, threshold)`, by default `zscore` and 2.0. */
    constructor (how: string := "zscore", threshold: real := 2.0)
      ensures this.how == how && this.threshold == threshold && outlierLog == []
    {
      this.how := how;
      this.threshold := threshold;
      outlierLog := [];
    }

    /**
     * `process`: the detections of every qualifying column are appended to
     * the log, and the result keeps the rows whose 1-based number no entry
     * of the whole log names, earlier calls' entries included.
     */
    method Process(data: Dataset, sqrt: real -> real, now: Time) returns (cleaned: Dataset)
      modifies this
      ensures outlierLog == old(outlierLog) + OutlierLog(data, how, threshold, sqrt, now)
      ensures cleaned == KeepRows(data, Rows(outlierLog))
    {
      if data == [] {
        return data;
      }
      var numericColumns := NumericColumns(data, data[0].keys);
      DetectAll(data, numericColumns, sqrt, now);
      var outlierRows := OutlierRows(outlierLog);
      cleaned := DropRows(data, outlierRows);
    }

    /** The loop of `process` that extends the log with each numeric column's outliers. */
    method DetectAll(data: Dataset, columns: seq<string>, sqrt: real -> real, now: Time)
      modifies this
      ensures outlierLog == old(outlierLog) + ConcatMap(DetectedIn(data, how, threshold, sqrt, now), columns)
    {
      ghost var f := DetectedIn(data, how, threshold, sqrt, now);
      for k := 0 to |columns|
        invariant outlierLog == old(outlierLog) + ConcatMap(f, columns[..k])
      {
        var outliers := DetectOutliers(data, columns[k], sqrt, now);
        assert outliers == f(columns[k]);
        ConcatMapStep(f, columns, k);
        AppendAssoc(old(outlierLog), ConcatMap(f, columns[..k]), outliers);
        outlierLog := outlierLog + outliers;
      }
      assert columns[..|columns|] == columns;
    }

    /** `_detect_outliers`. */
    method DetectOutliers(data: Dataset, column: string, sqrt: real -> real, now: Time) returns (outliers: seq<LogEntry>)
      ensures outliers == Detected(data, column, how, threshold, sqrt, now)
    {
      var values := CollectPoints(data, column);
      if |values| < 3 {
        return [];
      }
      var numericValues := Values(values);
      if how == "zscore" {
        outliers := ZscoreOutliers(numericValues, values, column, sqrt, now);
      } else {
        outliers := IqrOutliers(numericValues, values, column, now);
      }
    }

    /** `_zscore_outliers`. */
    method ZscoreOutliers(numericValues: seq<real>, values: seq<Point>, column: string, sqrt: real -> real, now: Time)
      returns (outliers: seq<LogEntry>)
      requires |values| > 0 && numericValues == Values(values)
      ensures outliers == ZScoreLog(values, column, threshold, sqrt, now)
    {
      var meanVal := Mean(numericValues);
      var stdVal := if |numericValues| > 1 then Stdev(numericValues, sqrt) else 0.0;
      if stdVal == 0.0 {
        return [];
      }
      ghost var flag, entry := ZFlag(meanVal, stdVal, threshold), ZEntry(meanVal, stdVal, column, now);
      outliers := [];
      for k := 0 to |values|
        invariant outliers == Detect(values[..k], flag, entry)
      {
        DetectStep(values, k, flag, entry);
        var zScore := Abs((values[k].value - meanVal) / stdVal);
        if zScore > threshold {
          outliers := outliers + [ZOutlier(now, column, values[k].index + 1, values[k].value, zScore)];
        }
      }
      assert values[..|values|] == values;
    }

    /** `_iqr_outliers`. */
    method IqrOutliers(numericValues: seq<real>, values: seq<Point>, column: string, now: Time)
      returns (outliers: seq<LogEntry>)
      requires |values| > 0 && numericValues == Values(values)
      ensures outliers == IqrLog(values, column, now)
    {
      var sortedValues := Sort(numericValues);
      SortLength(numericValues);
      var n := |sortedValues|;
      var q1 := sortedValues[n / 4];
      var q3 := sortedValues[3 * n / 4];
      var iqr := q3 - q1;
      var lowerBound := q1 - 1.5 * iqr;
      var upperBound := q3 + 1.5 * iqr;
      assert Quartiles(sortedValues).0 == q1 && Quartiles(sortedValues).1 == q3;
      assert Widen(q1, q3).0 == lowerBound;
      assert Widen(q1, q3).1 == upperBound;
      ghost var flag, entry := IqrFlag(lowerBound, upperBound), IqrEntry(lowerBound, upperBound, column, now);
      outliers := [];
      for k := 0 to |values|
        invariant outliers == Detect(values[..k], flag, entry)
      {
        DetectStep(values, k, flag, entry);
        if values[k].value < lowerBound || values[k].value > upperBound {
          outliers := outliers + [IqrOutlier(now, column, values[k].index + 1, values[k].value, lowerBound, upperBound)];
        }
      }
      assert values[..|values|] == values;
      IqrLogIs(values, column, now, lowerBound, upperBound);
    }
  }
}
