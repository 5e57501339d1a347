/**
 * The normalizer. Every qualifying column whose parseable values are not all
 * equal is rescaled in place, either by min-max to [0, 1] or by z-score.
 * Each rescaled cell appends one log entry, and the column's scaling
 * parameters are recorded. The rows are the elements of an array that the
 * normalizer overwrites, as the source overwrites the cells of the caller's
 * list of rows.
 */
module Normalizer {
  import opened Dicts
  import opened Cells
  import opened Stats
  import opened Logs

  /** A column's `scaling_params` record. */
  datatype Scaling =
    | MinMaxParams(min: real, max: real)
    | ZScoreParams(mean: real, std: real)

  /** Parameters that rescale without dividing by zero. */
  predicate Usable(p: Scaling) {
    match p
    case MinMaxParams(lo, hi) => lo != hi
    case ZScoreParams(_, s) => s != 0.0
  }

  /** The new value of a cell that held `v`. */
  function Rescale(p: Scaling, v: real): real
    requires Usable(p)
  {
    match p
    case MinMaxParams(lo, hi) => (v - lo) / (hi - lo)
    case ZScoreParams(m, s) => (v - m) / s
  }

  /** The value a rescaled cell holding `y` came from. */
  function Unscale(p: Scaling, y: real): real
    requires Usable(p)
  {
    match p
    case MinMaxParams(lo, hi) => lo + y * (hi - lo)
    case ZScoreParams(m, s) => m + y * s
  }

  /** The recorded parameters recover every original value. */
  lemma UnscaleRescale(p: Scaling, v: real)
    requires Usable(p)
    ensures Unscale(p, Rescale(p, v)) == v
  {
  }

  /** Every value is the rescaling of one original value. */
  lemma RescaleUnscale(p: Scaling, y: real)
    requires Usable(p)
    ensures Rescale(p, Unscale(p, y)) == y
  {
  }

  /**
   * The parameters `_normalize_column` uses for a column with points `ps`,
   * or None when it leaves the column alone: fewer than two points, a
   * minimum equal to the maximum, or a zero standard deviation. Any method
   * other than `minmax` is the z-score.
   */
  function ColumnScaling(ps: seq<Point>, how: string, sqrt: real -> real): (r: Option<Scaling>)
    ensures r.Some? ==> Usable(r.value) && |ps| >= 2
    ensures r.Some? ==> (r.value.MinMaxParams? <==> how == "minmax")
  {
    if |ps| < 2 then None
    else
      var vs := Values(ps);
      if how == "minmax" then
        var lo, hi := Min(vs), Max(vs);
        if hi == lo then None else Some(MinMaxParams(lo, hi))
      else
        var m, s := Mean(vs), Stdev(vs, sqrt);
        if s == 0.0 then None else Some(ZScoreParams(m, s))
  }

  lemma RootZero(sqrt: real -> real, v: real)
    requires IsRootOf(sqrt, v)
    ensures sqrt(v) == 0.0 <==> v == 0.0
  {
    Square(sqrt(v));
  }

  lemma {:induction false} MinMaxEqualIffConstant(xs: seq<real>)
    requires |xs| > 0
    ensures Min(xs) == Max(xs) <==> AllEqual(xs)
  {
    var lo, hi := Min(xs), Max(xs);
    var i :| 0 <= i < |xs| && xs[i] == lo;
    var j :| 0 <= j < |xs| && xs[j] == hi;
    if AllEqual(xs) {
      assert xs[i] == xs[0] && xs[j] == xs[0];
    }
    if lo == hi {
      forall k | 0 <= k < |xs| ensures xs[k] == xs[0] {
        assert lo <= xs[k] <= hi && lo <= xs[0] <= hi;
      }
    }
  }

  /**
   * A column is left alone exactly when it has fewer than two points or all
   * its values are equal, under either method, provided `sqrt` is a square
   * root at the column's variance.
   */
  lemma SkippedIffConstant(ps: seq<Point>, how: string, sqrt: real -> real)
    requires how != "minmax" && |ps| >= 2 ==> IsRootOf(sqrt, Variance(Values(ps)))
    ensures ColumnScaling(ps, how, sqrt).None? <==> |ps| < 2 || AllEqual(Values(ps))
  {
    if |ps| >= 2 {
      var vs := Values(ps);
      if how == "minmax" {
        MinMaxEqualIffConstant(vs);
      } else {
        RootZero(sqrt, Variance(vs));
        VarianceZeroIffConstant(vs);
      }
    }
  }

  lemma DivMonotone(a: real, b: real, d: real)
    requires a <= b && d > 0.0
    ensures a / d <= b / d
  {
  }

  lemma DivAdd(a: real, b: real, d: real)
    requires d != 0.0
    ensures a / d + b / d == (a + b) / d
  {
  }

  lemma MinMaxEnds(lo: real, hi: real)
    requires lo < hi
    ensures (lo - lo) / (hi - lo) == 0.0 && (hi - lo) / (hi - lo) == 1.0
  {
  }

  lemma UnitInterval(v: real, lo: real, hi: real)
    requires lo <= v <= hi && lo < hi
    ensures 0.0 <= (v - lo) / (hi - lo) <= 1.0
  {
    DivMonotone(lo - lo, v - lo, hi - lo);
    DivMonotone(v - lo, hi - lo, hi - lo);
    MinMaxEnds(lo, hi);
  }

  lemma MulDiv(s: real, n: real)
    requires n > 0.0
    ensures n * (s / n) == s
  {
  }


  /**
   * Min-max puts every value of a rescaled column in [0, 1], the least
   * value at 0 and the greatest at 1.
   */
  lemma MinMaxRange(ps: seq<Point>, sqrt: real -> real)
    requires ColumnScaling(ps, "minmax", sqrt).Some?
    ensures var p := ColumnScaling(ps, "minmax", sqrt).value;
      && (forall k :: 0 <= k < |ps| ==> 0.0 <= Rescale(p, ps[k].value) <= 1.0)
      && (exists k :: 0 <= k < |ps| && Rescale(p, ps[k].value) == 0.0)
      && (exists k :: 0 <= k < |ps| && Rescale(p, ps[k].value) == 1.0)
  {
    var p := ColumnScaling(ps, "minmax", sqrt).value;
    var vs := Values(ps);
    var lo, hi := Min(vs), Max(vs);
    assert p == MinMaxParams(lo, hi) && lo <= hi;
    forall k | 0 <= k < |ps| ensures 0.0 <= Rescale(p, ps[k].value) <= 1.0 {
      assert vs[k] == ps[k].value;
      UnitInterval(ps[k].value, lo, hi);
    }
    var i :| 0 <= i < |vs| && vs[i] == lo;
    var j :| 0 <= j < |vs| && vs[j] == hi;
    MinMaxEnds(lo, hi);
    assert Rescale(p, ps[i].value) == (lo - lo) / (hi - lo);
    assert Rescale(p, ps[j].value) == (hi - lo) / (hi - lo);
  }

  /** Rescaling keeps the order of a column's values. */
  lemma RescaleKeepsOrder(ps: seq<Point>, how: string, sqrt: real -> real, k: nat, l: nat)
    requires ColumnScaling(ps, how, sqrt).Some?
    requires how != "minmax" ==> IsRootOf(sqrt, Variance(Values(ps)))
    requires k < |ps| && l < |ps| && ps[k].value <= ps[l].value
    ensures var p := ColumnScaling(ps, how, sqrt).value;
      Rescale(p, ps[k].value) <= Rescale(p, ps[l].value)
  {
    var p := ColumnScaling(ps, how, sqrt).value;
    var vs := Values(ps);
    if how == "minmax" {
      assert p.min == Min(vs) && p.max == Max(vs);
    } else {
      assert p.std == sqrt(Variance(vs));
    }
    RescaleMonotone(p, ps[k].value, ps[l].value);
  }

  lemma RescaleMonotone(p: Scaling, v: real, w: real)
    requires Usable(p) && v <= w
    requires p.MinMaxParams? ==> p.min <= p.max
    requires p.ZScoreParams? ==> p.std >= 0.0
    ensures Rescale(p, v) <= Rescale(p, w)
  {
    match p
    case MinMaxParams(lo, hi) => DivMonotone(v - lo, w - lo, hi - lo);
    case ZScoreParams(m, s) => DivMonotone(v - m, w - m, s);
  }

  /** The rescaled values, in order. */
  function RescaledValues(p: Scaling, vs: seq<real>): (ys: seq<real>)
    requires Usable(p)
    ensures |ys| == |vs| && forall k :: 0 <= k < |vs| ==> ys[k] == Rescale(p, vs[k])
  {
    seq(|vs|, k requires 0 <= k < |vs| => Rescale(p, vs[k]))
  }

  function Shifted(vs: seq<real>, m: real): (r: seq<real>)
    ensures |r| == |vs| && forall k :: 0 <= k < |vs| ==> r[k] == vs[k] - m
  {
    seq(|vs|, k requires 0 <= k < |vs| => vs[k] - m)
  }

  function Divided(vs: seq<real>, s: real): (r: seq<real>)
    requires s != 0.0
    ensures |r| == |vs| && forall k :: 0 <= k < |vs| ==> r[k] == vs[k] / s
  {
    seq(|vs|, k requires 0 <= k < |vs| => vs[k] / s)
  }

  lemma {:induction false} SumShifted(vs: seq<real>, m: real)
    ensures Sum(Shifted(vs, m)) == Sum(vs) - |vs| as real * m
  {
    if vs != [] {
      assert Shifted(vs, m)[1..] == Shifted(vs[1..], m);
      SumShifted(vs[1..], m);
    } else {
      assert Shifted(vs, m) == [];
    }
  }

  lemma {:induction false} SumDivided(vs: seq<real>, s: real)
    requires s != 0.0
    ensures Sum(Divided(vs, s)) == Sum(vs) / s
  {
    if vs != [] {
      assert Divided(vs, s)[1..] == Divided(vs[1..], s);
      SumDivided(vs[1..], s);
      DivAdd(vs[0], Sum(vs[1..]), s);
    } else {
      assert Divided(vs, s) == [];
    }
  }

  /** The z-scores of a standardized column sum to zero: their mean is 0. */
  lemma StandardizedSumZero(ps: seq<Point>, how: string, sqrt: real -> real)
    requires ColumnScaling(ps, how, sqrt).Some? && how != "minmax"
    ensures Sum(RescaledValues(ColumnScaling(ps, how, sqrt).value, Values(ps))) == 0.0
  {
    var vs := Values(ps);
    var p := ColumnScaling(ps, how, sqrt).value;
    assert p == ZScoreParams(Mean(vs), p.std);
    MeanDeviationZero(vs, p.std);
  }

  lemma MeanDeviationZero(vs: seq<real>, s: real)
    requires |vs| > 0 && s != 0.0
    ensures Sum(RescaledValues(ZScoreParams(Mean(vs), s), vs)) == 0.0
  {
    var m := Mean(vs);
    assert RescaledValues(ZScoreParams(m, s), vs) == Divided(Shifted(vs, m), s);
    SumShifted(vs, m);
    SumDivided(Shifted(vs, m), s);
    var n := |vs| as real;
    MulDiv(Sum(vs), n);
    assert 0.0 / s == 0.0;
  }

  // ----------------------------------------------------------------- cells

  /** `data[row_idx][column] = new` for a row whose cell parses; other rows stay. */
  function RescaleRow(row: Row, column: string, p: Scaling): (r: Row)
    requires Usable(p)
    ensures r.keys == row.keys
    ensures forall h :: h != column ==> Get(r, h) == Get(row, h)
  {
    match NumericAt(row, column)
    case Some(v) => Put(row, column, Num(Rescale(p, v)))
    case None => row
  }

  lemma RescaleRowAt(row: Row, column: string, p: Scaling, v: real)
    requires Usable(p) && NumericAt(row, column) == Some(v)
    ensures RescaleRow(row, column, p) == Put(row, column, Num(Rescale(p, v)))
  {
  }

  function RescaleRows(data: Dataset, column: string, p: Scaling): (r: Dataset)
    requires Usable(p)
    ensures |r| == |data| && forall i :: 0 <= i < |data| ==> r[i] == RescaleRow(data[i], column, p)
  {
    seq(|data|, i requires 0 <= i < |data| => RescaleRow(data[i], column, p))
  }

  /** `_normalize_column(data, column)`, on the rows' values. */
  function NormalizedColumn(data: Dataset, column: string, how: string, sqrt: real -> real): (r: Dataset)
    ensures |r| == |data|
    ensures forall i :: 0 <= i < |data| ==> r[i].keys == data[i].keys
    ensures forall i, h :: 0 <= i < |data| && h != column ==> Get(r[i], h) == Get(data[i], h)
  {
    match ColumnScaling(Points(data, column), how, sqrt)
    case None => data
    case Some(p) => RescaleRows(data, column, p)
  }

  /**
   * The cell `column` of row `i` holds after normalizing that column: the
   * rescaled value where the cell parses and parameters exist, the old cell
   * otherwise.
   */
  function NormalizedCell(data: Dataset, column: string, how: string, sqrt: real -> real, i: nat): Cell
    requires i < |data|
  {
    match ColumnScaling(Points(data, column), how, sqrt)
    case None => Get(data[i], column)
    case Some(p) =>
      match NumericAt(data[i], column)
      case Some(v) => Num(Rescale(p, v))
      case None => Get(data[i], column)
  }

  lemma NormalizedColumnCell(data: Dataset, column: string, how: string, sqrt: real -> real, i: nat)
    requires i < |data|
    ensures Get(NormalizedColumn(data, column, how, sqrt)[i], column) == NormalizedCell(data, column, how, sqrt, i)
  {
  }

  /** Min-max turns the cells that held the least value into `0.0`, which every stage reads as missing. */
  lemma MinMaxMinimumBecomesMissing(data: Dataset, column: string, sqrt: real -> real, i: nat)
    requires ColumnScaling(Points(data, column), "minmax", sqrt).Some?
    requires i < |data| && NumericAt(data[i], column) == Some(ColumnScaling(Points(data, column), "minmax", sqrt).value.min)
    ensures NormalizedCell(data, column, "minmax", sqrt, i) == Num(0.0)
    ensures !Present(NormalizedColumn(data, column, "minmax", sqrt)[i], column)
  {
    NormalizedColumnCell(data, column, "minmax", sqrt, i);
  }

  /** Two datasets that agree on a column have the same points in it. */
  lemma {:induction false} PointsSameColumn(d1: Dataset, d2: Dataset, h: string)
    requires |d1| == |d2| && forall i :: 0 <= i < |d1| ==> Get(d1[i], h) == Get(d2[i], h)
    ensures Points(d1, h) == Points(d2, h)
    decreases |d1|
  {
    if d1 != [] {
      var n := |d1| - 1;
      PointsSameColumn(d1[..n], d2[..n], h);
      assert NumericAt(d1[n], h) == NumericAt(d2[n], h);
    }
  }

  /** What normalizing a column makes of it depends on that column alone. */
  lemma NormalizedCellSameColumn(d1: Dataset, d2: Dataset, column: string, how: string, sqrt: real -> real)
    requires |d1| == |d2| && forall i :: 0 <= i < |d1| ==> Get(d1[i], column) == Get(d2[i], column)
    ensures forall i :: 0 <= i < |d1| ==> NormalizedCell(d1, column, how, sqrt, i) == NormalizedCell(d2, column, how, sqrt, i)
  {
    PointsSameColumn(d1, d2, column);
    forall i | 0 <= i < |d1|
      ensures NormalizedCell(d1, column, how, sqrt, i) == NormalizedCell(d2, column, how, sqrt, i)
    {
      assert NumericAt(d1[i], column) == NumericAt(d2[i], column);
    }
  }

  // ------------------------------------------------------------------- log

  /** The entry for rescaling point `pt`, with its 1-based row. */
  function ScaledEntry(p: Scaling, column: string, now: Time, pt: Point): (e: LogEntry)
    requires Usable(p)
  {
    match p
    case MinMaxParams(lo, hi) => MinMaxScaled(now, column, pt.index + 1, pt.value, Rescale(p, pt.value), lo, hi)
    case ZScoreParams(m, s) => ZScaled(now, column, pt.index + 1, pt.value, Rescale(p, pt.value), m, s)
  }

  /** The new value an entry of the normalizer's log records. */
  function NewValue(e: LogEntry): real
    requires e.MinMaxScaled? || e.ZScaled?
  {
    if e.MinMaxScaled? then e.normalized else e.standardized
  }

  function ScaledLog(ps: seq<Point>, column: string, p: Scaling, now: Time): (log: seq<LogEntry>)
    requires Usable(p)
    ensures |log| == |ps| && forall k :: 0 <= k < |ps| ==> log[k] == ScaledEntry(p, column, now, ps[k])
  {
    seq(|ps|, k requires 0 <= k < |ps| => ScaledEntry(p, column, now, ps[k]))
  }

  lemma ScaledLogStep(ps: seq<Point>, column: string, p: Scaling, now: Time, k: nat)
    requires Usable(p) && k < |ps|
    ensures ScaledLog(ps[..k + 1], column, p, now) == ScaledLog(ps[..k], column, p, now) + [ScaledEntry(p, column, now, ps[k])]
  {
  }

  /** The entries `_normalize_column(data, column)` appends. */
  function ColumnLog(data: Dataset, column: string, how: string, sqrt: real -> real, now: Time): seq<LogEntry> {
    match ColumnScaling(Points(data, column), how, sqrt)
    case None => []
    case Some(p) => ScaledLog(Points(data, column), column, p, now)
  }

  /**
   * Every entry of a column's log names the column, a row whose cell
   * parsed, its old value and its new one.
   */
  lemma ColumnLogSound(data: Dataset, column: string, how: string, sqrt: real -> real, now: Time, k: nat)
    requires k < |ColumnLog(data, column, how, sqrt, now)|
    ensures var e := ColumnLog(data, column, how, sqrt, now)[k];
      && ColumnScaling(Points(data, column), how, sqrt).Some?
      && (e.MinMaxScaled? || e.ZScaled?) && (e.MinMaxScaled? <==> how == "minmax")
      && e.column == column && e.time == now
      && 1 <= e.row <= |data| && NumericAt(data[e.row - 1], column) == Some(e.source)
      && NormalizedCell(data, column, how, sqrt, e.row - 1) == Num(NewValue(e))
  {
    var ps := Points(data, column);
    var p := ColumnScaling(ps, how, sqrt).value;
    var e := ColumnLog(data, column, how, sqrt, now)[k];
    assert e == ScaledEntry(p, column, now, ps[k]);
    var i := ps[k].index;
    assert NumericAt(data[i], column) == Some(ps[k].value);
    assert NewValue(e) == Rescale(p, ps[k].value);
  }

  /** Every rescaled cell has an entry in its column's log. */
  lemma ColumnLogComplete(data: Dataset, column: string, how: string, sqrt: real -> real, now: Time, i: nat)
    requires i < |data| && ColumnScaling(Points(data, column), how, sqrt).Some? && NumericAt(data[i], column).Some?
    ensures exists k :: 0 <= k < |ColumnLog(data, column, how, sqrt, now)| && ColumnLog(data, column, how, sqrt, now)[k].row == i + 1
  {
    PointAt(data, column, i);
    var ps := Points(data, column);
    var k :| 0 <= k < |ps| && ps[k].index == i;
    assert ColumnLog(data, column, how, sqrt, now)[k].row == i + 1;
  }

  /** A column left alone logs nothing and changes nothing. */
  lemma SkippedColumnUnchanged(data: Dataset, column: string, how: string, sqrt: real -> real, now: Time)
    requires ColumnScaling(Points(data, column), how, sqrt).None?
    ensures NormalizedColumn(data, column, how, sqrt) == data
    ensures ColumnLog(data, column, how, sqrt, now) == []
  {
  }

  /** `scaling_params[column] = ...` when the column is rescaled; the last call wins. */
  function ColumnParams(params: map<string, Scaling>, data: Dataset, column: string, how: string, sqrt: real -> real): (r: map<string, Scaling>)
    ensures forall h :: h != column ==> (h in r <==> h in params) && (h in r ==> r[h] == params[h])
  {
    match ColumnScaling(Points(data, column), how, sqrt)
    case None => params
    case Some(p) => params[column := p]
  }

  // --------------------------------------------------------------- columns

  /** The columns normalized one after another, each on the rows the previous one left. */
  function NormalizeColumns(data: Dataset, cs: seq<string>, how: string, sqrt: real -> real): (r: Dataset)
    ensures |r| == |data|
    decreases |cs|
  {
    if cs == [] then data
    else NormalizedColumn(NormalizeColumns(data, cs[..|cs| - 1], how, sqrt), cs[|cs| - 1], how, sqrt)
  }

  function ColumnsLog(data: Dataset, cs: seq<string>, how: string, sqrt: real -> real, now: Time): seq<LogEntry>
    decreases |cs|
  {
    if cs == [] then []
    else
      var front := cs[..|cs| - 1];
      ColumnsLog(data, front, how, sqrt, now) + ColumnLog(NormalizeColumns(data, front, how, sqrt), cs[|cs| - 1], how, sqrt, now)
  }

  function ColumnsParams(params: map<string, Scaling>, data: Dataset, cs: seq<string>, how: string, sqrt: real -> real): map<string, Scaling>
    decreases |cs|
  {
    if cs == [] then params
    else
      var front := cs[..|cs| - 1];
      ColumnParams(ColumnsParams(params, data, front, how, sqrt), NormalizeColumns(data, front, how, sqrt), cs[|cs| - 1], how, sqrt)
  }

  lemma ColumnsStep(params: map<string, Scaling>, data: Dataset, cs: seq<string>, how: string, sqrt: real -> real, now: Time, k: nat)
    requires k < |cs|
    ensures NormalizeColumns(data, cs[..k + 1], how, sqrt) == NormalizedColumn(NormalizeColumns(data, cs[..k], how, sqrt), cs[k], how, sqrt)
    ensures ColumnsLog(data, cs[..k + 1], how, sqrt, now) ==
      ColumnsLog(data, cs[..k], how, sqrt, now) + ColumnLog(NormalizeColumns(data, cs[..k], how, sqrt), cs[k], how, sqrt, now)
    ensures ColumnsParams(params, data, cs[..k + 1], how, sqrt) ==
      ColumnParams(ColumnsParams(params, data, cs[..k], how, sqrt), NormalizeColumns(data, cs[..k], how, sqrt), cs[k], how, sqrt)
  {
    assert cs[..k + 1][..k] == cs[..k];
  }

  /**
   * Normalizing distinct columns one after another rescales each of them as
   * if it were the only one, from the original values, keeps every row's
   * keys, and leaves every other column as it was.
   */
  lemma {:induction false} NormalizeColumnsSpec(data: Dataset, cs: seq<string>, how: string, sqrt: real -> real)
    requires Distinct(cs)
    ensures var r := NormalizeColumns(data, cs, how, sqrt);
      && (forall i :: 0 <= i < |data| ==> r[i].keys == data[i].keys)
      && (forall i, h :: 0 <= i < |data| && h !in cs ==> Get(r[i], h) == Get(data[i], h))
      && (forall i, h :: 0 <= i < |data| && h in cs ==> Get(r[i], h) == NormalizedCell(data, h, how, sqrt, i))
    decreases |cs|
  {
    if cs != [] {
      var front, c := cs[..|cs| - 1], cs[|cs| - 1];
      assert Distinct(front);
      NormalizeColumnsSpec(data, front, how, sqrt);
      var d := NormalizeColumns(data, front, how, sqrt);
      var r := NormalizeColumns(data, cs, how, sqrt);
      assert c !in front;
      assert cs == front + [c];
      assert r == NormalizedColumn(d, c, how, sqrt);
      NormalizedCellSameColumn(d, data, c, how, sqrt);
      forall i, h | 0 <= i < |data| && h !in cs
        ensures Get(r[i], h) == Get(data[i], h)
      {
        assert h != c && h !in front;
      }
      forall i, h | 0 <= i < |data| && h in cs
        ensures Get(r[i], h) == NormalizedCell(data, h, how, sqrt, i)
      {
        if h == c {
          NormalizedColumnCell(d, c, how, sqrt, i);
        } else {
          assert h in front;
        }
      }
    }
  }

  /** The log names each column's rescaled cells as if that column were the only one. */
  function ColumnLogOf(data: Dataset, how: string, sqrt: real -> real, now: Time): string -> seq<LogEntry> {
    h => ColumnLog(data, h, how, sqrt, now)
  }

  lemma {:induction false} ColumnsLogSpec(data: Dataset, cs: seq<string>, how: string, sqrt: real -> real, now: Time)
    requires Distinct(cs)
    ensures ColumnsLog(data, cs, how, sqrt, now) == ConcatMap(ColumnLogOf(data, how, sqrt, now), cs)
    decreases |cs|
  {
    if cs != [] {
      var front, c := cs[..|cs| - 1], cs[|cs| - 1];
      assert Distinct(front);
      ColumnsLogSpec(data, front, how, sqrt, now);
      NormalizeColumnsSpec(data, front, how, sqrt);
      var d := NormalizeColumns(data, front, how, sqrt);
      assert c !in front;
      PointsSameColumn(d, data, c);
      assert ColumnLog(d, c, how, sqrt, now) == ColumnLogOf(data, how, sqrt, now)(c);
    }
  }

  /** After distinct columns, each rescaled column holds its own parameters and nothing else moves. */
  lemma {:induction false} ColumnsParamsSpec(params: map<string, Scaling>, data: Dataset, cs: seq<string>, how: string, sqrt: real -> real)
    requires Distinct(cs)
    ensures var r := ColumnsParams(params, data, cs, how, sqrt);
      forall h :: if h in cs && ColumnScaling(Points(data, h), how, sqrt).Some?
        then h in r && r[h] == ColumnScaling(Points(data, h), how, sqrt).value
        else (h in r <==> h in params) && (h in r ==> r[h] == params[h])
    decreases |cs|
  {
    if cs != [] {
      var front, c := cs[..|cs| - 1], cs[|cs| - 1];
      assert Distinct(front);
      ColumnsParamsSpec(params, data, front, how, sqrt);
      NormalizeColumnsSpec(data, front, how, sqrt);
      var d := NormalizeColumns(data, front, how, sqrt);
      assert c !in front;
      PointsSameColumn(d, data, c);
      forall h ensures h in cs <==> h == c || h in front {
        assert h in front ==> h in cs;
      }
    }
  }

  // ---------------------------------------------------------------- process

  /** What `process` makes of the rows. */
  function Normalize(data: Dataset, how: string, sqrt: real -> real): Dataset {
    if data == [] then data else NormalizeColumns(data, QualifyingColumns(data, Headers(data)), how, sqrt)
  }

  /** What `process` appends to `normalization_log`. */
  function NormalizationLog(data: Dataset, how: string, sqrt: real -> real, now: Time): seq<LogEntry> {
    if data == [] then [] else ColumnsLog(data, QualifyingColumns(data, Headers(data)), how, sqrt, now)
  }

  /** `scaling_params` after `process`. */
  function ParamsAfter(params: map<string, Scaling>, data: Dataset, how: string, sqrt: real -> real): map<string, Scaling> {
    if data == [] then params else ColumnsParams(params, data, QualifyingColumns(data, Headers(data)), how, sqrt)
  }

  /**
   * On rows whose first row lists each key once, `process` rescales every
   * cell of every qualifying column from that column's original values and
   * leaves every other column and every row's keys as they were; its log is
   * the columns' logs, one after another.
   */
  lemma NormalizeSpec(data: Dataset, how: string, sqrt: real -> real, now: Time)
    requires data != [] && Distinct(data[0].keys)
    ensures var r, cs := Normalize(data, how, sqrt), QualifyingColumns(data, Headers(data));
      && |r| == |data|
      && (forall i :: 0 <= i < |data| ==> r[i].keys == data[i].keys)
      && (forall i, h :: 0 <= i < |data| && !(h in data[0].keys && Qualifies(data, h)) ==> Get(r[i], h) == Get(data[i], h))
      && (forall i, h :: 0 <= i < |data| && h in data[0].keys && Qualifies(data, h) ==> Get(r[i], h) == NormalizedCell(data, h, how, sqrt, i))
    ensures NormalizationLog(data, how, sqrt, now) == ConcatMap(ColumnLogOf(data, how, sqrt, now), QualifyingColumns(data, Headers(data)))
  {
    var cs := QualifyingColumns(data, Headers(data));
    QualifyingColumnsDistinct(data, Headers(data));
    NormalizeColumnsSpec(data, cs, how, sqrt);
    ColumnsLogSpec(data, cs, how, sqrt, now);
  }

  lemma NormalizeEmpty(how: string, sqrt: real -> real, now: Time)
    ensures Normalize([], how, sqrt) == [] && NormalizationLog([], how, sqrt, now) == []
  {
  }

  // ------------------------------------------------------------------ class

  class Normalizer {
    const how: string
    var normalizationLog: seq<LogEntry>
    var scalingParams: map<string, Scaling>

    /** `Normalizer(method)`, by default `minmax`. */
    constructor (how: string := "minmax")
      ensures this.how == how && normalizationLog == [] && scalingParams == map[]
    {
      this.how := how;
      normalizationLog := [];
      scalingParams := map[];
    }

    /** `process`: the same rows, normalized in place, are returned. */
    method Process(data: array<Row>, sqrt: real -> real, now: Time) returns (result: array<Row>)
      modifies this, data
      ensures result == data
      ensures data[..] == Normalize(old(data[..]), how, sqrt)
      ensures normalizationLog == old(normalizationLog) + NormalizationLog(old(data[..]), how, sqrt, now)
      ensures scalingParams == ParamsAfter(old(scalingParams), old(data[..]), how, sqrt)
    {
      if data.Length == 0 {
        return data;
      }
      ghost var original := data[..];
      var headers := data[0].keys;
      var numericColumns := NumericColumns(data[..], headers);
      for k := 0 to |numericColumns|
        invariant data[..] == NormalizeColumns(original, numericColumns[..k], how, sqrt)
        invariant normalizationLog == old(normalizationLog) + ColumnsLog(original, numericColumns[..k], how, sqrt, now)
        invariant scalingParams == ColumnsParams(old(scalingParams), original, numericColumns[..k], how, sqrt)
      {
        ColumnsStep(old(scalingParams), original, numericColumns, how, sqrt, now, k);
        AppendAssoc(old(normalizationLog), ColumnsLog(original, numericColumns[..k], how, sqrt, now),
          ColumnLog(data[..], numericColumns[k], how, sqrt, now));
        NormalizeColumn(data, numericColumns[k], sqrt, now);
      }
      assert numericColumns[..|numericColumns|] == numericColumns;
      return data;
    }

    /** `_normalize_column`. */
    method NormalizeColumn(data: array<Row>, column: string, sqrt: real -> real, now: Time)
      modifies this, data
      ensures data[..] == NormalizedColumn(old(data[..]), column, how, sqrt)
      ensures normalizationLog == old(normalizationLog) + ColumnLog(old(data[..]), column, how, sqrt, now)
      ensures scalingParams == ColumnParams(old(scalingParams), old(data[..]), column, how, sqrt)
    {
      var values := CollectPoints(data[..], column);
      if |values| < 2 {
        return;
      }
      var numericValues := Values(values);
      if how == "minmax" {
        var minVal := Min(numericValues);
        var maxVal := Max(numericValues);
        if maxVal == minVal {
          return;
        }
        ScaleColumn(data, column, values, MinMaxParams(minVal, maxVal), now);
        scalingParams := scalingParams[column := MinMaxParams(minVal, maxVal)];
      } else {
        var meanVal := Mean(numericValues);
        var stdVal := Stdev(numericValues, sqrt);
        if stdVal == 0.0 {
          return;
        }
        ScaleColumn(data, column, values, ZScoreParams(meanVal, stdVal), now);
        scalingParams := scalingParams[column := ZScoreParams(meanVal, stdVal)];
      }
    }

    /**
     * The loop of `_normalize_column` over the column's points: each cell
     * that parsed is overwritten with its new value and logged.
     */
    method ScaleColumn(data: array<Row>, column: string, ps: seq<Point>, p: Scaling, now: Time)
      requires Usable(p) && ps == Points(data[..], column)
      modifies this`normalizationLog, data
      ensures data[..] == RescaleRows(old(data[..]), column, p)
      ensures normalizationLog == old(normalizationLog) + ScaledLog(ps, column, p, now)
    {
      ghost var original := data[..];
      RescaledBeforeStart(original, column, p);
      for k := 0 to |ps|
        invariant data[..] == RescaledBefore(original, column, p, Reached(ps, k, |original|))
        invariant normalizationLog == old(normalizationLog) + ScaledLog(ps[..k], column, p, now)
      {
        var val, rowIdx := ps[k].value, ps[k].index;
        ghost var before := data[..];
        assert data[rowIdx] == original[rowIdx];
        RescaleRowAt(original[rowIdx], column, p, val);
        RescaledBeforeStep(original, column, p, k);
        ghost var entry := ScaledEntry(p, column, now, ps[k]);
        ScaledLogStep(ps, column, p, now, k);
        AppendAssoc(old(normalizationLog), ScaledLog(ps[..k], column, p, now), [entry]);
        var newVal, record := ScalePoint(p, column, now, ps[k]);
        SetCell(data, rowIdx, column, Num(newVal));
        normalizationLog := normalizationLog + [record];
        assert data[..] == before[rowIdx := RescaleRow(original[rowIdx], column, p)];
        assert normalizationLog == old(normalizationLog) + ScaledLog(ps[..k], column, p, now) + [entry];
      }
      RescaledBeforeEnd(original, column, p);
    }
  }

  /**
   * One point's new value, `(val - min_val) / (max_val - min_val)` or
   * `(val - mean_val) / std_val`, and the entry that records it.
   */
  method ScalePoint(p: Scaling, column: string, now: Time, pt: Point) returns (newVal: real, record: LogEntry)
    requires Usable(p)
    ensures newVal == Rescale(p, pt.value) && record == ScaledEntry(p, column, now, pt)
  {
    var val, rowIdx := pt.value, pt.index;
    match p {
      case MinMaxParams(minVal, maxVal) =>
        newVal := (val - minVal) / (maxVal - minVal);
        record := MinMaxScaled(now, column, rowIdx + 1, val, newVal, minVal, maxVal);
      case ZScoreParams(meanVal, stdVal) =>
        newVal := (val - meanVal) / stdVal;
        record := ZScaled(now, column, rowIdx + 1, val, newVal, meanVal, stdVal);
    }
  }

  /** `data[i][column] = c`. */
  method SetCell(data: array<Row>, i: nat, column: string, c: Cell)
    requires i < data.Length
    modifies data
    ensures data[..] == old(data[..])[i := Put(old(data[i]), column, c)]
  {
    data[i] := Put(data[i], column, c);
  }

  /** The row of the `k`-th point, or `n` when there is none. */
  ghost function Reached(ps: seq<Point>, k: nat, n: nat): nat {
    if k < |ps| then ps[k].index else n
  }

  /** The rows with every row before `b` rescaled. */
  ghost function RescaledBefore(data: Dataset, column: string, p: Scaling, b: nat): (r: Dataset)
    requires Usable(p)
    ensures |r| == |data|
    ensures forall i :: 0 <= i < |data| ==> r[i] == if i < b then RescaleRow(data[i], column, p) else data[i]
  {
    seq(|data|, i requires 0 <= i < |data| => if i < b then RescaleRow(data[i], column, p) else data[i])
  }

  lemma RescaledBeforeStart(data: Dataset, column: string, p: Scaling)
    requires Usable(p)
    ensures RescaledBefore(data, column, p, Reached(Points(data, column), 0, |data|)) == data
  {
    var r := RescaledBefore(data, column, p, Reached(Points(data, column), 0, |data|));
    forall i | 0 <= i < |data| ensures r[i] == data[i] {
      if i < Reached(Points(data, column), 0, |data|) {
        PointsGap(data, column, 0, i);
      }
    }
  }

  /** Rescaling the `k`-th point's row moves the bound to the next point. */
  lemma RescaledBeforeStep(data: Dataset, column: string, p: Scaling, k: nat)
    requires Usable(p) && k < |Points(data, column)|
    ensures var ps := Points(data, column);
      RescaledBefore(data, column, p, Reached(ps, k, |data|))[ps[k].index := RescaleRow(data[ps[k].index], column, p)]
      == RescaledBefore(data, column, p, Reached(ps, k + 1, |data|))
  {
    var ps := Points(data, column);
    var idx := ps[k].index;
    var a := RescaledBefore(data, column, p, Reached(ps, k, |data|))[idx := RescaleRow(data[idx], column, p)];
    var b := RescaledBefore(data, column, p, Reached(ps, k + 1, |data|));
    assert idx < Reached(ps, k + 1, |data|);
    forall i | 0 <= i < |data| ensures a[i] == b[i] {
      if idx < i < Reached(ps, k + 1, |data|) {
        PointsGap(data, column, k + 1, i);
      }
    }
  }

  lemma RescaledBeforeEnd(data: Dataset, column: string, p: Scaling)
    requires Usable(p)
    ensures RescaledBefore(data, column, p, |data|) == RescaleRows(data, column, p)
  {
  }

  /** No cell between the `(k-1)`-th and the `k`-th point parses. */
  lemma PointsGap(data: Dataset, h: string, k: nat, i: nat)
    requires k <= |Points(data, h)| && i < |data|
    requires k > 0 ==> Points(data, h)[k - 1].index < i
    requires k < |Points(data, h)| ==> i < Points(data, h)[k].index
    ensures NumericAt(data[i], h).None?
  {
    var ps := Points(data, h);
    if NumericAt(data[i], h).Some? {
      PointAt(data, h, i);
      var l :| 0 <= l < |ps| && ps[l].index == i;
    }
  }
}
