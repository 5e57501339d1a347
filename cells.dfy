/**
 * Cells, rows and datasets as the processors see them, and the three tests
 * every processor applies to a cell: is it filled (Python truthiness of
 * `val and str(val).strip()`), does it parse as a number (`float(val)`), and
 * is the column mostly numeric.
 */
module Cells {
  import opened Text
  import opened Dicts

  datatype Option<T> = None | Some(value: T)

  /**
   * A cell value: a string read from the file, a number written by an
   * earlier stage (a median, a rescaled value), or `None`, which the csv
   * reader stores for the missing fields of a short record.
   */
  datatype Cell = Str(s: string) | Num(x: real) | Null

  /** A row maps column names to cells; its key order is the file's column order. */
  type Row = Dict<string, Cell>

  /** Rows in file order; positions give the 1-based row numbers of the logs. */
  type Dataset = seq<Row>

  /** `row.get(h, '')`. */
  function Get(row: Row, h: string): (c: Cell)
    ensures h !in row.entries ==> c == Str("")
    ensures h in row.entries ==> c == row.entries[h]
  {
    if h in row.entries then row.entries[h] else Str("")
  }

  /**
   * The truth value of `val and str(val).strip()`. A number is filled unless
   * it is zero, because Python's `0.0` is false.
   */
  predicate Filled(c: Cell) {
    match c
    case Str(s) => Trim(s) != ""
    case Num(x) => x != 0.0
    case Null => false
  }

  predicate Present(row: Row, h: string) {
    Filled(Get(row, h))
  }

  function Pow10(n: nat): (p: nat)
    ensures p >= 1
  {
    if n == 0 then 1 else 10 * Pow10(n - 1)
  }

  /** The first position holding `c` or `alt`, or `|s|` when there is none. */
  function FirstIndexOf(s: string, c: char, alt: char): (k: nat)
    ensures k <= |s|
    ensures k < |s| ==> s[k] == c || s[k] == alt
    ensures forall i :: 0 <= i < k ==> s[i] != c && s[i] != alt
  {
    if s == [] then 0
    else if s[0] == c || s[0] == alt then 0
    else 1 + FirstIndexOf(s[1..], c, alt)
  }

  /** A mantissa: digits, optionally one '.', more digits, at least one digit in all. */
  function ParseMantissa(t: string): (r: Option<real>)
    ensures r.Some? ==> |t| > 0
  {
    var d := FirstIndexOf(t, '.', '.');
    var whole := t[..d];
    var frac := if d < |t| then t[d + 1..] else "";
    if AllDigits(whole) && AllDigits(frac) && |whole| + |frac| > 0 then
      Some(DigitsValue(whole) as real + DigitsValue(frac) as real / Pow10(|frac|) as real)
    else None
  }

  /** An exponent: an optional sign and at least one digit. */
  function ParseExponent(t: string): Option<int> {
    var signed := |t| > 0 && (t[0] == '+' || t[0] == '-');
    var body := if signed then t[1..] else t;
    if |body| > 0 && AllDigits(body) then
      Some(if signed && t[0] == '-' then -(DigitsValue(body) as int) else DigitsValue(body))
    else None
  }

  function Scale(m: real, e: int): real {
    if e >= 0 then m * Pow10(e) as real else m / Pow10(-e) as real
  }

  function ParseUnsigned(t: string): (r: Option<real>)
    ensures r.Some? ==> |t| > 0
  {
    var k := FirstIndexOf(t, 'e', 'E');
    if k == |t| then ParseMantissa(t)
    else
      match ParseMantissa(t[..k])
      case None => None
      case Some(m) =>
        match ParseExponent(t[k + 1..])
        case None => None
        case Some(e) => Some(Scale(m, e))
  }

  function ParseSigned(t: string): (r: Option<real>)
    ensures r.Some? ==> |t| > 0
  {
    if |t| > 0 && (t[0] == '+' || t[0] == '-') then
      match ParseUnsigned(t[1..])
      case None => None
      case Some(v) => Some(if t[0] == '-' then -v else v)
    else ParseUnsigned(t)
  }

  /**
   * `float(s)` on a string: surrounding white space is ignored, then an
   * optional sign, a decimal mantissa and an optional exponent.
   * A string that parses is never blank.
   */
  function ParseNum(s: string): (r: Option<real>)
    ensures r.Some? ==> Trim(s) != ""
  {
    ParseSigned(Trim(s))
  }

  /** `float(val)` on a cell: a number is itself. */
  function ParseCell(c: Cell): (r: Option<real>)
    ensures c.Num? ==> r == Some(c.x)
    ensures c.Null? ==> r.None?
  {
    match c
    case Str(s) => ParseNum(s)
    case Num(x) => Some(x)
    case Null => None
  }

  /** The value a cell contributes to a column's statistics, if any. */
  function NumericAt(row: Row, h: string): (r: Option<real>)
    ensures r.Some? <==> Present(row, h) && ParseCell(Get(row, h)).Some?
    ensures r.Some? ==> r == ParseCell(Get(row, h))
  {
    if Present(row, h) then ParseCell(Get(row, h)) else None
  }

  /** `[row.get(h, '') for row in data]`. */
  function Column(data: Dataset, h: string): (col: seq<Cell>)
    ensures |col| == |data|
    ensures forall i :: 0 <= i < |data| ==> col[i] == Get(data[i], h)
  {
    seq(|data|, i requires 0 <= i < |data| => Get(data[i], h))
  }

  /** `list(data[0].keys())`: the headers every processor works through. */
  function Headers(data: Dataset): seq<string>
    requires data != []
  {
    data[0].keys
  }

  /** The filled cells of a column, in order. */
  function NonEmpty(column: seq<Cell>): (ne: seq<Cell>)
    ensures |ne| <= |column|
    ensures forall k :: 0 <= k < |ne| ==> Filled(ne[k])
    decreases |column|
  {
    if column == [] then []
    else
      var front := NonEmpty(column[..|column| - 1]);
      if Filled(column[|column| - 1]) then front + [column[|column| - 1]] else front
  }

  /** `NonEmpty` distributes over one more cell. */
  lemma NonEmptySnoc(column: seq<Cell>, c: Cell)
    ensures NonEmpty(column + [c]) == NonEmpty(column) + (if Filled(c) then [c] else [])
  {
    assert (column + [c])[..|column|] == column;
  }

  lemma {:induction false} NonEmptyNone(column: seq<Cell>)
    requires forall i :: 0 <= i < |column| ==> !Filled(column[i])
    ensures NonEmpty(column) == []
    decreases |column|
  {
    if column != [] {
      NonEmptyNone(column[..|column| - 1]);
    }
  }

  lemma {:induction false} NonEmptyAll(column: seq<Cell>)
    requires forall i :: 0 <= i < |column| ==> Filled(column[i])
    ensures NonEmpty(column) == column
    decreases |column|
  {
    if column != [] {
      NonEmptyAll(column[..|column| - 1]);
    }
  }

  /** A parsed value and the 0-based position of its row. */
  datatype Point = Point(value: real, index: nat)

  function Indexes(ps: seq<Point>): set<nat> {
    set k | 0 <= k < |ps| :: ps[k].index
  }

  function NumericRows(data: Dataset, h: string): set<nat> {
    set i: nat | i < |data| && NumericAt(data[i], h).Some?
  }

  /**
   * The filled, parseable cells of column `h` with their row positions, in
   * row order: the `values` list the outlier remover and the normalizer build.
   */
  function Points(data: Dataset, h: string): (ps: seq<Point>)
    ensures |ps| <= |data|
    ensures forall k :: 0 <= k < |ps| ==>
      ps[k].index < |data| && NumericAt(data[ps[k].index], h) == Some(ps[k].value)
    ensures forall k, l :: 0 <= k < l < |ps| ==> ps[k].index < ps[l].index
    decreases |data|
  {
    if data == [] then []
    else
      var front := data[..|data| - 1];
      var ps := Points(front, h);
      var last := |data| - 1;
      assert forall i :: 0 <= i < last ==> data[i] == front[i];
      match NumericAt(data[last], h)
      case Some(v) => ps + [Point(v, last)]
      case None => ps
  }

  /** A row whose cell is filled and parses has its point. */
  lemma {:induction false} PointAt(data: Dataset, h: string, i: nat)
    requires i < |data| && NumericAt(data[i], h).Some?
    ensures i in Indexes(Points(data, h))
    decreases |data|
  {
    var front := data[..|data| - 1];
    var ps := Points(front, h);
    if i == |data| - 1 {
      var p := Point(NumericAt(data[i], h).value, i);
      assert Points(data, h) == ps + [p];
      assert Points(data, h)[|ps|].index == i;
    } else {
      assert front[i] == data[i];
      PointAt(front, h, i);
      var k :| 0 <= k < |ps| && ps[k].index == i;
      assert Points(data, h)[k] == ps[k];
    }
  }

  /** Every row whose cell is filled and parses has its point, and no other row has one. */
  lemma PointsCoverNumericRows(data: Dataset, h: string)
    ensures Indexes(Points(data, h)) == NumericRows(data, h)
  {
    var ps := Points(data, h);
    forall i: nat
      ensures i in Indexes(ps) <==> i in NumericRows(data, h)
    {
      if i in NumericRows(data, h) {
        PointAt(data, h, i);
      }
    }
  }

  /** Adding a row extends the column's points by that row's point, if it has one. */
  lemma PointsSnoc(data: Dataset, h: string, i: nat)
    requires i < |data|
    ensures Points(data[..i + 1], h) ==
      Points(data[..i], h) + (if NumericAt(data[i], h).Some? then [Point(NumericAt(data[i], h).value, i)] else [])
  {
    assert data[..i + 1][..i] == data[..i];
  }

  function Values(ps: seq<Point>): (vs: seq<real>)
    ensures |vs| == |ps| && forall k :: 0 <= k < |ps| ==> vs[k] == ps[k].value
  {
    seq(|ps|, k requires 0 <= k < |ps| => ps[k].value)
  }

  /**
   * A column qualifies for outlier removal and normalization when its
   * filled, parseable cells are more than half of all rows.
   */
  predicate Qualifies(data: Dataset, h: string) {
    2 * |Points(data, h)| > |data|
  }

  /** The qualifying headers, in header order. */
  function QualifyingColumns(data: Dataset, headers: seq<string>): (cs: seq<string>)
    ensures |cs| <= |headers|
    ensures forall h :: h in cs <==> h in headers && Qualifies(data, h)
    decreases |headers|
  {
    if headers == [] then []
    else
      var h := headers[|headers| - 1];
      var front := QualifyingColumns(data, headers[..|headers| - 1]);
      assert forall x :: x in headers <==> x == h || x in headers[..|headers| - 1];
      if Qualifies(data, h) then front + [h] else front
  }

  lemma QualifyingColumnsStep(data: Dataset, headers: seq<string>, j: nat)
    requires j < |headers|
    ensures QualifyingColumns(data, headers[..j + 1]) ==
      QualifyingColumns(data, headers[..j]) + (if Qualifies(data, headers[j]) then [headers[j]] else [])
  {
    assert headers[..j + 1][..j] == headers[..j];
  }

  /** Filtering a list without repeats keeps it without repeats. */
  lemma {:induction false} QualifyingColumnsDistinct(data: Dataset, headers: seq<string>)
    requires Distinct(headers)
    ensures Distinct(QualifyingColumns(data, headers))
    decreases |headers|
  {
    if headers != [] {
      var front := headers[..|headers| - 1];
      assert Distinct(front);
      QualifyingColumnsDistinct(data, front);
      assert headers[|headers| - 1] !in front;
    }
  }

  /**
   * Filtering keeps the order of the headers: the qualifying columns come
   * in the order of their positions among the headers.
   */
  lemma QualifyingColumnsOrdered(data: Dataset, headers: seq<string>)
    requires Distinct(headers)
    ensures forall i, j :: 0 <= i < j < |QualifyingColumns(data, headers)| ==>
      HeaderPosition(headers)(QualifyingColumns(data, headers)[i]) < HeaderPosition(headers)(QualifyingColumns(data, headers)[j])
  {
    var keep := (h: string) => Qualifies(data, h);
    QualifyingColumnsFilter(data, headers);
    assert headers[..|headers|] == headers;
    FilterOrdered(keep, headers, |headers|);
  }

  /** The elements of `s` that `keep` accepts, in order. */
  function Filter<T>(keep: T -> bool, s: seq<T>): seq<T>
    decreases |s|
  {
    if s == [] then []
    else Filter(keep, s[..|s| - 1]) + (if keep(s[|s| - 1]) then [s[|s| - 1]] else [])
  }

  lemma {:induction false} QualifyingColumnsFilter(data: Dataset, headers: seq<string>)
    ensures QualifyingColumns(data, headers) == Filter((h: string) => Qualifies(data, h), headers)
    decreases |headers|
  {
    if headers != [] {
      QualifyingColumnsFilter(data, headers[..|headers| - 1]);
    }
  }

  /** Filtering a prefix of a list without repeats keeps the order of positions. */
  lemma {:induction false} FilterOrdered<T>(keep: T -> bool, s: seq<T>, n: nat)
    requires Distinct(s) && n <= |s|
    ensures forall i, j :: 0 <= i < j < |Filter(keep, s[..n])| ==>
      Position(s, Filter(keep, s[..n])[i]) < Position(s, Filter(keep, s[..n])[j])
    ensures forall k :: 0 <= k < |Filter(keep, s[..n])| ==> Position(s, Filter(keep, s[..n])[k]) < n
  {
    if n > 0 {
      FilterOrdered(keep, s, n - 1);
      assert s[..n][..n - 1] == s[..n - 1];
      var a, x := Filter(keep, s[..n - 1]), s[n - 1];
      assert s[..n][n - 1] == x;
      PositionDistinct(s, n - 1);
      if keep(x) {
        assert Filter(keep, s[..n]) == a + [x];
        AppendOneIncreasing(a, x, (y: T) => Position(s, y));
      }
    }
  }

  /** The position of a header among `headers`. */
  function HeaderPosition(headers: seq<string>): string -> int {
    (h: string) => Position(headers, h)
  }

  lemma AppendAssoc<T>(a: seq<T>, b: seq<T>, c: seq<T>)
    ensures (a + b) + c == a + (b + c)
  {
  }

  /** The parts `f(h)` of the headers `headers`, one after the other. */
  function ConcatMap<T>(f: string -> seq<T>, headers: seq<string>): seq<T>
    decreases |headers|
  {
    if headers == [] then []
    else ConcatMap(f, headers[..|headers| - 1]) + f(headers[|headers| - 1])
  }

  lemma ConcatMapSnoc<T>(f: string -> seq<T>, headers: seq<string>, h: string)
    ensures ConcatMap(f, headers + [h]) == ConcatMap(f, headers) + f(h)
  {
    assert (headers + [h])[..|headers|] == headers;
  }

  lemma ConcatMapStep<T>(f: string -> seq<T>, headers: seq<string>, k: nat)
    requires k < |headers|
    ensures ConcatMap(f, headers[..k + 1]) == ConcatMap(f, headers[..k]) + f(headers[k])
  {
    assert headers[..k + 1][..k] == headers[..k];
  }

  /** What holds of every part's elements holds of the whole. */
  lemma {:induction false} ConcatMapAll<T>(f: string -> seq<T>, p: T -> bool, headers: seq<string>)
    requires forall h, x :: h in headers && x in f(h) ==> p(x)
    ensures forall x :: x in ConcatMap(f, headers) ==> p(x)
    decreases |headers|
  {
    if headers != [] {
      var front := headers[..|headers| - 1];
      ConcatMapAll(f, p, front);
    }
  }

  /** The lists one after another, as the log `extend`s of a loop build them. */
  function Flatten<T>(ls: seq<seq<T>>): seq<T> {
    if ls == [] then [] else Flatten(ls[..|ls| - 1]) + ls[|ls| - 1]
  }

  lemma FlattenStep<T>(ls: seq<seq<T>>, k: nat)
    requires k < |ls|
    ensures Flatten(ls[..k + 1]) == Flatten(ls[..k]) + ls[k]
  {
    assert ls[..k + 1][..k] == ls[..k];
  }

  /** An element of one of the lists is in the flattening. */
  lemma {:induction false} FlattenHas<T>(ls: seq<seq<T>>, i: nat, x: T)
    requires i < |ls| && x in ls[i]
    ensures x in Flatten(ls)
  {
    if i < |ls| - 1 {
      FlattenHas(ls[..|ls| - 1], i, x);
    }
  }

  /** An element of the flattening comes from one of the lists. */
  lemma {:induction false} FlattenWhich<T>(ls: seq<seq<T>>, x: T) returns (i: nat)
    requires x in Flatten(ls)
    ensures i < |ls| && x in ls[i]
  {
    if x in ls[|ls| - 1] {
      i := |ls| - 1;
    } else {
      i := FlattenWhich(ls[..|ls| - 1], x);
    }
  }

  /** When the elements of list `i` all have key `i`, the flattening is ordered by key. */
  lemma {:induction false} FlattenOrdered<T>(ls: seq<seq<T>>, key: T -> int)
    requires forall i, l :: 0 <= i < |ls| && 0 <= l < |ls[i]| ==> key(ls[i][l]) == i
    ensures forall k :: 0 <= k < |Flatten(ls)| ==> 0 <= key(Flatten(ls)[k]) < |ls|
    ensures forall k, l :: 0 <= k < l < |Flatten(ls)| ==> key(Flatten(ls)[k]) <= key(Flatten(ls)[l])
  {
    if ls != [] {
      var front := ls[..|ls| - 1];
      FlattenOrdered(front, key);
      var a, b := Flatten(front), ls[|ls| - 1];
      assert Flatten(ls) == a + b;
      forall k | 0 <= k < |a + b|
        ensures 0 <= key((a + b)[k]) < |ls|
      {
        if k >= |a| {
          assert (a + b)[k] == b[k - |a|];
        }
      }
      forall k, l | 0 <= k < l < |a + b|
        ensures key((a + b)[k]) <= key((a + b)[l])
      {
        if l >= |a| {
          assert (a + b)[l] == b[l - |a|];
          if k >= |a| {
            assert (a + b)[k] == b[k - |a|];
          }
        }
      }
    }
  }

  /** `a` comes strictly before `b` by `major`, and by `minor` among equal `major`. */
  predicate LexLess<T>(major: T -> int, minor: T -> int, a: T, b: T) {
    major(a) < major(b) || (major(a) == major(b) && minor(a) < minor(b))
  }

  /**
   * When the elements of list `i` all have `major` key `i` and each list is
   * strictly increasing by `minor`, the flattening is strictly increasing in
   * the order of `major`, then `minor`.
   */
  lemma {:induction false} FlattenLexOrdered<T>(ls: seq<seq<T>>, major: T -> int, minor: T -> int)
    requires forall i, l :: 0 <= i < |ls| && 0 <= l < |ls[i]| ==> major(ls[i][l]) == i
    requires forall i, k, l :: 0 <= i < |ls| && 0 <= k < l < |ls[i]| ==> minor(ls[i][k]) < minor(ls[i][l])
    ensures forall k, l :: 0 <= k < l < |Flatten(ls)| ==> LexLess(major, minor, Flatten(ls)[k], Flatten(ls)[l])
    decreases |ls|
  {
    if ls != [] {
      var front := ls[..|ls| - 1];
      FlattenLexOrdered(front, major, minor);
      FlattenOrdered(front, major);
      var a, b := Flatten(front), ls[|ls| - 1];
      assert Flatten(ls) == a + b;
      forall k, l | 0 <= k < l < |a + b|
        ensures LexLess(major, minor, (a + b)[k], (a + b)[l])
      {
        if l >= |a| {
          assert (a + b)[l] == b[l - |a|];
          if k >= |a| {
            assert (a + b)[k] == b[k - |a|];
          } else {
            assert (a + b)[k] == a[k];
          }
        } else {
          assert (a + b)[k] == a[k] && (a + b)[l] == a[l];
        }
      }
    }
  }

  /** Joining two lists strictly increasing by `key`, the first one below the second. */
  lemma AppendIncreasing<T>(a: seq<T>, b: seq<T>, key: T -> int)
    requires forall k, l :: 0 <= k < l < |a| ==> key(a[k]) < key(a[l])
    requires forall k, l :: 0 <= k < l < |b| ==> key(b[k]) < key(b[l])
    requires forall k, l :: 0 <= k < |a| && 0 <= l < |b| ==> key(a[k]) < key(b[l])
    ensures forall k, l :: 0 <= k < l < |a + b| ==> key((a + b)[k]) < key((a + b)[l])
  {
    forall k, l | 0 <= k < l < |a + b|
      ensures key((a + b)[k]) < key((a + b)[l])
    {
      if l >= |a| {
        assert (a + b)[l] == b[l - |a|];
        if k >= |a| {
          assert (a + b)[k] == b[k - |a|];
        } else {
          assert (a + b)[k] == a[k];
        }
      } else {
        assert (a + b)[k] == a[k] && (a + b)[l] == a[l];
      }
    }
  }

  /** Appending an element above every key of a list strictly increasing by `key`. */
  lemma AppendOneIncreasing<T>(a: seq<T>, x: T, key: T -> int)
    requires forall k, l :: 0 <= k < l < |a| ==> key(a[k]) < key(a[l])
    requires forall k :: 0 <= k < |a| ==> key(a[k]) < key(x)
    ensures forall k, l :: 0 <= k < l < |a + [x]| ==> key((a + [x])[k]) < key((a + [x])[l])
  {
    forall k, l | 0 <= k < l < |a + [x]|
      ensures key((a + [x])[k]) < key((a + [x])[l])
    {
      assert (a + [x])[k] == a[k];
    }
  }

  /** `ConcatMap` is the flattening of the parts. */
  lemma {:induction false} ConcatMapFlatten<T>(f: string -> seq<T>, headers: seq<string>)
    ensures ConcatMap(f, headers) == Flatten(seq(|headers|, i requires 0 <= i < |headers| => f(headers[i])))
    decreases |headers|
  {
    if headers != [] {
      var front := headers[..|headers| - 1];
      ConcatMapFlatten(f, front);
      var ls := seq(|headers|, i requires 0 <= i < |headers| => f(headers[i]));
      assert ls[..|ls| - 1] == seq(|front|, i requires 0 <= i < |front| => f(front[i]));
    }
  }

  /** The counting loop that decides whether a column qualifies. */
  method CountNumeric(data: Dataset, h: string) returns (count: nat)
    ensures count == |Points(data, h)|
    ensures 2 * count > |data| <==> Qualifies(data, h)
  {
    count := 0;
    for i := 0 to |data|
      invariant count == |Points(data[..i], h)|
    {
      PointsSnoc(data, h, i);
      var val := Get(data[i], h);
      if Filled(val) && ParseCell(val).Some? {
        count := count + 1;
      }
    }
    assert data[..|data|] == data;
  }

  /** The loop over the headers that picks the qualifying columns. */
  method NumericColumns(data: Dataset, headers: seq<string>) returns (columns: seq<string>)
    ensures columns == QualifyingColumns(data, headers)
  {
    columns := [];
    for j := 0 to |headers|
      invariant columns == QualifyingColumns(data, headers[..j])
    {
      QualifyingColumnsStep(data, headers, j);
      var count := CountNumeric(data, headers[j]);
      if 2 * count > |data| {
        columns := columns + [headers[j]];
      }
    }
    assert headers[..|headers|] == headers;
  }

  /** The loop that collects a column's `values` list. */
  method CollectPoints(data: Dataset, h: string) returns (ps: seq<Point>)
    ensures ps == Points(data, h)
  {
    ps := [];
    for i := 0 to |data|
      invariant ps == Points(data[..i], h)
    {
      PointsSnoc(data, h, i);
      var val := Get(data[i], h);
      if Filled(val) {
        match ParseCell(val) {
          case Some(v) => ps := ps + [Point(v, i)];
          case None =>
        }
      }
    }
    assert data[..|data|] == data;
  }
}
