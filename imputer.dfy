/**
 * The missing-value imputer: every missing cell under a header of the first
 * row is filled with its column's median when the column holds numbers,
 * else with the column's most frequent value, and every fill is logged.
 */
module Imputer {
  import opened Dicts
  import opened Cells
  import opened Stats
  import opened Logs

  /** The values present among `os`, in order. */
  function Somes<T>(os: seq<Option<T>>): (vs: seq<T>)
    ensures |vs| <= |os|
    decreases |os|
  {
    if os == [] then []
    else
      var front := Somes(os[..|os| - 1]);
      match os[|os| - 1]
      case Some(v) => front + [v]
      case None => front
  }

  /** There are no values exactly when every entry is `None`. */
  lemma {:induction false} SomesEmpty<T>(os: seq<Option<T>>)
    ensures Somes(os) == [] <==> forall i :: 0 <= i < |os| ==> os[i].None?
    decreases |os|
  {
    if os != [] {
      var front := os[..|os| - 1];
      SomesEmpty(front);
      assert forall i :: 0 <= i < |front| ==> front[i] == os[i];
    }
  }

  /** `float(val)` of each cell, where it succeeds. */
  function Parses(cells: seq<Cell>): (os: seq<Option<real>>)
    ensures |os| == |cells|
    ensures forall i :: 0 <= i < |cells| ==> os[i] == ParseCell(cells[i])
  {
    seq(|cells|, i requires 0 <= i < |cells| => ParseCell(cells[i]))
  }

  /** The numbers among the cells, in order: `float(val)` of each cell that parses. */
  function ParsedValues(cells: seq<Cell>): (vs: seq<real>)
    ensures |vs| <= |cells|
  {
    Somes(Parses(cells))
  }

  /** There are no numbers exactly when no cell parses. */
  lemma ParsedValuesEmpty(cells: seq<Cell>)
    ensures ParsedValues(cells) == [] <==> forall i :: 0 <= i < |cells| ==> ParseCell(cells[i]).None?
  {
    SomesEmpty(Parses(cells));
  }

  /** The filled cells of a column, which both imputation helpers start from. */
  function Candidates(column: string, data: Dataset): seq<Cell> {
    NonEmpty(Column(data, column))
  }

  /**
   * `_impute_value`: `''` for a column without filled cells, the median of
   * its numbers when at least one filled cell parses, and otherwise its most
   * frequent filled value, ties going to the value seen first.
   */
  function ImputeValue(column: string, data: Dataset): Cell {
    var ne := Candidates(column, data);
    if ne == [] then Str("")
    else
      var xs := ParsedValues(ne);
      if xs != [] then Num(Median(xs)) else Mode(ne)
  }

  /**
   * The fill of a column without filled cells is `''`; that of a column with
   * numbers is their median, which lies between their least and greatest;
   * that of any other column is a most frequent filled cell, which is text.
   */
  lemma ImputeValueSpec(column: string, data: Dataset)
    ensures Candidates(column, data) == [] ==> ImputeValue(column, data) == Str("")
    ensures ParsedValues(Candidates(column, data)) != [] ==>
      var xs := ParsedValues(Candidates(column, data));
      var v := ImputeValue(column, data);
      v == Num(Median(xs)) && Min(xs) <= v.x <= Max(xs)
    ensures Candidates(column, data) != [] && ParsedValues(Candidates(column, data)) == [] ==>
      var v := ImputeValue(column, data);
      v.Str? && Filled(v) && IsModeOf(Candidates(column, data), v)
  {
    var ne := Candidates(column, data);
    if ne != [] {
      var xs := ParsedValues(ne);
      if xs != [] {
        MedianBounds(xs);
      } else {
        ModeIsMode(ne);
        ParsedValuesEmpty(ne);
        var m := Mode(ne);
        var k :| 0 <= k < |ne| && ne[k] == m;
        assert Filled(ne[k]) && ParseCell(ne[k]).None?;
      }
    }
  }

  /** `_get_imputation_method`: how `ImputeValue` chooses, by the same tests. */
  function ImputeMethod(column: string, data: Dataset): (m: string)
    ensures m == "no_data" <==> Candidates(column, data) == []
    ensures m == "median" <==> ParsedValues(Candidates(column, data)) != []
    ensures m == "no_data" || m == "median" || m == "mode"
  {
    var ne := Candidates(column, data);
    if ne == [] then "no_data"
    else if ParsedValues(ne) != [] then "median"
    else "mode"
  }

  /** The method names the branch the value came from. */
  lemma MethodMatchesValue(column: string, data: Dataset)
    ensures ImputeMethod(column, data) == "no_data" <==> ImputeValue(column, data) == Str("")
    ensures ImputeMethod(column, data) == "median" <==> ImputeValue(column, data).Num?
    ensures ImputeMethod(column, data) == "mode" <==>
      ImputeValue(column, data).Str? && ImputeValue(column, data) != Str("")
  {
    ImputeValueSpec(column, data);
    var v := ImputeValue(column, data);
    if v.Str? && Filled(v) {
      assert v != Str("");
    }
  }

  /**
   * The row `row` after the headers `headers`: each header whose cell is
   * missing gets `fill` of that header.
   */
  function FillRow(row: Row, headers: seq<string>, fill: string -> Cell): Row
    decreases |headers|
  {
    if headers == [] then row
    else
      var h := headers[|headers| - 1];
      var r := FillRow(row, headers[..|headers| - 1], fill);
      if Present(row, h) then r else Put(r, h, fill(h))
  }

  /** Filling one more header. */
  lemma FillRowStep(row: Row, headers: seq<string>, j: nat, fill: string -> Cell)
    requires j < |headers|
    ensures FillRow(row, headers[..j + 1], fill) ==
      if Present(row, headers[j]) then FillRow(row, headers[..j], fill)
      else Put(FillRow(row, headers[..j], fill), headers[j], fill(headers[j]))
  {
    assert headers[..j + 1][..j] == headers[..j];
  }

  /** Logging one more header. */
  lemma RowLogStep(row: Row, i: nat, headers: seq<string>, j: nat, fill: string -> Cell, how: string -> string, now: Time)
    requires j < |headers|
    ensures RowLog(row, i, headers[..j + 1], fill, how, now) ==
      RowLog(row, i, headers[..j], fill, how, now) +
        (if Present(row, headers[j]) then []
         else [Imputation(now, headers[j], i + 1, Get(row, headers[j]), fill(headers[j]), how(headers[j]))])
  {
    assert headers[..j + 1][..j] == headers[..j];
  }

  /** Filling gives every missing cell of `headers` its fill. */
  lemma {:induction false} FillRowFills(row: Row, headers: seq<string>, fill: string -> Cell)
    ensures forall h :: h in headers && !Present(row, h) ==> Get(FillRow(row, headers, fill), h) == fill(h)
    decreases |headers|
  {
    if headers != [] {
      var front := headers[..|headers| - 1];
      FillRowFills(row, front, fill);
      assert headers == front + [headers[|headers| - 1]];
    }
  }

  /** Filling keeps every present cell and every cell of another column. */
  lemma {:induction false} FillRowKeeps(row: Row, headers: seq<string>, fill: string -> Cell)
    ensures forall h :: (Present(row, h) || h !in headers) ==> Get(FillRow(row, headers, fill), h) == Get(row, h)
    decreases |headers|
  {
    if headers != [] {
      var front := headers[..|headers| - 1];
      FillRowKeeps(row, front, fill);
      assert headers == front + [headers[|headers| - 1]];
    }
  }

  /** Filling only adds keys of `headers`, after the row's own. */
  lemma FillRowKeys(row: Row, headers: seq<string>, fill: string -> Cell)
    ensures forall h :: h in FillRow(row, headers, fill).entries <==> h in row.entries || h in headers
    ensures |row.keys| <= |FillRow(row, headers, fill).keys|
    ensures FillRow(row, headers, fill).keys[..|row.keys|] == row.keys
  {
    FillRowEntries(row, headers, fill);
    FillRowPrefix(row, headers, fill);
  }

  lemma {:induction false} FillRowEntries(row: Row, headers: seq<string>, fill: string -> Cell)
    ensures forall h :: h in FillRow(row, headers, fill).entries <==> h in row.entries || h in headers
    decreases |headers|
  {
    if headers != [] {
      var front := headers[..|headers| - 1];
      var h := headers[|headers| - 1];
      FillRowEntries(row, front, fill);
      assert headers == front + [h];
      var r := FillRow(row, front, fill);
      if !Present(row, h) {
        assert FillRow(row, headers, fill) == Put(r, h, fill(h));
      } else {
        assert FillRow(row, headers, fill) == r;
      }
    }
  }

  lemma {:induction false} FillRowPrefix(row: Row, headers: seq<string>, fill: string -> Cell)
    ensures |row.keys| <= |FillRow(row, headers, fill).keys|
    ensures FillRow(row, headers, fill).keys[..|row.keys|] == row.keys
    decreases |headers|
  {
    if headers != [] {
      var front := headers[..|headers| - 1];
      var h := headers[|headers| - 1];
      FillRowPrefix(row, front, fill);
      var r := FillRow(row, front, fill);
      if !Present(row, h) {
        var p := Put(r, h, fill(h));
        assert FillRow(row, headers, fill) == p;
        assert p.keys[..|r.keys|] == r.keys;
        assert p.keys[..|row.keys|] == r.keys[..|row.keys|];
      } else {
        assert FillRow(row, headers, fill) == r;
      }
    }
  }

  /** The log entries of row `i`, one per missing cell, in header order. */
  function RowLog(row: Row, i: nat, headers: seq<string>, fill: string -> Cell, how: string -> string, now: Time): seq<LogEntry>
    decreases |headers|
  {
    if headers == [] then []
    else
      var h := headers[|headers| - 1];
      RowLog(row, i, headers[..|headers| - 1], fill, how, now) +
        (if Present(row, h) then [] else [Imputation(now, h, i + 1, Get(row, h), fill(h), how(h))])
  }

  /** Each column's fill, computed once from the whole input. */
  function Fills(data: Dataset): string -> Cell {
    h => ImputeValue(h, data)
  }

  function Methods(data: Dataset): string -> string {
    h => ImputeMethod(h, data)
  }

  /** The log entries of each row. */
  function RowLogs(data: Dataset, headers: seq<string>, fill: string -> Cell, how: string -> string, now: Time): (logs: seq<seq<LogEntry>>)
    ensures |logs| == |data|
  {
    seq(|data|, i requires 0 <= i < |data| => RowLog(data[i], i, headers, fill, how, now))
  }

  /** Each row with its missing cells under `headers` filled. */
  function FillRows(data: Dataset, headers: seq<string>, fill: string -> Cell): (rows: Dataset)
    ensures |rows| == |data|
  {
    seq(|data|, i requires 0 <= i < |data| => FillRow(data[i], headers, fill))
  }

  lemma FillRowsStep(data: Dataset, headers: seq<string>, fill: string -> Cell, k: nat)
    requires k < |data|
    ensures FillRows(data[..k + 1], headers, fill) == FillRows(data[..k], headers, fill) + [FillRow(data[k], headers, fill)]
  {
    assert FillRows(data[..k + 1], headers, fill)[k] == FillRow(data[k], headers, fill);
  }

  /** What `process` appends to the log: the rows' entries, row after row. */
  function ImputationLog(data: Dataset, now: Time): seq<LogEntry> {
    if data == [] then [] else Flatten(RowLogs(data, Headers(data), Fills(data), Methods(data), now))
  }

  /** What `process` returns: the rows in order, each with its missing cells filled. */
  function Impute(data: Dataset): (cleaned: Dataset)
    ensures |cleaned| == |data|
  {
    if data == [] then data
    else FillRows(data, Headers(data), Fills(data))
  }

  /** An entry of the log of row `i`: a missing cell of that row, with its fill and method. */
  predicate LogsMissing(data: Dataset, i: nat, fill: string -> Cell, how: string -> string, e: LogEntry)
    requires i < |data|
  {
    && e.Imputation? && e.row == i + 1
    && !Present(data[i], e.column)
    && e.original == Get(data[i], e.column)
    && e.imputed == fill(e.column)
    && e.how == how(e.column)
  }

  /** An entry of the log of row `i` logs a missing cell of that row. */
  lemma {:induction false} RowLogEntry(data: Dataset, i: nat, headers: seq<string>, fill: string -> Cell, how: string -> string, now: Time, e: LogEntry)
    requires i < |data| && e in RowLog(data[i], i, headers, fill, how, now)
    ensures LogsMissing(data, i, fill, how, e) && e.column in headers && e.time == now
    decreases |headers|
  {
    var front, h := headers[..|headers| - 1], headers[|headers| - 1];
    assert headers == front + [h];
    if e in RowLog(data[i], i, front, fill, how, now) {
      RowLogEntry(data, i, front, fill, how, now, e);
    }
  }

  /** A missing cell of row `i` under `headers` is logged. */
  lemma {:induction false} RowLogHas(data: Dataset, i: nat, headers: seq<string>, fill: string -> Cell, how: string -> string, now: Time, h: string)
    requires i < |data| && h in headers && !Present(data[i], h)
    ensures Imputation(now, h, i + 1, Get(data[i], h), fill(h), how(h)) in RowLog(data[i], i, headers, fill, how, now)
    decreases |headers|
  {
    var front := headers[..|headers| - 1];
    assert headers == front + [headers[|headers| - 1]];
    if h != headers[|headers| - 1] {
      RowLogHas(data, i, front, fill, how, now, h);
    }
  }

  lemma {:induction false} RowLogRows(row: Row, i: nat, headers: seq<string>, fill: string -> Cell, how: string -> string, now: Time)
    ensures forall l :: 0 <= l < |RowLog(row, i, headers, fill, how, now)| ==> RowLog(row, i, headers, fill, how, now)[l].row == i + 1
    decreases |headers|
  {
    if headers != [] {
      RowLogRows(row, i, headers[..|headers| - 1], fill, how, now);
    }
  }

  /**
   * Every entry `process` logs is a missing cell under a header of the first
   * row, with its 1-based row, the original cell, the column's fill and
   * its method.
   */
  lemma ImputationLogSound(data: Dataset, now: Time)
    requires data != []
    ensures forall e :: e in ImputationLog(data, now) ==>
      && e.Imputation? && 1 <= e.row <= |data| && e.column in Headers(data) && e.time == now
      && !Present(data[e.row - 1], e.column)
      && e.original == Get(data[e.row - 1], e.column)
      && e.imputed == ImputeValue(e.column, data)
      && e.how == ImputeMethod(e.column, data)
  {
    forall e | e in ImputationLog(data, now)
      ensures && e.Imputation? && 1 <= e.row <= |data| && e.column in Headers(data) && e.time == now
              && !Present(data[e.row - 1], e.column)
              && e.original == Get(data[e.row - 1], e.column)
              && e.imputed == ImputeValue(e.column, data)
              && e.how == ImputeMethod(e.column, data)
    {
      ImputationLogEntry(data, now, e);
    }
  }

  /** One entry of the imputation log. */
  lemma ImputationLogEntry(data: Dataset, now: Time, e: LogEntry)
    requires data != [] && e in ImputationLog(data, now)
    ensures && e.Imputation? && 1 <= e.row <= |data| && e.column in Headers(data) && e.time == now
            && !Present(data[e.row - 1], e.column)
            && e.original == Get(data[e.row - 1], e.column)
            && e.imputed == ImputeValue(e.column, data)
            && e.how == ImputeMethod(e.column, data)
  {
    var i := ImputationLogRow(data, now, e);
    RowLogEntry(data, i, Headers(data), Fills(data), Methods(data), now, e);
  }

  /** The row whose log holds an entry of the imputation log. */
  lemma ImputationLogRow(data: Dataset, now: Time, e: LogEntry) returns (i: nat)
    requires data != [] && e in ImputationLog(data, now)
    ensures i < |data| && e in RowLog(data[i], i, Headers(data), Fills(data), Methods(data), now)
  {
    i := FlattenWhich(RowLogs(data, Headers(data), Fills(data), Methods(data), now), e);
  }

  /** Every missing cell under a header of the first row is logged. */
  lemma ImputationLogComplete(data: Dataset, now: Time)
    requires data != []
    ensures forall i, h :: 0 <= i < |data| && h in Headers(data) && !Present(data[i], h) ==>
      Imputation(now, h, i + 1, Get(data[i], h), ImputeValue(h, data), ImputeMethod(h, data)) in ImputationLog(data, now)
  {
    var fill, how := Fills(data), Methods(data);
    forall i, h | 0 <= i < |data| && h in Headers(data) && !Present(data[i], h)
      ensures Imputation(now, h, i + 1, Get(data[i], h), ImputeValue(h, data), ImputeMethod(h, data)) in ImputationLog(data, now)
    {
      RowLogHas(data, i, Headers(data), fill, how, now, h);
      assert fill(h) == ImputeValue(h, data) && how(h) == ImputeMethod(h, data);
      FlattenHas(RowLogs(data, Headers(data), Fills(data), Methods(data), now), i, Imputation(now, h, i + 1, Get(data[i], h), fill(h), how(h)));
    }
  }

  /**
   * The log of one row lists its missing cells in the order of their
   * headers in `all`, each at most once.
   */
  lemma {:induction false} RowLogOrdered(row: Row, i: nat, all: seq<string>, j: nat, fill: string -> Cell, how: string -> string, now: Time)
    requires Distinct(all) && j <= |all|
    ensures forall k, l :: 0 <= k < l < |RowLog(row, i, all[..j], fill, how, now)| ==>
      ColumnPosition(all)(RowLog(row, i, all[..j], fill, how, now)[k]) < ColumnPosition(all)(RowLog(row, i, all[..j], fill, how, now)[l])
  {
    if j > 0 {
      RowLogOrdered(row, i, all, j - 1, fill, how, now);
      RowLogStep(row, i, all, j - 1, fill, how, now);
      RowLogBelow(row, i, all, j - 1, fill, how, now);
      PositionDistinct(all, j - 1);
      var a := RowLog(row, i, all[..j - 1], fill, how, now);
      var b := if Present(row, all[j - 1]) then []
        else [Imputation(now, all[j - 1], i + 1, Get(row, all[j - 1]), fill(all[j - 1]), how(all[j - 1]))];
      AppendIncreasing(a, b, ColumnPosition(all));
    }
  }

  /** The entries of the log of `all[..j]` have columns among the first `j` of `all`. */
  lemma {:induction false} RowLogBelow(row: Row, i: nat, all: seq<string>, j: nat, fill: string -> Cell, how: string -> string, now: Time)
    requires Distinct(all) && j <= |all|
    ensures forall k :: 0 <= k < |RowLog(row, i, all[..j], fill, how, now)| ==>
      ColumnPosition(all)(RowLog(row, i, all[..j], fill, how, now)[k]) < j
  {
    if j > 0 {
      RowLogBelow(row, i, all, j - 1, fill, how, now);
      RowLogStep(row, i, all, j - 1, fill, how, now);
      PositionDistinct(all, j - 1);
    }
  }

  /**
   * The log lists the rows in order and, within a row, the missing cells in
   * the order of the headers of the first row; when those headers do not
   * repeat, no entry is listed twice.
   */
  lemma ImputationLogOrdered(data: Dataset, now: Time)
    ensures forall k, l :: 0 <= k < l < |ImputationLog(data, now)| ==>
      ImputationLog(data, now)[k].row <= ImputationLog(data, now)[l].row
    ensures data != [] && Distinct(Headers(data)) ==>
      forall k, l :: 0 <= k < l < |ImputationLog(data, now)| ==>
        var a, b := ImputationLog(data, now)[k], ImputationLog(data, now)[l];
        a.row < b.row || (a.row == b.row && Position(Headers(data), a.column) < Position(Headers(data), b.column))
  {
    if data != [] {
      var logs := RowLogs(data, Headers(data), Fills(data), Methods(data), now);
      forall i | 0 <= i < |logs|
        ensures forall l :: 0 <= l < |logs[i]| ==> RowIndex(logs[i][l]) == i
      {
        RowLogRows(data[i], i, Headers(data), Fills(data), Methods(data), now);
      }
      if Distinct(Headers(data)) {
        ImputationLogLex(data, now);
      } else {
        FlattenOrdered(logs, RowIndex);
      }
    }
  }

  lemma ImputationLogLex(data: Dataset, now: Time)
    requires data != [] && Distinct(Headers(data))
    requires forall i, l :: 0 <= i < |data| && 0 <= l < |RowLogs(data, Headers(data), Fills(data), Methods(data), now)[i]| ==>
      RowIndex(RowLogs(data, Headers(data), Fills(data), Methods(data), now)[i][l]) == i
    ensures forall k, l :: 0 <= k < l < |ImputationLog(data, now)| ==>
      LexLess(RowIndex, ColumnPosition(Headers(data)), ImputationLog(data, now)[k], ImputationLog(data, now)[l])
  {
    var hs := Headers(data);
    var logs := RowLogs(data, hs, Fills(data), Methods(data), now);
    forall i | 0 <= i < |logs|
      ensures forall k, l :: 0 <= k < l < |logs[i]| ==> ColumnPosition(hs)(logs[i][k]) < ColumnPosition(hs)(logs[i][l])
    {
      assert hs[..|hs|] == hs;
      RowLogOrdered(data[i], i, hs, |hs|, Fills(data), Methods(data), now);
    }
    FlattenLexOrdered(logs, RowIndex, ColumnPosition(hs));
  }

  /**
   * Imputation keeps the rows in order; in each row it keeps every present
   * cell and fills every missing cell under a header of the first row with
   * the value computed from the whole input.
   */
  lemma ImputeSpec(data: Dataset)
    requires data != []
    ensures forall i, h :: 0 <= i < |data| && Present(data[i], h) ==> Get(Impute(data)[i], h) == Get(data[i], h)
    ensures forall i, h :: 0 <= i < |data| && h in Headers(data) && !Present(data[i], h) ==>
      Get(Impute(data)[i], h) == ImputeValue(h, data)
    ensures forall i, h :: 0 <= i < |data| && h !in Headers(data) ==> Get(Impute(data)[i], h) == Get(data[i], h)
  {
    forall i | 0 <= i < |data|
      ensures forall h :: Present(data[i], h) || h !in Headers(data) ==> Get(Impute(data)[i], h) == Get(data[i], h)
      ensures forall h :: h in Headers(data) && !Present(data[i], h) ==> Get(Impute(data)[i], h) == ImputeValue(h, data)
    {
      FillRowFills(data[i], Headers(data), Fills(data));
      FillRowKeeps(data[i], Headers(data), Fills(data));
    }
  }

  /** A column whose imputed value is itself filled has no missing cell afterwards. */
  lemma ImputeCompletesColumn(data: Dataset, h: string)
    requires data != [] && h in Headers(data) && Filled(ImputeValue(h, data))
    ensures forall i :: 0 <= i < |data| ==> Present(Impute(data)[i], h)
  {
    ImputeSpec(data);
  }

  /** The imputer object and the log it keeps across calls. */
  class MissingValueImputer {
    var imputationLog: seq<LogEntry>

    constructor ()
      ensures imputationLog == []
    {
      imputationLog := [];
    }

    /**
     * `process`: the rows with their missing cells filled, and one log
     * entry per fill appended to the log, which is never cleared.
     */
    method Process(data: Dataset, now: Time) returns (cleaned: Dataset)
      modifies this
      ensures cleaned == Impute(data)
      ensures imputationLog == old(imputationLog) + ImputationLog(data, now)
    {
      if data == [] {
        return data;
      }
      cleaned := ImputeRows(data, Headers(data), Fills(data), Methods(data), now);
    }

    /**
     * The row loop of `process`: each row with its missing cells under
     * `headers` filled by `fill`, and the rows' log entries appended in order.
     */
    method ImputeRows(data: Dataset, headers: seq<string>, fill: string -> Cell, how: string -> string, now: Time)
      returns (cleaned: Dataset)
      modifies this
      ensures cleaned == FillRows(data, headers, fill)
      ensures imputationLog == old(imputationLog) + Flatten(RowLogs(data, headers, fill, how, now))
    {
      ghost var logs := RowLogs(data, headers, fill, how, now);
      cleaned := [];
      for i := 0 to |data|
        invariant cleaned == FillRows(data[..i], headers, fill)
        invariant imputationLog == old(imputationLog) + Flatten(logs[..i])
      {
        var cleanedRow := ImputeRow(data[i], i, headers, fill, how, now);
        FillRowsStep(data, headers, fill, i);
        FlattenStep(logs, i);
        AppendAssoc(old(imputationLog), Flatten(logs[..i]), logs[i]);
        cleaned := cleaned + [cleanedRow];
      }
      assert logs[..|data|] == logs && data[..|data|] == data;
    }

    /**
     * The body of `process`'s row loop: `row`, the row at 0-based index `i`,
     * with its missing cells under `headers` filled by `fill`, and one entry
     * per fill, with the method `how` names, appended to the log.
     */
    method ImputeRow(row: Row, i: nat, headers: seq<string>, fill: string -> Cell, how: string -> string, now: Time)
      returns (cleanedRow: Row)
      modifies this
      ensures cleanedRow == FillRow(row, headers, fill)
      ensures imputationLog == old(imputationLog) + RowLog(row, i, headers, fill, how, now)
    {
      cleanedRow := row;
      for j := 0 to |headers|
        invariant cleanedRow == FillRow(row, headers[..j], fill)
        invariant imputationLog == old(imputationLog) + RowLog(row, i, headers[..j], fill, how, now)
      {
        var header := headers[j];
        FillRowStep(row, headers, j, fill);
        RowLogStep(row, i, headers, j, fill, how, now);
        ghost var done := RowLog(row, i, headers[..j], fill, how, now);
        var value := Get(row, header);
        if !Filled(value) {
          var imputedValue := fill(header);
          cleanedRow := Put(cleanedRow, header, imputedValue);
          var entry := Imputation(now, header, i + 1, value, imputedValue, how(header));
          AppendAssoc(old(imputationLog), done, [entry]);
          imputationLog := imputationLog + [entry];
        } else {
          assert done + [] == done;
        }
      }
      assert headers[..|headers|] == headers;
    }
  }
}
