/**
 * The data validator: it types every column as numeric, datetime,
 * categorical or unknown, and lists the cells that do not fit their column's
 * type: numbers that do not parse, dates of the wrong shape, and malformed
 * addresses in columns whose name mentions "email".
 */
module Validator {
  import opened Text
  import opened Dicts
  import opened Cells

  datatype ColumnType = Unknown | Numeric | Datetime | Categorical

  /** The names the validator stores in `column_types`. */
  function TypeName(t: ColumnType): string {
    match t
    case Unknown => "unknown"
    case Numeric => "numeric"
    case Datetime => "datetime"
    case Categorical => "categorical"
  }

  /**
   * A validation issue. The validator reports each as a sentence (see
   * `Message`); the model keeps its parts: the offending cell, its column and
   * its 1-based row.
   */
  datatype Issue =
    | NoData
    | CellIssue(problem: Problem, value: Cell, column: string, row: nat)

  datatype Problem = NonNumeric | BadDate | BadEmail

  /** The sentence an issue is reported as; `show` renders a cell as `f"{val}"` does. */
  function Message(issue: Issue, show: Cell -> string): string {
    match issue
    case NoData => "No data or headers to validate"
    case CellIssue(p, v, h, r) =>
      var (what, kind) := match p
        case NonNumeric => ("Non-numeric value '", "numeric")
        case BadDate => ("Invalid date format '", "date")
        case BadEmail => ("Invalid email format '", "email");
      what + show(v) + "' in " + kind + " column '" + h + "' at row " + NatToString(r)
  }

  /** The dictionary `validate_data` returns; `columnTypes` is absent for empty input. */
  datatype ValidationResult = ValidationResult(
    valid: bool,
    issues: seq<Issue>,
    columnTypes: Option<Dict<string, ColumnType>>)

  // ---------------------------------------------------------------- dates

  predicate DigitRun(s: string, lo: nat, hi: nat)
    requires lo <= hi <= |s|
  {
    forall k :: lo <= k < hi ==> IsDigit(s[k])
  }

  /** `\d{4}-\d{2}-\d{2}` over the whole string. */
  predicate IsoDate(s: string) {
    |s| == 10 && DigitRun(s, 0, 4) && s[4] == '-' && DigitRun(s, 5, 7) && s[7] == '-' && DigitRun(s, 8, 10)
  }

  /** `\d{2}/\d{2}/\d{4}` or `\d{2}-\d{2}-\d{4}` (with `sep` the separator) over the whole string. */
  predicate MonthFirstDate(s: string, sep: char) {
    |s| == 10 && DigitRun(s, 0, 2) && s[2] == sep && DigitRun(s, 3, 5) && s[5] == sep && DigitRun(s, 6, 10)
  }

  predicate DateShape(s: string) {
    IsoDate(s) || MonthFirstDate(s, '/') || MonthFirstDate(s, '-')
  }

  /**
   * `_is_valid_date`: one of the three shapes, anchored by `^…$`. Python's `$`
   * also matches just before a final newline, so one trailing "\n" is accepted.
   * Nothing checks that the month or the day is in range.
   */
  predicate IsValidDate(s: string) {
    DateShape(s) || (|s| == 11 && s[10] == '\n' && DateShape(s[..10]))
  }

  // --------------------------------------------------------------- emails

  predicate LocalChar(c: char) {
    IsLetter(c) || IsDigit(c) || c == '.' || c == '_' || c == '%' || c == '+' || c == '-'
  }

  predicate DomainChar(c: char) {
    IsLetter(c) || IsDigit(c) || c == '.' || c == '-'
  }

  predicate AllLocal(s: string) {
    forall k :: 0 <= k < |s| ==> LocalChar(s[k])
  }

  predicate AllDomain(s: string) {
    forall k :: 0 <= k < |s| ==> DomainChar(s[k])
  }

  predicate AllLetters(s: string) {
    forall k :: 0 <= k < |s| ==> IsLetter(s[k])
  }

  /**
   * `s` splits as `[a-zA-Z0-9._%+-]+ @ [a-zA-Z0-9.-]+ \. [a-zA-Z]{2,}` with the
   * '@' at `i` and the final '.' at `j`.
   */
  ghost predicate EmailSplit(s: string, i: int, j: int) {
    && 0 < i && i + 1 < j && j + 2 < |s|
    && s[i] == '@' && s[j] == '.'
    && AllLocal(s[..i]) && AllDomain(s[i + 1..j]) && AllLetters(s[j + 1..])
  }

  /** The language of the email pattern, matched against the whole of `s`. */
  ghost predicate InEmailLanguage(s: string) {
    exists i, j :: EmailSplit(s, i, j)
  }

  /** The position of the last `c` in `s`, or -1. */
  function LastIndexOf(s: string, c: char): (k: int)
    ensures -1 <= k < |s|
    ensures k >= 0 ==> s[k] == c
    ensures forall i :: k < i < |s| ==> s[i] != c
  {
    if s == [] then -1
    else if s[|s| - 1] == c then |s| - 1
    else LastIndexOf(s[..|s| - 1], c)
  }

  /**
   * The email pattern decided directly: the '@' can only be the first one,
   * since no part admits a second, and the dot before the letters can only be
   * the last one, since the letters admit none.
   */
  predicate EmailShape(s: string) {
    var i := FirstIndexOf(s, '@', '@');
    var j := LastIndexOf(s, '.');
    && 0 < i < |s| && i + 1 < j && j + 2 < |s|
    && AllLocal(s[..i]) && AllDomain(s[i + 1..j]) && AllLetters(s[j + 1..])
  }

  /** The direct decision agrees with the pattern's language, both ways. */
  lemma EmailShapeIff(s: string)
    ensures EmailShape(s) <==> InEmailLanguage(s)
  {
    var i := FirstIndexOf(s, '@', '@');
    var j := LastIndexOf(s, '.');
    if EmailShape(s) {
      assert EmailSplit(s, i, j);
    }
    if InEmailLanguage(s) {
      var a, b :| EmailSplit(s, a, b);
      assert i == a;
      assert b == j;
    }
  }

  /** `_is_valid_email`, with the same allowance for one final newline as dates. */
  predicate IsValidEmail(s: string) {
    EmailShape(s) || (|s| > 0 && s[|s| - 1] == '\n' && EmailShape(s[..|s| - 1]))
  }

  /** Whether the column name asks for the email check: `'email' in header.lower()`. */
  predicate IsEmailColumn(header: string) {
    HasInfix(Lower(header), "email")
  }

  // ------------------------------------------------------- classification

  /**
   * The tests on the stripped text of a filled cell, as the ratio loops make
   * them. A number's text is a float literal, which is never a date.
   */
  predicate NumericText(c: Cell) {
    match c
    case Str(s) => ParseNum(Trim(s)).Some?
    case Num(_) => true
    case Null => false
  }

  predicate DateText(c: Cell) {
    c.Str? && IsValidDate(Trim(c.s))
  }

  /** The tests on the cell as it is, as the issue loops make them. */
  predicate DateCell(c: Cell) {
    c.Str? && IsValidDate(c.s)
  }

  predicate EmailCell(c: Cell) {
    c.Str? && IsValidEmail(c.s)
  }

  /** The number of cells that satisfy `p`. */
  function CountWhere(p: Cell -> bool, cells: seq<Cell>): (n: nat)
    ensures n <= |cells|
  {
    if cells == [] then 0
    else CountWhere(p, cells[..|cells| - 1]) + (if p(cells[|cells| - 1]) then 1 else 0)
  }

  /**
   * The type `_analyze_column` gives a column: unknown without filled cells,
   * then numeric, then datetime when more than 80% of the filled cells pass,
   * else categorical. `5 * count > 4 * n` is `count / n > 0.8` in integers.
   */
  function Classify(column: seq<Cell>): ColumnType {
    var ne := NonEmpty(column);
    if ne == [] then Unknown
    else if 5 * CountWhere(NumericText, ne) > 4 * |ne| then Numeric
    else if 5 * CountWhere(DateText, ne) > 4 * |ne| then Datetime
    else Categorical
  }

  // ---------------------------------------------------------------- issues

  /** The tests of the three issue loops: a filled cell that fails its column's test. */
  predicate NotNumeric(c: Cell) {
    Filled(c) && ParseCell(c).None?
  }

  predicate NotDate(c: Cell) {
    Filled(c) && !DateCell(c)
  }

  predicate NotEmail(c: Cell) {
    Filled(c) && !EmailCell(c)
  }

  /**
   * An issue loop: one `problem` issue for each cell that `flag` accepts,
   * carrying the cell, the column name and the cell's 1-based row.
   */
  function Reported(flag: Cell -> bool, problem: Problem, header: string, column: seq<Cell>): (xs: seq<Issue>)
    ensures |xs| <= |column|
    decreases |column|
  {
    if column == [] then []
    else
      var n := |column|;
      var xs := Reported(flag, problem, header, column[..n - 1]);
      if flag(column[n - 1]) then xs + [CellIssue(problem, column[n - 1], header, n)] else xs
  }

  /** The row an issue is about; the empty-input issue has none. */
  function RowOf(x: Issue): nat {
    if x.NoData? then 0 else x.row
  }

  /** A well-placed issue: the cell at 1-based `row`, which `flag` accepts. */
  predicate IssueAt(flag: Cell -> bool, problem: Problem, header: string, column: seq<Cell>, x: Issue) {
    && x.CellIssue? && x.problem == problem && x.column == header
    && 1 <= x.row <= |column| && x.value == column[x.row - 1] && flag(x.value)
  }

  lemma ReportedSnoc(flag: Cell -> bool, problem: Problem, header: string, column: seq<Cell>)
    requires column != []
    ensures Reported(flag, problem, header, column) == Reported(flag, problem, header, column[..|column| - 1]) +
      (if flag(column[|column| - 1]) then [CellIssue(problem, column[|column| - 1], header, |column|)] else [])
  {
  }

  /** Every reported issue is an accepted cell, carrying its 1-based row. */
  lemma {:induction false} ReportedSound(flag: Cell -> bool, problem: Problem, header: string, column: seq<Cell>)
    ensures forall x :: x in Reported(flag, problem, header, column) ==> IssueAt(flag, problem, header, column, x)
    decreases |column|
  {
    if column != [] {
      var front := column[..|column| - 1];
      ReportedSound(flag, problem, header, front);
      ReportedSnoc(flag, problem, header, column);
      forall x | x in Reported(flag, problem, header, front) ensures IssueAt(flag, problem, header, column, x) {
        assert IssueAt(flag, problem, header, front, x);
        assert column[x.row - 1] == front[x.row - 1];
      }
    }
  }

  /** Every accepted cell is reported, with its 1-based position in the whole column, blank cells included. */
  lemma {:induction false} ReportedComplete(flag: Cell -> bool, problem: Problem, header: string, column: seq<Cell>)
    ensures forall i :: 0 <= i < |column| && flag(column[i]) ==>
      CellIssue(problem, column[i], header, i + 1) in Reported(flag, problem, header, column)
    decreases |column|
  {
    if column != [] {
      var front := column[..|column| - 1];
      ReportedComplete(flag, problem, header, front);
      ReportedSnoc(flag, problem, header, column);
      forall i | 0 <= i < |front| && flag(column[i])
        ensures CellIssue(problem, column[i], header, i + 1) in Reported(flag, problem, header, column)
      {
        assert column[i] == front[i];
      }
    }
  }

  /** Reported issues come in strictly increasing row order. */
  lemma {:induction false} ReportedOrdered(flag: Cell -> bool, problem: Problem, header: string, column: seq<Cell>)
    ensures forall k, l :: 0 <= k < l < |Reported(flag, problem, header, column)| ==>
      RowOf(Reported(flag, problem, header, column)[k]) < RowOf(Reported(flag, problem, header, column)[l])
    decreases |column|
  {
    if column != [] {
      var front := column[..|column| - 1];
      ReportedOrdered(flag, problem, header, front);
      ReportedSound(flag, problem, header, front);
      ReportedSnoc(flag, problem, header, column);
      var xs := Reported(flag, problem, header, front);
      forall k | 0 <= k < |xs| ensures RowOf(xs[k]) < |column| {
        assert IssueAt(flag, problem, header, front, xs[k]);
      }
    }
  }

  /** Nothing is reported exactly when no cell is accepted. */
  lemma ReportedEmpty(flag: Cell -> bool, problem: Problem, header: string, column: seq<Cell>)
    ensures Reported(flag, problem, header, column) == [] <==> forall i :: 0 <= i < |column| ==> !flag(column[i])
  {
    ReportedSound(flag, problem, header, column);
    ReportedComplete(flag, problem, header, column);
    var xs := Reported(flag, problem, header, column);
    if xs != [] {
      assert IssueAt(flag, problem, header, column, xs[0]);
    }
  }

  /**
   * The issues of column `header` typed `t`: the numeric, date or email
   * loop, or none. The email loop runs only when the name mentions "email".
   */
  function IssuesOf(t: ColumnType, header: string, column: seq<Cell>): seq<Issue> {
    match t
    case Unknown => []
    case Numeric => Reported(NotNumeric, NonNumeric, header, column)
    case Datetime => Reported(NotDate, BadDate, header, column)
    case Categorical => if IsEmailColumn(header) then Reported(NotEmail, BadEmail, header, column) else []
  }

  function ColumnIssues(header: string, column: seq<Cell>): seq<Issue> {
    IssuesOf(Classify(column), header, column)
  }

  /** The issues of the columns `headers`, column after column. */
  function AllIssues(data: Dataset, headers: seq<string>): seq<Issue> {
    ConcatMap(h => ColumnIssues(h, Column(data, h)), headers)
  }

  /** The `column_types` mapping after the columns `headers`. */
  function AllTypes(data: Dataset, headers: seq<string>): (m: Dict<string, ColumnType>)
    decreases |headers|
  {
    if headers == [] then Empty()
    else
      var h := headers[|headers| - 1];
      Put(AllTypes(data, headers[..|headers| - 1]), h, Classify(Column(data, h)))
  }

  /** `validate_data`, as a function of its arguments. */
  function Validate(data: Dataset, headers: seq<string>): (r: ValidationResult)
    ensures r.valid <==> r.issues == []
    ensures r.columnTypes.None? <==> data == [] || headers == []
    ensures data == [] || headers == [] ==> r.issues == [NoData]
  {
    if data == [] || headers == [] then ValidationResult(false, [NoData], None)
    else
      var issues := AllIssues(data, headers);
      ValidationResult(issues == [], issues, Some(AllTypes(data, headers)))
  }

  // ----------------------------------------------------------------- lemmas

  /** Every header gets the type of its own column, and no other key appears. */
  lemma {:induction false} AllTypesClassify(data: Dataset, headers: seq<string>)
    ensures forall h :: h in AllTypes(data, headers).entries <==> h in headers
    ensures forall h :: h in AllTypes(data, headers).entries ==>
      AllTypes(data, headers).entries[h] == Classify(Column(data, h))
    decreases |headers|
  {
    if headers != [] {
      var front := headers[..|headers| - 1];
      AllTypesClassify(data, front);
      assert headers == front + [headers[|headers| - 1]];
    }
  }

  /** A column without filled cells is unknown and has no issues. */
  lemma BlankColumnUnknown(header: string, column: seq<Cell>)
    requires forall i :: 0 <= i < |column| ==> !Filled(column[i])
    ensures Classify(column) == Unknown && ColumnIssues(header, column) == []
  {
    NonEmptyNone(column);
  }

  /**
   * When an issue loop's test is the opposite of a ratio loop's test on
   * filled cells, the issues and the passing filled cells together are all
   * the filled cells.
   */
  lemma {:induction false} ReportedCount(flag: Cell -> bool, pass: Cell -> bool, problem: Problem, header: string, column: seq<Cell>)
    requires forall c :: flag(c) ==> Filled(c)
    requires forall c :: Filled(c) ==> (pass(c) <==> !flag(c))
    ensures |Reported(flag, problem, header, column)| + CountWhere(pass, NonEmpty(column)) == |NonEmpty(column)|
    decreases |column|
  {
    if column != [] {
      var n := |column|;
      var front := column[..n - 1];
      var c := column[n - 1];
      ReportedCount(flag, pass, problem, header, front);
      assert column == front + [c];
      NonEmptySnoc(front, c);
      ReportedSnoc(flag, problem, header, column);
      var ne := NonEmpty(front);
      if Filled(c) {
        assert (ne + [c])[..|ne|] == ne;
      }
    }
  }

  /**
   * The numeric issue loop and the numeric ratio agree: the loop tests the
   * raw cell, the ratio its stripped text, and `float` ignores surrounding
   * white space.
   */
  lemma NumericIssuesCount(header: string, column: seq<Cell>)
    ensures |Reported(NotNumeric, NonNumeric, header, column)| + CountWhere(NumericText, NonEmpty(column)) == |NonEmpty(column)|
  {
    forall c | Filled(c) ensures NumericText(c) <==> !NotNumeric(c) {
      NumericTextAgrees(c);
    }
    ReportedCount(NotNumeric, NumericText, NonNumeric, header, column);
  }

  /** On a filled cell the ratio's test and the issue loop's test are opposites. */
  lemma NumericTextAgrees(c: Cell)
    requires Filled(c)
    ensures NumericText(c) <==> !NotNumeric(c)
  {
    if c.Str? {
      TrimIdempotent(c.s);
    }
  }

  /** A numeric column has fewer issues than a fifth of its filled cells. */
  lemma NumericColumnFewIssues(header: string, column: seq<Cell>)
    requires Classify(column) == Numeric
    ensures 5 * |ColumnIssues(header, column)| < |NonEmpty(column)|
  {
    NumericIssuesCount(header, column);
  }

  /**
   * In a numeric column the issues are exactly the filled cells that do not
   * parse, each once, with its 1-based row over the whole column, in row order.
   */
  lemma NumericColumnIssues(header: string, column: seq<Cell>)
    requires Classify(column) == Numeric
    ensures forall x :: x in ColumnIssues(header, column) ==>
      && x.CellIssue? && x.problem == NonNumeric && x.column == header
      && 1 <= x.row <= |column| && x.value == column[x.row - 1]
      && Filled(x.value) && ParseCell(x.value).None?
    ensures forall i :: 0 <= i < |column| && Filled(column[i]) && ParseCell(column[i]).None? ==>
      CellIssue(NonNumeric, column[i], header, i + 1) in ColumnIssues(header, column)
    ensures forall k, l :: 0 <= k < l < |ColumnIssues(header, column)| ==>
      RowOf(ColumnIssues(header, column)[k]) < RowOf(ColumnIssues(header, column)[l])
  {
    ReportedSound(NotNumeric, NonNumeric, header, column);
    ReportedComplete(NotNumeric, NonNumeric, header, column);
    ReportedOrdered(NotNumeric, NonNumeric, header, column);
  }

  /** The issues of one more column follow those of the columns before it. */
  lemma AllIssuesSnoc(data: Dataset, headers: seq<string>, h: string)
    ensures AllIssues(data, headers + [h]) == AllIssues(data, headers) + ColumnIssues(h, Column(data, h))
  {
    ConcatMapSnoc(h => ColumnIssues(h, Column(data, h)), headers, h);
  }

  /** Every issue of one column is about that column and has the problem of the column's type. */
  lemma ColumnIssuesProblem(header: string, column: seq<Cell>)
    ensures forall x :: x in ColumnIssues(header, column) ==>
      && x.CellIssue? && x.column == header && 1 <= x.row <= |column|
      && (x.problem == NonNumeric <==> Classify(column) == Numeric)
      && (x.problem == BadDate <==> Classify(column) == Datetime)
      && (x.problem == BadEmail <==> Classify(column) == Categorical && IsEmailColumn(header))
  {
    ReportedSound(NotNumeric, NonNumeric, header, column);
    ReportedSound(NotDate, BadDate, header, column);
    ReportedSound(NotEmail, BadEmail, header, column);
  }

  /**
   * An issue of `data` names a column, a row of the data, and, if it is an
   * email issue, a categorical column whose name contains "email".
   */
  predicate Sourced(data: Dataset, headers: seq<string>, x: Issue) {
    && x.CellIssue? && x.column in headers && 1 <= x.row <= |data|
    && (x.problem == BadEmail ==> Classify(Column(data, x.column)) == Categorical && IsEmailColumn(x.column))
  }

  lemma ColumnIssuesSourced(data: Dataset, headers: seq<string>, h: string)
    requires h in headers
    ensures forall x :: x in ColumnIssues(h, Column(data, h)) ==> Sourced(data, headers, x)
  {
    ColumnIssuesProblem(h, Column(data, h));
  }

  /**
   * Email issues come only from categorical columns whose name contains
   * "email" ignoring case; numeric and datetime columns never produce them.
   */
  lemma EmailIssuesOnlyCategorical(data: Dataset, headers: seq<string>)
    ensures forall x :: x in AllIssues(data, headers) ==> Sourced(data, headers, x)
  {
    var f := h => ColumnIssues(h, Column(data, h));
    forall h, x | h in headers && x in f(h) ensures Sourced(data, headers, x) {
      ColumnIssuesSourced(data, headers, h);
    }
    ConcatMapAll(f, x => Sourced(data, headers, x), headers);
  }

  // ------------------------------------------------------------------ class

  /** The validator object, with the results of its last run. */
  class DataValidator {
    var validationIssues: seq<Issue>
    var columnTypes: Dict<string, ColumnType>

    constructor ()
      ensures validationIssues == [] && columnTypes == Empty()
    {
      validationIssues := [];
      columnTypes := Empty();
    }

    /** `validate_data`: both fields start afresh and then hold this run's findings. */
    method ValidateData(data: Dataset, headers: seq<string>) returns (r: ValidationResult)
      modifies this
      ensures r == Validate(data, headers)
      ensures validationIssues == r.issues
      ensures columnTypes == (if data == [] || headers == [] then Empty() else AllTypes(data, headers))
    {
      validationIssues := [];
      columnTypes := Empty();
      if data == [] || headers == [] {
        validationIssues := validationIssues + [NoData];
        return ValidationResult(false, validationIssues, None);
      }
      for k := 0 to |headers|
        invariant validationIssues == AllIssues(data, headers[..k])
        invariant columnTypes == AllTypes(data, headers[..k])
      {
        var header := headers[k];
        assert headers[..k + 1] == headers[..k] + [header];
        AllIssuesSnoc(data, headers[..k], header);
        var columnData := ColumnOf(data, header);
        AnalyzeColumn(header, columnData);
      }
      assert headers[..|headers|] == headers;
      r := ValidationResult(|validationIssues| == 0, validationIssues, Some(columnTypes));
    }

    /** `[row.get(header, '') for row in data]`. */
    static method ColumnOf(data: Dataset, header: string) returns (column: seq<Cell>)
      ensures column == Column(data, header)
    {
      column := [];
      for i := 0 to |data|
        invariant column == Column(data[..i], header)
      {
        column := column + [Get(data[i], header)];
      }
      assert data[..|data|] == data;
    }

    /** The comprehension that keeps the filled cells of a column. */
    static method FilledCells(column: seq<Cell>) returns (nonEmpty: seq<Cell>)
      ensures nonEmpty == NonEmpty(column)
    {
      nonEmpty := [];
      for i := 0 to |column|
        invariant nonEmpty == NonEmpty(column[..i])
      {
        assert column[..i + 1] == column[..i] + [column[i]];
        NonEmptySnoc(column[..i], column[i]);
        if Filled(column[i]) {
          nonEmpty := nonEmpty + [column[i]];
        }
      }
      assert column[..|column|] == column;
    }

    /** A ratio loop: the number of cells that pass `p`. */
    static method CountCells(p: Cell -> bool, cells: seq<Cell>) returns (count: nat)
      ensures count == CountWhere(p, cells)
    {
      count := 0;
      for i := 0 to |cells|
        invariant count == CountWhere(p, cells[..i])
      {
        assert cells[..i + 1][..i] == cells[..i];
        if p(cells[i]) {
          count := count + 1;
        }
      }
      assert cells[..|cells|] == cells;
    }

    /** `_analyze_column`: records the column's type and appends its issues. */
    method AnalyzeColumn(header: string, column: seq<Cell>)
      modifies this
      ensures columnTypes == Put(old(columnTypes), header, Classify(column))
      ensures validationIssues == old(validationIssues) + ColumnIssues(header, column)
    {
      var nonEmpty := FilledCells(column);
      if nonEmpty == [] {
        columnTypes := Put(columnTypes, header, Unknown);
        return;
      }
      var numericCount := CountCells(NumericText, nonEmpty);
      if 5 * numericCount > 4 * |nonEmpty| {
        columnTypes := Put(columnTypes, header, Numeric);
        ReportFlagged(NotNumeric, NonNumeric, header, column);
        return;
      }
      var dateCount := CountCells(DateText, nonEmpty);
      if 5 * dateCount > 4 * |nonEmpty| {
        columnTypes := Put(columnTypes, header, Datetime);
        ReportFlagged(NotDate, BadDate, header, column);
      } else {
        columnTypes := Put(columnTypes, header, Categorical);
        if IsEmailColumn(header) {
          ReportFlagged(NotEmail, BadEmail, header, column);
        }
      }
    }

    /** One issue loop: every cell that `flag` accepts is reported with its 1-based row. */
    method ReportFlagged(flag: Cell -> bool, problem: Problem, header: string, column: seq<Cell>)
      modifies this
      ensures columnTypes == old(columnTypes)
      ensures validationIssues == old(validationIssues) + Reported(flag, problem, header, column)
    {
      for i := 0 to |column|
        invariant columnTypes == old(columnTypes)
        invariant validationIssues == old(validationIssues) + Reported(flag, problem, header, column[..i])
      {
        assert column[..i + 1][..i] == column[..i];
        var val := column[i];
        if flag(val) {
          validationIssues := validationIssues + [CellIssue(problem, val, header, i + 1)];
        }
      }
      assert column[..|column|] == column;
    }
  }
}
