# CSV data cleaner: the five data processors

The CSV data cleaner and validator loads a CSV file into a dataset. A dataset
is a list of rows, and each row maps a column name to a cell. Five processors
then act on it:

- **DataValidator** gives each column a type: `unknown`, `numeric`,
  `datetime` or `categorical`. It also lists the cells that do not fit that
  type. These are text that does not parse in a numeric column, a bad date in
  a date column, and a bad address in a categorical column whose header
  contains `email`. Each issue carries the cell's 1-based row.
- **MissingValueImputer** copies the rows and fills every missing cell under
  the first row's headers. A column with a parseable value gets the median of
  the parsed values. Any other column gets the most frequent value, ties going
  to the value seen first. A column with no values gets `''`. Every fill
  appends one entry to a log that grows from call to call.
- **OutlierRemover** looks at the columns where more than half of the rows
  hold a number. It flags values by z-score, or by the IQR rule with
  quartiles taken at positions `n/4` and `3n/4` of the sorted values. It then
  drops every row whose 1-based number appears anywhere in its accumulated
  log.
- **Normalizer** works on the same qualifying columns. It rescales their
  numbers in place, by min-max or by z-score. It skips a column with fewer
  than two numbers or whose numbers are all equal. It logs every rescaled
  cell and records the parameters per column.
- **ReportGenerator.generate_report** renders the report. Its sections come
  in this order:
  - the counts of rows;
  - the validation issues;
  - the column types;
  - one tally per log, listing its methods in first-occurrence order;
  - every log entry, merged and stable-sorted by time stamp;
  - the closing rule.

## Modules

- `Text`, `Dicts`, `Cells`, `Stats` and `Logs` hold the shared vocabulary:
  - string trimming and casing;
  - insertion-ordered dictionaries (`Dict`, with `keys` in insertion order);
  - cells, the truthiness test `val and str(val).strip()` (`Filled`,
    `Present`), and number parsing (`ParseNum`);
  - column extraction and the "more than half numeric" rule;
  - mean, variance, sort, median and mode;
  - the log entries.
- `Validator`, `Imputer`, `Outliers`, `Normalizer` and `Report` model one
  source file each.
  - Each processor is a class whose fields the methods update. Each method is
    proved equal to a specification function of the old state and the
    inputs, and the lemmas beside that function state what the source
    promises.
  - The normalizer works on an `array<Row>` in place, as the source does.
- `ValidatorExamples` and `OutliersExamples` apply the model to concrete
  values. Some come from the source's tests: the date and email strings and
  the validator's test data. Others are small illustrative columns, such as
  `29, 32, abc, 28` and the worked IQR column.

Deliberate choices that follow the code:

- A cell is `Str(s)`, `Num(x)` or `Null`. A key absent from a row reads as
  `''`. A cell is missing when it is absent, blank after trimming, or
  `Num(0.0)`, because `0.0` is falsy in Python.
  - After min-max scaling, the column minimum becomes `0.0`. Every later
    stage treats that cell as missing (`MinMaxMinimumBecomesMissing`).
- The date check accepts any three digit shapes, with no range check.
  - `01-04-2023` has the `dd-dd-dddd` shape and is accepted. The code is
    followed here, although tests/test_data_validator.py:77 lists it as
    invalid (`DatesAreShapesOnly`).
  - `$` also matches before one trailing newline, as in Python's `re`.
- "Rows removed" is `len(original) - len(cleaned)`, with no clamping
  (`RowsRemovedNotClamped`).
- The outlier remover filters with the row numbers of the whole accumulated
  log, entries from earlier calls included.

## Model

| member | source | states |
|---|---|---|
| `Validator.Validate` | src/data_processors/data_validator.py:29-45 | `valid` holds exactly when there are no issues; `column_types` is absent exactly when data or headers is empty, and then the issues are the single no-data issue |
| `Validator.AllTypesClassify` | src/data_processors/data_validator.py:37-39 | the types dictionary has exactly the headers as keys, each mapped to the type classified from that header's column |
| `Validator.BlankColumnUnknown` | src/data_processors/data_validator.py:50-54 | a column with no filled cell is typed unknown and yields no issues |
| `Validator.NumericColumnFewIssues` | src/data_processors/data_validator.py:57-77 | in a column classified numeric, fewer than a fifth of the filled cells are reported |
| `Validator.NumericColumnIssues` | src/data_processors/data_validator.py:67-77 | in a numeric column, the issues are exactly the filled unparseable cells, each with its 1-based row over the whole column, in row order |
| `Validator.NumericIssuesCount` | src/data_processors/data_validator.py:57-77 | the non-numeric issues and the numeric count together add up to the number of filled cells |
| `Validator.NumericTextAgrees` | src/data_processors/data_validator.py:57-77 | on a filled cell, the count's parse of the stripped text and the issue loop's parse of the raw value agree |
| `Validator.ColumnIssuesProblem` | src/data_processors/data_validator.py:67-104 | each issue names its column and a row in range; its kind is non-numeric, bad date or bad email exactly when the column is numeric, datetime, or categorical with an email header |
| `Validator.EmailIssuesOnlyCategorical` | src/data_processors/data_validator.py:95-104 | every issue of a run comes from a listed header, and email issues only from categorical columns whose header contains `email` ignoring case |
| `Validator.ColumnIssuesSourced` | src/data_processors/data_validator.py:37-39 | the issues of one listed header's column satisfy the same sourcing condition |
| `Validator.AllIssuesSnoc` | src/data_processors/data_validator.py:37-39 | analysing one more header appends that column's issues after those of the earlier headers |
| `Validator.ReportedSound` | src/data_processors/data_validator.py:70-77 | every reported issue is a flagged cell of the column with its 1-based row |
| `Validator.ReportedComplete` | src/data_processors/data_validator.py:70-77 | every flagged cell is reported with row `i+1` |
| `Validator.ReportedOrdered` | src/data_processors/data_validator.py:70-77 | reported rows strictly increase |
| `Validator.ReportedEmpty` | src/data_processors/data_validator.py:70-77 | nothing is reported exactly when no cell is flagged |
| `Validator.ReportedCount` | src/data_processors/data_validator.py:57-77 | reported cells plus passing cells number the filled cells |
| `Validator.ReportedSnoc` | src/data_processors/data_validator.py:70-77 | one more cell adds at most its own issue, at the end |
| `Validator.Reported` | src/data_processors/data_validator.py:70-77 | no more issues than cells |
| `Validator.CountWhere` | src/data_processors/data_validator.py:57-65 | a count never exceeds the number of cells |
| `Validator.EmailShapeIff` | src/data_processors/data_validator.py:119-122 | the executable email check holds exactly when the address splits as `local@domain.tld`, with `local` over `[A-Za-z0-9._%+-]`, the domain over `[A-Za-z0-9.-]`, and at least two letters after the last dot |
| `Validator.LastIndexOf` | src/data_processors/data_validator.py:121 | the index found holds the character and no later position does |
| `Validator.DataValidator.constructor` | src/data_processors/data_validator.py:14-16 | both fields start empty |
| `Validator.DataValidator.ValidateData` | src/data_processors/data_validator.py:18-45 | returns `Validate(data, headers)`, resets both fields, and leaves in them the issues and the types of this call |
| `Validator.DataValidator.AnalyzeColumn` | src/data_processors/data_validator.py:47-104 | records the column's classified type and appends exactly that column's issues |
| `Validator.DataValidator.ReportFlagged` | src/data_processors/data_validator.py:70-77 | appends the reported issues of one flag and changes no type |
| `Validator.DataValidator.ColumnOf` | src/data_processors/data_validator.py:38 | the column is each row's cell under the header, `''` when absent |
| `Validator.DataValidator.FilledCells` | src/data_processors/data_validator.py:50 | the loop keeps exactly the filled cells, in order |
| `Validator.DataValidator.CountCells` | src/data_processors/data_validator.py:57-63 | the loop counts the cells satisfying the test |
| `ValidatorExamples.DateExamples` | src/data_processors/data_validator.py:106-117 | `2023-04-01`, `04/01/2023` and `04-01-2023` are dates; `2023/04/01` and `not-a-date` are not |
| `ValidatorExamples.DatesAreShapesOnly` | src/data_processors/data_validator.py:106-117 | `01-04-2023`, `99/99/9999` and a date followed by a newline are accepted |
| `ValidatorExamples.ValidBySplit` | src/data_processors/data_validator.py:119-122 | an address with a split of the pattern's shape is valid |
| `ValidatorExamples.AliceValid` | tests/test_data_validator.py:87 | `alice@email.com` is valid |
| `ValidatorExamples.BobValid` | tests/test_data_validator.py:87 | `bob@company.co.uk` is valid |
| `ValidatorExamples.TestUserValid` | tests/test_data_validator.py:87 | `test.user@domain.org` is valid |
| `ValidatorExamples.NoAtInvalid` | src/data_processors/data_validator.py:121 | a string without `@` is no address |
| `ValidatorExamples.NotAnEmailInvalid` | tests/test_data_validator.py:88 | `not-an-email` is invalid |
| `ValidatorExamples.DotsOnlyInvalid` | tests/test_data_validator.py:88 | `alice.email.com` is invalid |
| `ValidatorExamples.EmptyPartsInvalid` | tests/test_data_validator.py:88 | `alice@` and `@email.com` are invalid |
| `ValidatorExamples.DigitsParse` | src/data_processors/data_validator.py:57-63 | a non-empty string of digits parses as a number |
| `ValidatorExamples.LetterStartNoParse` | src/data_processors/data_validator.py:57-63 | a string that starts with a letter does not parse |
| `ValidatorExamples.ShortNotDate` | src/data_processors/data_validator.py:80-83 | a string shorter than ten characters is no date |
| `ValidatorExamples.ClassifyFilled` | src/data_processors/data_validator.py:65-96 | a column of filled cells is numeric when the numeric share is above 0.8, else datetime when the date share is, else categorical |
| `ValidatorExamples.ThreeOfFourNotNumeric` | src/data_processors/data_validator.py:65-96 | three numbers in four filled cells that are no dates make a categorical column |
| `ValidatorExamples.AgesWithTextCategorical` | src/data_processors/data_validator.py:57-96 | the column `29, 32, abc, 28` is categorical |
| `ValidatorExamples.FixtureAgeColumn` | tests/test_data_validator.py:20-28 | the test data's Age column `29, 32, 28, abc, 30, 35` is numeric, and its only issue is `abc`, not numeric, at row 4 |
| `Imputer.ImputeValueSpec` | src/data_processors/missing_value_imputer.py:60-83 | no filled value gives `''`; parseable values give their median, which lies between their minimum and maximum; otherwise the value is the filled text that is the first most frequent one |
| `Imputer.ImputeMethod` | src/data_processors/missing_value_imputer.py:85-103 | the method is `no_data` exactly when there is no filled value, `median` exactly when some value parses, and otherwise `mode` |
| `Imputer.MethodMatchesValue` | src/data_processors/missing_value_imputer.py:60-103 | the method names the branch the value came from: `no_data` with `''`, `median` with a number, `mode` with non-empty text |
| `Imputer.ParsedValuesEmpty` | src/data_processors/missing_value_imputer.py:70-75 | there are no parsed values exactly when no candidate parses |
| `Imputer.Impute` | src/data_processors/missing_value_imputer.py:36-56 | the output has one row per input row |
| `Imputer.ImputeSpec` | src/data_processors/missing_value_imputer.py:36-56 | present cells are copied unchanged; each missing cell under a header of the first row gets that column's value, computed from the input; other columns are unchanged |
| `Imputer.ImputeCompletesColumn` | src/data_processors/missing_value_imputer.py:39-45 | when the imputed value is itself filled, the column has no missing cell afterwards |
| `Imputer.ImputationLogSound` | src/data_processors/missing_value_imputer.py:47-54 | every entry names a missing cell of its 1-based row under a header, its original value, the value and the method of that column, and the call's time |
| `Imputer.ImputationLogComplete` | src/data_processors/missing_value_imputer.py:43-54 | every missing (row, header) pair has its entry, with row `i+1` |
| `Imputer.ImputationLogOrdered` | src/data_processors/missing_value_imputer.py:36-54 | entries come in row order; when the first row's keys do not repeat, they are strictly ordered by row and then by the position of their header among those keys, so no missing cell is logged twice |
| `Imputer.RowLogOrdered` | src/data_processors/missing_value_imputer.py:39-54 | within one row, the entries follow the order of the headers strictly |
| `Imputer.FillRowFills` | src/data_processors/missing_value_imputer.py:41-45 | a missing cell under a header gets the fill |
| `Imputer.FillRowKeeps` | src/data_processors/missing_value_imputer.py:38-45 | present cells and cells outside the headers are unchanged |
| `Imputer.FillRowKeys` | src/data_processors/missing_value_imputer.py:38-45 | the copy has the row's keys and the headers; the row's keys keep their order at the front |
| `Imputer.MissingValueImputer.constructor` | src/data_processors/missing_value_imputer.py:17-18 | the log starts empty |
| `Imputer.MissingValueImputer.Process` | src/data_processors/missing_value_imputer.py:20-58 | returns `Impute(data)` and appends `ImputationLog(data, now)` to the log kept from earlier calls |
| `Imputer.MissingValueImputer.ImputeRows` | src/data_processors/missing_value_imputer.py:36-56 | the loop over rows returns the filled rows and appends their entries in row order |
| `Imputer.MissingValueImputer.ImputeRow` | src/data_processors/missing_value_imputer.py:38-55 | the loop over headers fills one row copy and appends its entries in header order |
| `Cells.Points` | src/data_processors/outlier_remover.py:75-82 | the parseable present cells of a column with their row indexes, in increasing row order |
| `Cells.PointsCoverNumericRows` | src/data_processors/normalizer.py:66-73 | the points cover exactly the rows whose cell is present and parses |
| `Cells.QualifyingColumns` | src/data_processors/outlier_remover.py:44-57 | a header is kept exactly when it qualifies, and there are no more columns than headers |
| `Cells.QualifyingColumnsOrdered` | src/data_processors/outlier_remover.py:44-57 | when the headers do not repeat, the kept headers come in strictly increasing position among the headers |
| `Cells.CountNumeric` | src/data_processors/normalizer.py:46-55 | the loop counts the points, and `2*count > n` holds exactly when the column qualifies |
| `Cells.NumericColumns` | src/data_processors/normalizer.py:44-56 | the loop returns exactly the qualifying columns |
| `Cells.CollectPoints` | src/data_processors/normalizer.py:66-73 | the loop collects exactly the column's points |
| `Outliers.DetectSound` | src/data_processors/outlier_remover.py:103-113 | every entry comes from a flagged point |
| `Outliers.DetectComplete` | src/data_processors/outlier_remover.py:103-113 | every flagged point has its entry |
| `Outliers.DetectOrdered` | src/data_processors/outlier_remover.py:103-113 | points in strictly increasing row order, each entry carrying its point's row, give entries in strictly increasing row order |
| `Outliers.DetectMisses` | src/data_processors/outlier_remover.py:128-138 | one unflagged point makes the log shorter than the points |
| `Outliers.ZScoreLogSpec` | src/data_processors/outlier_remover.py:94-115 | zero standard deviation flags nothing; otherwise the entries are exactly the points whose z-score exceeds the threshold, with 1-based rows; points in increasing row order give entries in strictly increasing row order |
| `Outliers.ZScoreMeaning` | src/data_processors/outlier_remover.py:103-108 | a z-score above the threshold means the squared deviation exceeds threshold squared times the variance |
| `Outliers.ZScoreConstantNone` | src/data_processors/outlier_remover.py:96-100 | a constant column flags nothing |
| `Outliers.IqrBoundsOrder` | src/data_processors/outlier_remover.py:119-125 | both quartiles are values of the column, and the bounds enclose them |
| `Outliers.Widen` | src/data_processors/outlier_remover.py:123-125 | ordered quartiles are enclosed by the bounds |
| `Outliers.IqrLogSpec` | src/data_processors/outlier_remover.py:117-140 | the entries are exactly the points strictly outside the bounds, with the bounds and 1-based rows; points in increasing row order give entries in strictly increasing row order |
| `Outliers.IqrLogMisses` | src/data_processors/outlier_remover.py:117-140 | the IQR rule never flags every point |
| `Outliers.DetectedSpec` | src/data_processors/outlier_remover.py:73-92 | every detection of a column names that column and a 1-based row whose cell is a number, and the detections come in strictly increasing row order |
| `Outliers.OutlierLogSpec` | src/data_processors/outlier_remover.py:38-62 | empty input logs nothing; otherwise the log holds exactly the detections of the qualifying columns and, when the first row's keys do not repeat, lists them column by column in the order of the qualifying columns (header order, by `QualifyingColumnsOrdered`) and row by row within a column |
| `Outliers.KeptIndexes` | src/data_processors/outlier_remover.py:69 | kept indexes increase, are not in the row set, and every unlisted row is kept |
| `Outliers.KeepRowsSpec` | src/data_processors/outlier_remover.py:69 | the output is no longer than the input, keeps every unlisted row, and is the input when no row is listed |
| `Outliers.KeptAll` | src/data_processors/outlier_remover.py:69 | with no row listed, every index is kept in place |
| `Outliers.OutlierRows` | src/data_processors/outlier_remover.py:65-67 | the loop collects the 1-based rows of the log |
| `Outliers.DropRows` | src/data_processors/outlier_remover.py:69 | the loop keeps exactly the unlisted rows |
| `Outliers.OutlierRemover.constructor` | src/data_processors/outlier_remover.py:16-26 | method and threshold as given, by default `zscore` and 2.0, and an empty log |
| `Outliers.OutlierRemover.Process` | src/data_processors/outlier_remover.py:28-71 | appends the entries of this call's qualifying columns to the log, then keeps exactly the rows not named anywhere in the whole log |
| `Outliers.OutlierRemover.DetectAll` | src/data_processors/outlier_remover.py:59-62 | appends each column's entries in column order |
| `Outliers.OutlierRemover.DetectOutliers` | src/data_processors/outlier_remover.py:73-92 | fewer than three points give nothing; `zscore` gives the z-score log and anything else the IQR log |
| `Outliers.OutlierRemover.ZscoreOutliers` | src/data_processors/outlier_remover.py:94-115 | the loop returns the z-score log |
| `Outliers.OutlierRemover.IqrOutliers` | src/data_processors/outlier_remover.py:117-140 | the loop returns the IQR log |
| `OutliersExamples.SortIs` | src/data_processors/outlier_remover.py:119 | a sorted rearrangement of a column is its sort |
| `OutliersExamples.SampleSorts` | src/data_processors/outlier_remover.py:119 | the column `10, 12, 12, 13, 12, 11, 14, 13, 15, 102` sorts to a sequence with 12 at position 2 and 14 at position 7 |
| `OutliersExamples.IqrWorkedExample` | src/data_processors/outlier_remover.py:119-138 | for that column the bounds are 9 and 17, and only the value 102 lies outside them |
| `OutliersExamples.DefaultRemovers` | src/cli.py:21 | a remover built with no arguments uses `zscore` and 2.0; naming only the method keeps the threshold 2.0 |
| `Normalizer.ColumnScaling` | src/data_processors/normalizer.py:75-134 | a column gets usable parameters only with at least two points, and min-max parameters exactly for `minmax` |
| `Normalizer.SkippedIffConstant` | src/data_processors/normalizer.py:75-113 | a column is skipped exactly when it has fewer than two points or all its values are equal |
| `Normalizer.UnscaleRescale` | src/data_processors/normalizer.py:89-117 | rescaling can be undone from the recorded parameters |
| `Normalizer.RescaleUnscale` | src/data_processors/normalizer.py:89-117 | each scaled value is the image of exactly one original value |
| `Normalizer.MinMaxRange` | src/data_processors/normalizer.py:80-89 | min-max values lie in [0, 1], and some point maps to 0 and some to 1 |
| `Normalizer.RescaleKeepsOrder` | src/data_processors/normalizer.py:87-128 | rescaling keeps the order of the values |
| `Normalizer.StandardizedSumZero` | src/data_processors/normalizer.py:108-128 | standardized values sum to zero |
| `Normalizer.NormalizedColumn` | src/data_processors/normalizer.py:64-134 | same rows, same keys in each row, other columns unchanged |
| `Normalizer.NormalizedColumnCell` | src/data_processors/normalizer.py:87-128 | each cell of the column becomes its normalized value |
| `Normalizer.MinMaxMinimumBecomesMissing` | src/data_processors/normalizer.py:88-89 | the cell holding the column minimum becomes `0.0`, which every stage reads as missing |
| `Normalizer.NormalizedCellSameColumn` | src/data_processors/normalizer.py:66-134 | a column's result depends only on that column |
| `Normalizer.SkippedColumnUnchanged` | src/data_processors/normalizer.py:75-113 | a skipped column leaves the data unchanged and logs nothing |
| `Normalizer.ColumnLogSound` | src/data_processors/normalizer.py:91-128 | each entry names a rescaled row (1-based), its source value and the value the cell now holds, and the method used |
| `Normalizer.ColumnLogComplete` | src/data_processors/normalizer.py:87-128 | every numeric cell of a scaled column has its entry |
| `Normalizer.ColumnParams` | src/data_processors/normalizer.py:102-106 | parameters of other columns are unchanged |
| `Normalizer.ColumnsParamsSpec` | src/data_processors/normalizer.py:102-134 | each scaled column's parameters are overwritten with this call's; any other column's entry is kept |
| `Normalizer.NormalizeColumnsSpec` | src/data_processors/normalizer.py:59-60 | after all columns, each listed column holds its normalized cells, every other cell is unchanged and the keys are kept |
| `Normalizer.ColumnsLogSpec` | src/data_processors/normalizer.py:59-60 | the log is each column's entries in column order |
| `Normalizer.NormalizeSpec` | src/data_processors/normalizer.py:27-62 | same row count and keys; qualifying columns hold their normalized cells; all other cells unchanged; the log is the qualifying columns' entries, column after column in the order of `QualifyingColumns`, which `QualifyingColumnsOrdered` shows is header order |
| `Normalizer.NormalizeEmpty` | src/data_processors/normalizer.py:37-38 | empty input gives empty output and no entries |
| `Normalizer.RescaleRow` | src/data_processors/normalizer.py:87-89 | keys and other columns unchanged |
| `Normalizer.Normalizer.constructor` | src/data_processors/normalizer.py:16-25 | method as given, by default `minmax`, and an empty log and parameters |
| `Normalizer.Normalizer.Process` | src/data_processors/normalizer.py:27-62 | returns the same array; its contents become `Normalize` of the old contents; the log grows by `NormalizationLog`; parameters updated per qualifying column |
| `Normalizer.Normalizer.NormalizeColumn` | src/data_processors/normalizer.py:64-134 | rewrites one column in place, appends its entries and records its parameters when it is not skipped |
| `Normalizer.Normalizer.ScaleColumn` | src/data_processors/normalizer.py:87-100 | the loop rewrites every point's cell in place and logs each, in row order |
| `Normalizer.ScalePoint` | src/data_processors/normalizer.py:88-100 | the new value and the entry for one point |
| `Normalizer.SetCell` | src/data_processors/normalizer.py:89 | only that cell of that row changes |
| `Stats.VarianceZeroIffConstant` | src/data_processors/outlier_remover.py:97-100 | the sample variance is zero exactly when all values are equal |
| `Stats.MedianBounds` | src/data_processors/missing_value_imputer.py:77-79 | the median lies between the minimum and the maximum |
| `Stats.ModeIsMode` | src/data_processors/missing_value_imputer.py:81-83 | the mode is a most frequent value, and the first such value |
| `Stats.ModeUnique` | src/data_processors/missing_value_imputer.py:81-83 | at most one value is a most frequent value that comes first, so together with `ModeIsMode` the mode is fully determined |
| `Stats.Sort` | src/data_processors/outlier_remover.py:119 | the result is sorted and a permutation of the input |
| `Stats.SortedUnique` | src/data_processors/outlier_remover.py:119 | two sorted permutations of the same values are equal |
| `Report.TallySpec` | src/data_processors/report_generator.py:71-107 | methods are listed in first-occurrence order, each with its number of entries |
| `Report.TallyKeys` | src/data_processors/report_generator.py:71-107 | the methods of the tally are the log's methods in first-occurrence order |
| `Report.TallyCounts` | src/data_processors/report_generator.py:71-107 | each method's count is its number of entries |
| `Report.TallyTotal` | src/data_processors/report_generator.py:71-107 | the counts sum to the log's length |
| `Report.TallyDomain` | src/data_processors/report_generator.py:71-107 | a method is tallied exactly when some entry has it |
| `Report.FirstOccurrencesMembers` | src/data_processors/report_generator.py:71-107 | first occurrences keep every value and nothing else |
| `Report.FirstOccurrencesDistinct` | src/data_processors/report_generator.py:71-107 | first occurrences repeat nothing |
| `Report.FirstOccurrencesOrdered` | src/data_processors/report_generator.py:71-107 | first occurrences are in order of first appearance |
| `Report.TallyLinesSpec` | src/data_processors/report_generator.py:71-107 | a tally section appears exactly when its log is non-empty, with its title and one bullet per method in first-occurrence order |
| `Report.SortByTimeSpec` | src/data_processors/report_generator.py:113-119 | the sort is ordered by time, a permutation, and keeps the relative order of entries with the same time stamp |
| `Report.OperationsSpec` | src/data_processors/report_generator.py:113-119 | the merged operations are the three logs concatenated, stable-sorted by time |
| `Report.DescriptionByKeys` | src/data_processors/report_generator.py:121-140 | the key-precedence choice of description always finds a line, and it is the one for the entry's kind |
| `Report.AllOperationLinesSpec` | src/data_processors/report_generator.py:121-140 | each operation gives its time line and then its description line |
| `Report.DetailLinesSpec` | src/data_processors/report_generator.py:110-140 | title, rule, then two lines per operation in order |
| `Report.IssueLinesSpec` | src/data_processors/report_generator.py:55-60 | the issue section appears exactly when there are issues, with one bullet per issue in order |
| `Report.TypeLinesPresent` | src/data_processors/report_generator.py:63-68 | the types section appears exactly when types are present and non-empty |
| `Report.TypeLinesSpec` | src/data_processors/report_generator.py:63-68 | one bullet per column, in the mapping's order |
| `Report.ValidateWellFormed` | src/data_processors/data_validator.py:41-45 | the validator's result has a well-formed types mapping |
| `Report.RowsRemovedNotClamped` | src/data_processors/report_generator.py:51 | when the cleaned data is longer, "Rows removed" is negative |
| `Report.ReportFrame` | src/data_processors/report_generator.py:39-52 | the report opens with the header and summary, closes with the rule, and has at least 15 lines |
| `Report.ReportGenerator.constructor` | src/data_processors/report_generator.py:15-16 | the unused report log starts empty |
| `Report.ReportGenerator.GenerateReport` | src/data_processors/report_generator.py:18-145 | the text is the report's lines joined by newlines |
| `Report.ReportGenerator.CountMethods` | src/data_processors/report_generator.py:74-77 | the counting loop builds the tally |
| `Report.ReportGenerator.Summarize` | src/data_processors/report_generator.py:71-81 | builds one tally section |
| `Report.ReportGenerator.AppendBullets` | src/data_processors/report_generator.py:58-59 | the loop appends one bullet per text, in order |
| `Report.ReportGenerator.DescribeAll` | src/data_processors/report_generator.py:121-140 | the loop emits every operation's lines in order |
| `Report.ReportGenerator.IssueSection` | src/data_processors/report_generator.py:55-60 | builds the issue section |
| `Report.ReportGenerator.TypeSection` | src/data_processors/report_generator.py:63-68 | builds the types section |
| `Text.TrimIdempotent` | src/data_processors/data_validator.py:50 | stripping a stripped string changes nothing |
| `Text.NatToStringRoundTrip` | src/data_processors/report_generator.py:49-51 | the decimal text of a count reads back as the count |

## Left out

- Text formatting is taken as parameters (`Report.Formats`). This covers
  `str()` of a cell, `f"{value}"`, `.2f`, `.4f` and `%H:%M:%S`; the model does
  not fix the exact digits.
  - The `Generated:` line's clock is a given string.
  - The issue messages are modelled by their wording, with the cell rendered
    by that parameter.
- Each `datetime.now()` of a log entry becomes one time stamp per processor
  call. Time stamps are integers, and only their order is used.
- The square root inside `statistics.stdev` is a parameter `sqrt`. Lemmas that
  need it to be a square root require `IsRootOf`.
- Floating point is not modelled: arithmetic is on reals, with no rounding,
  infinities or NaN.
- Python's `float()` is modelled for decimal and exponent forms with optional
  sign and surrounding blanks. `inf`, `nan`, `_` separators and non-ASCII
  Unicode decimal digits (which `float()` accepts, e.g. `float('١٢')`) are not
  modelled.
- The regular expressions are hand-coded for ASCII. Unicode digits for `\d`
  are not modelled.
- In the source, a raw number cell passed to the date or email check raises
  `TypeError`. Here it does not match.
- In Python, the imputer's copy of a row shares nothing with the input rows
  and rows are mutable objects. Here rows are values, so aliasing between the
  loader's data and the driver's copy is not modelled. In the normalizer, a
  row of the array is replaced by its updated copy rather than mutated
  through another reference.
- Left out because they are file I/O, the interactive menu, or re-exports:
  - src/data_processors/csv_loader.py;
  - src/cli.py;
  - `ReportGenerator.save_report`;
  - the `get_*_log` accessors;
  - src/data_processors/base.py, the package `__init__` files and
    csv_data_cleaner.py.
- `report_log` is never used by the source; the model keeps the field and
  never changes it.
- The source defaults missing keys with `entry.get('method', 'unknown')`.
  Every entry the processors write has a method, so that default is not
  modelled.
- `Report.ReportGenerator.GenerateReport` states the whole report as
  `ReportLines`, and the section lemmas state each part. They do not state
  the line positions of the middle sections inside the joined text.
