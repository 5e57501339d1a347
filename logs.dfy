/**
 * The entries the imputer, the outlier remover and the normalizer append to
 * their logs, and the report reads back. In the source each entry is a
 * dictionary; here each kind of entry is a constructor, and `Keys` gives the
 * dictionary keys each kind has.
 */
module Logs {
  import opened Dicts
  import opened Cells

  /** A log time stamp; the model only relies on time stamps being ordered. */
  type Time = int

  datatype LogEntry =
    | Imputation(time: Time, column: string, row: nat, original: Cell, imputed: Cell, how: string)
    | ZOutlier(time: Time, column: string, row: nat, value: real, zScore: real)
    | IqrOutlier(time: Time, column: string, row: nat, value: real, lower: real, upper: real)
    | MinMaxScaled(time: Time, column: string, row: nat, source: real, normalized: real, min: real, max: real)
    | ZScaled(time: Time, column: string, row: nat, source: real, standardized: real, mean: real, std: real)

  /** The 0-based row of an entry. */
  function RowIndex(e: LogEntry): int {
    e.row - 1
  }

  /** The position of the entry's column among `columns`. */
  function ColumnPosition(columns: seq<string>): LogEntry -> int {
    (e: LogEntry) => Position(columns, e.column)
  }

  /** The entry's `method` value. */
  function Method(e: LogEntry): string {
    match e
    case Imputation(_, _, _, _, _, m) => m
    case ZOutlier(_, _, _, _, _) => "zscore"
    case IqrOutlier(_, _, _, _, _, _) => "iqr"
    case MinMaxScaled(_, _, _, _, _, _, _) => "minmax"
    case ZScaled(_, _, _, _, _, _, _) => "zscore"
  }

  /** The keys of the dictionary the source writes for the entry. */
  function Keys(e: LogEntry): set<string> {
    var common := {"timestamp", "column", "row", "method"};
    match e
    case Imputation(_, _, _, _, _, _) => common + {"original_value", "imputed_value"}
    case ZOutlier(_, _, _, _, _) => common + {"value", "z_score"}
    case IqrOutlier(_, _, _, _, _, _) => common + {"value", "lower_bound", "upper_bound"}
    case MinMaxScaled(_, _, _, _, _, _, _) => common + {"original_value", "normalized_value", "min", "max"}
    case ZScaled(_, _, _, _, _, _, _) => common + {"original_value", "standardized_value", "mean", "std"}
  }

  /** The 1-based rows a log names. */
  function Rows(log: seq<LogEntry>): (rows: set<nat>)
    ensures forall k :: 0 <= k < |log| ==> log[k].row in rows
    ensures forall r :: r in rows ==> exists k :: 0 <= k < |log| && log[k].row == r
  {
    set k | 0 <= k < |log| :: log[k].row
  }
}
