/**
 * The quality report: a summary of row counts, the validation issues, the
 * column types, a per-method tally of each processor's log, and every
 * logged operation in time order, as lines joined by new lines.
 */
module Report {
  import opened Text
  import opened Dicts
  import opened Cells
  import opened Stats
  import opened Logs
  import opened Validator

  /**
   * How values are rendered: the `Generated:` line's clock reading, a time
   * stamp as `%H:%M:%S`, a cell as `f"{val}"`, a float as `str`, and a float
   * as `.2f` and as `.4f`. The model leaves these renderings open.
   */
  datatype Formats = Formats(
    generated: string,
    clock: Time -> string,
    cell: Cell -> string,
    number: real -> string,
    fixed2: real -> string,
    fixed4: real -> string)

  // ------------------------------------------------------------ tallies

  /** The `method` of each entry, in log order. */
  function MethodsOf(log: seq<LogEntry>): (ms: seq<string>)
    ensures |ms| == |log| && forall i :: 0 <= i < |log| ==> ms[i] == Method(log[i])
  {
    seq(|log|, i requires 0 <= i < |log| => Method(log[i]))
  }

  /**
   * The `defaultdict(int)` the loop `summary[method] += 1` builds: a method
   * seen for the first time is stored last with count 1, a known one counts
   * one more.
   */
  function Tally(log: seq<LogEntry>): Dict<string, nat>
    decreases |log|
  {
    if log == [] then Empty()
    else
      var d := Tally(log[..|log| - 1]);
      var m := Method(log[|log| - 1]);
      Put(d, m, (if m in d.entries then d.entries[m] else 0) + 1)
  }

  lemma TallyStep(log: seq<LogEntry>, k: nat)
    requires k < |log|
    ensures Tally(log[..k + 1]) ==
      Put(Tally(log[..k]), Method(log[k]),
        (if Method(log[k]) in Tally(log[..k]).entries then Tally(log[..k]).entries[Method(log[k])] else 0) + 1)
  {
    assert log[..k + 1][..k] == log[..k];
  }

  /** The values of `xs`, each at the place it first occurs. */
  function FirstOccurrences<T(==)>(xs: seq<T>): seq<T>
    decreases |xs|
  {
    if xs == [] then []
    else
      var front := xs[..|xs| - 1];
      FirstOccurrences(front) + (if xs[|xs| - 1] in front then [] else [xs[|xs| - 1]])
  }

  lemma {:induction false} CountSnoc<T>(xs: seq<T>, x: T, y: T)
    ensures Count(xs + [x], y) == Count(xs, y) + (if x == y then 1 else 0)
  {
    if xs != [] {
      assert (xs + [x])[1..] == xs[1..] + [x];
      CountSnoc(xs[1..], x, y);
    }
  }

  lemma {:induction false} FirstIndexSnoc<T>(xs: seq<T>, x: T, y: T)
    requires y in xs
    ensures FirstIndex(xs + [x], y) == FirstIndex(xs, y)
  {
    if xs[0] != y {
      assert (xs + [x])[1..] == xs[1..] + [x];
      FirstIndexSnoc(xs[1..], x, y);
    }
  }

  lemma FirstOccurrencesSnoc<T>(xs: seq<T>, x: T)
    ensures FirstOccurrences(xs + [x]) == FirstOccurrences(xs) + (if x in xs then [] else [x])
  {
    assert (xs + [x])[..|xs|] == xs;
  }

  /** The first-occurrence list holds the values of `xs` and no other. */
  lemma {:induction false} FirstOccurrencesMembers<T>(xs: seq<T>)
    ensures forall x :: x in FirstOccurrences(xs) <==> x in xs
    decreases |xs|
  {
    if xs != [] {
      var front := xs[..|xs| - 1];
      FirstOccurrencesMembers(front);
      assert xs == front + [xs[|xs| - 1]];
    }
  }

  /** The first-occurrence list holds each value once. */
  lemma {:induction false} FirstOccurrencesDistinct<T>(xs: seq<T>)
    ensures Distinct(FirstOccurrences(xs))
    decreases |xs|
  {
    if xs != [] {
      var front, x := xs[..|xs| - 1], xs[|xs| - 1];
      FirstOccurrencesDistinct(front);
      var f := FirstOccurrences(front);
      if x !in front {
        var d := FirstOccurrences(xs);
        FirstOccurrencesMembers(front);
        assert d == f + [x];
        forall i, j | 0 <= i < j < |d| ensures d[i] != d[j] {
          assert d[i] == f[i] && f[i] in f;
          if j < |f| {
            assert d[j] == f[j];
          }
        }
      }
    }
  }

  lemma FirstOccurrenceAt<T>(xs: seq<T>, i: nat)
    requires i < |FirstOccurrences(xs)|
    ensures FirstOccurrences(xs)[i] in xs
  {
    FirstOccurrencesMembers(xs);
  }

  lemma FirstIndexLast<T>(xs: seq<T>, x: T)
    requires x !in xs
    ensures FirstIndex(xs + [x], x) == |xs|
  {
    assert forall k :: 0 <= k < |xs| ==> (xs + [x])[k] == xs[k];
  }

  /** The first-occurrence list is in the order of the values' first occurrences. */
  lemma {:induction false} FirstOccurrencesOrdered<T>(xs: seq<T>, i: nat, j: nat)
    requires i < j < |FirstOccurrences(xs)|
    ensures FirstOccurrences(xs)[i] in xs && FirstOccurrences(xs)[j] in xs
    ensures FirstIndex(xs, FirstOccurrences(xs)[i]) < FirstIndex(xs, FirstOccurrences(xs)[j])
    decreases |xs|
  {
    FirstOccurrenceAt(xs, i);
    FirstOccurrenceAt(xs, j);
    var front, x := xs[..|xs| - 1], xs[|xs| - 1];
    assert xs == front + [x];
    FirstOccurrencesSnoc(front, x);
    var f := FirstOccurrences(front);
    var d := FirstOccurrences(xs);
    FirstOccurrenceAt(front, i);
    assert d[i] == f[i];
    FirstIndexSnoc(front, x, f[i]);
    if j < |f| {
      assert d[j] == f[j];
      FirstOccurrenceAt(front, j);
      FirstIndexSnoc(front, x, f[j]);
      FirstOccurrencesOrdered(front, i, j);
    } else {
      FirstOccurrencesMembers(front);
      assert d[j] == x && x !in front;
      FirstIndexLast(front, x);
    }
  }

  lemma MethodsOfSnoc(log: seq<LogEntry>)
    requires log != []
    ensures MethodsOf(log) == MethodsOf(log[..|log| - 1]) + [Method(log[|log| - 1])]
  {
  }

  /** The tally's keys are the methods the log names. */
  lemma {:induction false} TallyDomain(log: seq<LogEntry>)
    ensures forall m :: m in Tally(log).entries <==> m in MethodsOf(log)
    decreases |log|
  {
    if log != [] {
      TallyDomain(log[..|log| - 1]);
      MethodsOfSnoc(log);
    }
  }

  lemma {:induction false} TallyWellFormed(log: seq<LogEntry>)
    ensures WellFormed(Tally(log))
    decreases |log|
  {
    if log != [] {
      var d := Tally(log[..|log| - 1]);
      var m := Method(log[|log| - 1]);
      TallyWellFormed(log[..|log| - 1]);
      PutWellFormed(d, m, (if m in d.entries then d.entries[m] else 0) + 1);
    }
  }

  /** The tally lists the methods in first-occurrence order. */
  lemma {:induction false} TallyKeys(log: seq<LogEntry>)
    ensures Tally(log).keys == FirstOccurrences(MethodsOf(log))
    decreases |log|
  {
    if log != [] {
      var front := log[..|log| - 1];
      TallyKeys(front);
      TallyDomain(front);
      MethodsOfSnoc(log);
      FirstOccurrencesSnoc(MethodsOf(front), Method(log[|log| - 1]));
    }
  }

  /** Each method's count is the number of its entries. */
  lemma {:induction false} TallyCounts(log: seq<LogEntry>)
    ensures forall m :: m in Tally(log).entries ==> Tally(log).entries[m] == Count(MethodsOf(log), m)
    decreases |log|
  {
    if log != [] {
      var front := log[..|log| - 1];
      var m := Method(log[|log| - 1]);
      var d := Tally(front);
      var ms := MethodsOf(front);
      TallyCounts(front);
      TallyDomain(front);
      MethodsOfSnoc(log);
      forall x | x in Tally(log).entries ensures Tally(log).entries[x] == Count(MethodsOf(log), x) {
        CountSnoc(ms, m, x);
        if x != m {
          assert x in d.entries;
        } else if m !in ms {
          CountZero(ms, m);
        }
      }
    }
  }

  /**
   * The tally is a dictionary whose keys are the log's methods in
   * first-occurrence order, each counting its entries.
   */
  lemma TallySpec(log: seq<LogEntry>)
    ensures var d := Tally(log);
      && WellFormed(d)
      && d.keys == FirstOccurrences(MethodsOf(log))
      && (forall m :: m in d.entries ==> d.entries[m] == Count(MethodsOf(log), m))
  {
    TallyWellFormed(log);
    TallyKeys(log);
    TallyCounts(log);
  }

  lemma {:induction false} CountZero<T>(xs: seq<T>, x: T)
    requires x !in xs
    ensures Count(xs, x) == 0
    decreases |xs|
  {
    if xs != [] {
      CountZero(xs[1..], x);
    }
  }

  /** The sum of the counts the keys `keys` hold in `counts`. */
  function CountTotal(keys: seq<string>, counts: map<string, nat>): nat
    decreases |keys|
  {
    if keys == [] then 0
    else
      var k := keys[|keys| - 1];
      CountTotal(keys[..|keys| - 1], counts) + (if k in counts then counts[k] else 0)
  }

  lemma {:induction false} CountTotalUpdate(keys: seq<string>, counts: map<string, nat>, k: string, v: nat)
    requires Distinct(keys)
    ensures CountTotal(keys, counts[k := v]) ==
      CountTotal(keys, counts) + (if k in keys then v - (if k in counts then counts[k] else 0) else 0)
    decreases |keys|
  {
    if keys != [] {
      var front := keys[..|keys| - 1];
      assert Distinct(front);
      CountTotalUpdate(front, counts, k, v);
      assert k in keys <==> k in front || k == keys[|keys| - 1];
      if k == keys[|keys| - 1] {
        assert k !in front;
      }
    }
  }

  lemma CountTotalSnoc(keys: seq<string>, counts: map<string, nat>, k: string)
    ensures CountTotal(keys + [k], counts) == CountTotal(keys, counts) + (if k in counts then counts[k] else 0)
  {
    assert (keys + [k])[..|keys|] == keys;
  }

  /** The counts of a summary add up to the entries of its log. */
  lemma {:induction false} TallyTotal(log: seq<LogEntry>)
    ensures CountTotal(Tally(log).keys, Tally(log).entries) == |log|
    decreases |log|
  {
    if log != [] {
      var front := log[..|log| - 1];
      var m := Method(log[|log| - 1]);
      TallyTotal(front);
      TallyWellFormed(front);
      var d := Tally(front);
      var c := if m in d.entries then d.entries[m] else 0;
      var r := Tally(log);
      assert r == Put(d, m, c + 1);
      CountTotalUpdate(d.keys, d.entries, m, c + 1);
      if m in d.entries {
        assert m in d.keys && r.keys == d.keys;
        assert CountTotal(d.keys, r.entries) == |front| + 1;
      } else {
        assert m !in d.keys && r.keys == d.keys + [m];
        assert CountTotal(d.keys, r.entries) == |front|;
        CountTotalSnoc(d.keys, r.entries, m);
      }
    }
  }

  // ------------------------------------------------------------- sorting

  predicate SortedByTime(s: seq<LogEntry>) {
    forall i, j :: 0 <= i < j < |s| ==> s[i].time <= s[j].time
  }

  /** `e` placed before the first entry of `s` that is not earlier. */
  function InsertByTime(e: LogEntry, s: seq<LogEntry>): (r: seq<LogEntry>)
    ensures |r| == |s| + 1
    ensures r[0] == e || (s != [] && r[0] == s[0])
  {
    if s == [] || e.time <= s[0].time then [e] + s
    else [s[0]] + InsertByTime(e, s[1..])
  }

  /** `all_operations.sort(key=timestamp)`: Python's sort is stable. */
  function SortByTime(xs: seq<LogEntry>): (r: seq<LogEntry>)
    ensures |r| == |xs|
  {
    if xs == [] then [] else InsertByTime(xs[0], SortByTime(xs[1..]))
  }

  /** The entries of `xs` stamped `t`, in order. */
  function StampedAt(xs: seq<LogEntry>, t: Time): seq<LogEntry> {
    if xs == [] then []
    else (if xs[0].time == t then [xs[0]] else []) + StampedAt(xs[1..], t)
  }

  lemma SortedTail(s: seq<LogEntry>)
    requires SortedByTime(s) && s != []
    ensures SortedByTime(s[1..])
  {
    forall i, j | 0 <= i < j < |s| - 1 ensures s[1..][i].time <= s[1..][j].time {
      assert s[1..][i] == s[i + 1] && s[1..][j] == s[j + 1];
    }
  }

  lemma {:induction false} InsertByTimeSorted(e: LogEntry, s: seq<LogEntry>)
    requires SortedByTime(s)
    ensures SortedByTime(InsertByTime(e, s))
    decreases |s|
  {
    if s != [] && e.time > s[0].time {
      var r, t := InsertByTime(e, s), InsertByTime(e, s[1..]);
      SortedTail(s);
      InsertByTimeSorted(e, s[1..]);
      assert r == [s[0]] + t;
      assert s[0].time <= t[0].time by {
        if t[0] != e {
          assert t[0] == s[1];
        }
      }
      forall i, j | 0 <= i < j < |r| ensures r[i].time <= r[j].time {
        assert r[j] == t[j - 1];
        if i > 0 {
          assert r[i] == t[i - 1];
        } else {
          assert t[0].time <= t[j - 1].time || j == 1;
        }
      }
    } else if s != [] {
      var r := InsertByTime(e, s);
      assert r == [e] + s;
      forall i, j | 0 <= i < j < |r| ensures r[i].time <= r[j].time {
        assert r[j] == s[j - 1];
        if i > 0 {
          assert r[i] == s[i - 1];
        } else {
          assert s[0].time <= s[j - 1].time || j == 1;
        }
      }
    }
  }

  lemma {:induction false} InsertByTimeMultiset(e: LogEntry, s: seq<LogEntry>)
    ensures multiset(InsertByTime(e, s)) == multiset(s) + multiset{e}
    decreases |s|
  {
    if s != [] && e.time > s[0].time {
      InsertByTimeMultiset(e, s[1..]);
      assert s == [s[0]] + s[1..];
    }
  }

  lemma StampedAtCons(x: LogEntry, s: seq<LogEntry>, t: Time)
    ensures StampedAt([x] + s, t) == (if x.time == t then [x] else []) + StampedAt(s, t)
  {
    assert ([x] + s)[1..] == s;
  }

  /** Inserting passes over the entries of `e`'s time stamp only when they come before. */
  lemma {:induction false} InsertByTimeStamped(e: LogEntry, s: seq<LogEntry>, t: Time)
    ensures StampedAt(InsertByTime(e, s), t) == (if e.time == t then [e] else []) + StampedAt(s, t)
    decreases |s|
  {
    if s == [] || e.time <= s[0].time {
      StampedAtCons(e, s, t);
    } else {
      InsertByTimeStamped(e, s[1..], t);
      StampedAtCons(s[0], InsertByTime(e, s[1..]), t);
      StampedAtCons(s[0], s[1..], t);
      assert s == [s[0]] + s[1..];
    }
  }

  /**
   * The detailed log is ordered by time stamp, holds the same entries, and
   * keeps the entries of any one time stamp in their order of arrival.
   */
  lemma {:induction false} SortByTimeSpec(xs: seq<LogEntry>)
    ensures var r := SortByTime(xs);
      && SortedByTime(r)
      && multiset(r) == multiset(xs)
      && (forall t :: StampedAt(r, t) == StampedAt(xs, t))
    decreases |xs|
  {
    if xs != [] {
      var r := SortByTime(xs[1..]);
      SortByTimeSpec(xs[1..]);
      InsertByTimeSorted(xs[0], r);
      InsertByTimeMultiset(xs[0], r);
      assert xs == [xs[0]] + xs[1..];
      forall t ensures StampedAt(SortByTime(xs), t) == StampedAt(xs, t) {
        InsertByTimeStamped(xs[0], r, t);
        StampedAtCons(xs[0], xs[1..], t);
      }
    }
  }

  // ------------------------------------------------------------- sections

  function Bullets(items: seq<string>): (r: seq<string>)
    ensures |r| == |items| && forall i :: 0 <= i < |items| ==> r[i] == "• " + items[i]
  {
    seq(|items|, i requires 0 <= i < |items| => "• " + items[i])
  }

  lemma BulletsStep(items: seq<string>, k: nat)
    requires k < |items|
    ensures Bullets(items[..k + 1]) == Bullets(items[..k]) + ["• " + items[k]]
  {
  }

  /** A titled section: the title, a rule of `width` dashes, the body and a blank line. */
  function Section(title: string, width: nat, body: seq<string>): seq<string> {
    [title, Repeat('-', width)] + body + [""]
  }

  lemma SectionAt(title: string, width: nat, body: seq<string>)
    ensures var lines := Section(title, width, body);
      && |lines| == |body| + 3 && lines[0] == title && lines[|lines| - 1] == ""
      && forall i :: 0 <= i < |body| ==> lines[i + 2] == body[i]
  {
  }

  function HeaderLines(fmt: Formats): seq<string> {
    [Repeat('=', 60), "CSV DATA CLEANER AND VALIDATOR - QUALITY REPORT", Repeat('=', 60), "Generated: " + fmt.generated, ""]
  }

  function SummaryLines(original: nat, cleaned: nat): seq<string> {
    Section("SUMMARY STATISTICS:", 20, [
      "Original rows: " + NatToString(original),
      "Cleaned rows: " + NatToString(cleaned),
      "Rows removed: " + IntToString(original - cleaned)])
  }

  /** More cleaned rows than original ones are reported as a negative removal. */
  lemma RowsRemovedNotClamped(original: nat, cleaned: nat)
    requires original < cleaned
    ensures SummaryLines(original, cleaned)[4] == "Rows removed: -" + NatToString(cleaned - original)
  {
  }

  function IssueTexts(issues: seq<Issue>, fmt: Formats): (r: seq<string>)
    ensures |r| == |issues| && forall i :: 0 <= i < |issues| ==> r[i] == Message(issues[i], fmt.cell)
  {
    seq(|issues|, i requires 0 <= i < |issues| => Message(issues[i], fmt.cell))
  }

  function IssueLines(v: ValidationResult, fmt: Formats): seq<string> {
    if v.issues == [] then [] else Section("VALIDATION ISSUES:", 20, Bullets(IssueTexts(v.issues, fmt)))
  }

  /** Python's dictionaries list each key once; so does the validator's result. */
  predicate ResultWellFormed(v: ValidationResult) {
    v.columnTypes.Some? ==> WellFormed(v.columnTypes.value)
  }

  /** One column-type line's text. */
  function TypeText(column: string, t: ColumnType): string {
    column + ": " + TypeName(t)
  }

  function TypeTexts(d: Dict<string, ColumnType>): (r: seq<string>)
    requires WellFormed(d)
    ensures |r| == |d.keys|
    ensures forall i :: 0 <= i < |r| ==> r[i] == TypeText(d.keys[i], d.entries[d.keys[i]])
  {
    var items := Items(d);
    seq(|items|, i requires 0 <= i < |items| => TypeText(items[i].0, items[i].1))
  }

  function TypeLines(v: ValidationResult): seq<string>
    requires ResultWellFormed(v)
  {
    match v.columnTypes
    case None => []
    case Some(d) => if d.keys == [] then [] else Section("COLUMN TYPES:", 20, Bullets(TypeTexts(d)))
  }

  /** The three per-method summaries. */
  datatype Kind = Imputations | Outliers | Normalizations

  function KindTitle(k: Kind): string {
    match k
    case Imputations => "MISSING VALUE IMPUTATION:"
    case Outliers => "OUTLIER DETECTION:"
    case Normalizations => "NORMALIZATION/STANDARDIZATION:"
  }

  function KindWidth(k: Kind): nat {
    match k
    case Imputations => 30
    case Outliers => 20
    case Normalizations => 30
  }

  /** One summary line's text, for a method and its count. */
  function TallyText(k: Kind, m: string, count: nat): string {
    match k
    case Imputations => Title(m) + " imputation: " + NatToString(count) + " values"
    case Outliers => Upper(m) + " method: " + NatToString(count) + " outliers detected"
    case Normalizations => Upper(m) + " method: " + NatToString(count) + " values processed"
  }

  function TallyTexts(k: Kind, d: Dict<string, nat>): (r: seq<string>)
    requires WellFormed(d)
    ensures |r| == |d.keys|
    ensures forall i :: 0 <= i < |r| ==> r[i] == TallyText(k, d.keys[i], d.entries[d.keys[i]])
  {
    var items := Items(d);
    seq(|items|, i requires 0 <= i < |items| => TallyText(k, items[i].0, items[i].1))
  }

  function TallyLines(k: Kind, log: seq<LogEntry>): seq<string> {
    if log == [] then []
    else
      TallySpec(log);
      Section(KindTitle(k), KindWidth(k), Bullets(TallyTexts(k, Tally(log))))
  }

  /**
   * A summary section appears exactly when its log is not empty, with one
   * line per distinct method, in first-occurrence order, giving its count.
   */
  lemma TallyLinesSpec(k: Kind, log: seq<LogEntry>)
    ensures TallyLines(k, log) == [] <==> log == []
    ensures log != [] ==>
      var lines, ms := TallyLines(k, log), FirstOccurrences(MethodsOf(log));
      && |lines| == |ms| + 3
      && lines[0] == KindTitle(k)
      && forall i :: 0 <= i < |ms| ==> lines[i + 2] == "• " + TallyText(k, ms[i], Count(MethodsOf(log), ms[i]))
  {
    if log != [] {
      TallySpec(log);
      var d := Tally(log);
      var texts := TallyTexts(k, d);
      var body := Bullets(texts);
      var lines := TallyLines(k, log);
      assert lines == Section(KindTitle(k), KindWidth(k), body);
      SectionAt(KindTitle(k), KindWidth(k), body);
      forall i | 0 <= i < |d.keys|
        ensures lines[i + 2] == "• " + TallyText(k, d.keys[i], Count(MethodsOf(log), d.keys[i]))
      {
        assert lines[i + 2] == "• " + texts[i];
        assert d.keys[i] in d.entries;
      }
    }
  }

  // ------------------------------------------------------ operation lines

  /**
   * The description line of an operation, chosen by the keys its entry
   * has: `imputed_value` first, then `value` with `method`, then
   * `normalized_value`, then `standardized_value`; none otherwise.
   */
  function Description(e: LogEntry, fmt: Formats): Option<string> {
    var keys := Keys(e);
    var at := "' at row " + NatToString(e.row) + ": ";
    if "imputed_value" in keys then
      Some("Imputed '" + e.column + at + "'" + fmt.cell(e.original) + "' → '" + fmt.cell(e.imputed) + "'")
    else if "value" in keys && "method" in keys then
      if Method(e) == "zscore" then
        Some("Outlier detected in '" + e.column + at + "value " + fmt.number(e.value) + " (z-score: " + fmt.fixed2(e.zScore) + ")")
      else
        Some("Outlier detected in '" + e.column + at + "value " + fmt.number(e.value))
    else if "normalized_value" in keys then
      Some("Normalized '" + e.column + at + fmt.fixed2(e.source) + " → " + fmt.fixed4(e.normalized))
    else if "standardized_value" in keys then
      Some("Standardized '" + e.column + at + fmt.fixed2(e.source) + " → " + fmt.fixed4(e.standardized))
    else None
  }

  /** The line each kind of entry is meant to get, chosen by its kind. */
  function KindDescription(e: LogEntry, fmt: Formats): string {
    var at := "' at row " + NatToString(e.row) + ": ";
    match e
    case Imputation(_, _, _, _, _, _) =>
      "Imputed '" + e.column + at + "'" + fmt.cell(e.original) + "' → '" + fmt.cell(e.imputed) + "'"
    case ZOutlier(_, _, _, _, _) =>
      "Outlier detected in '" + e.column + at + "value " + fmt.number(e.value) + " (z-score: " + fmt.fixed2(e.zScore) + ")"
    case IqrOutlier(_, _, _, _, _, _) =>
      "Outlier detected in '" + e.column + at + "value " + fmt.number(e.value)
    case MinMaxScaled(_, _, _, _, _, _, _) =>
      "Normalized '" + e.column + at + fmt.fixed2(e.source) + " → " + fmt.fixed4(e.normalized)
    case ZScaled(_, _, _, _, _, _, _) =>
      "Standardized '" + e.column + at + fmt.fixed2(e.source) + " → " + fmt.fixed4(e.standardized)
  }

  /**
   * Choosing by the keys an entry has gives every kind of entry its own
   * line: no entry is left without one, and none takes another kind's.
   */
  lemma DescriptionByKeys(e: LogEntry, fmt: Formats)
    ensures Description(e, fmt) == Some(KindDescription(e, fmt))
  {
    match e
    case Imputation(_, _, _, _, _, _) =>
      assert "imputed_value" in Keys(e);
    case ZOutlier(_, _, _, _, _) =>
      assert "imputed_value" !in Keys(e) && "value" in Keys(e) && "method" in Keys(e);
    case IqrOutlier(_, _, _, _, _, _) =>
      assert "imputed_value" !in Keys(e) && "value" in Keys(e) && "method" in Keys(e);
    case MinMaxScaled(_, _, _, _, _, _, _) =>
      assert "imputed_value" !in Keys(e) && "value" !in Keys(e) && "normalized_value" in Keys(e);
    case ZScaled(_, _, _, _, _, _, _) =>
      assert "imputed_value" !in Keys(e) && "value" !in Keys(e) && "normalized_value" !in Keys(e);
      assert "standardized_value" in Keys(e);
  }

  /** An operation's lines: its time stamp, then its description when it has one. */
  function OperationLines(e: LogEntry, fmt: Formats): seq<string> {
    ["[" + fmt.clock(e.time) + "] "] + (match Description(e, fmt) case Some(d) => [d] case None => [])
  }

  function AllOperationLines(ops: seq<LogEntry>, fmt: Formats): seq<string>
    decreases |ops|
  {
    if ops == [] then []
    else AllOperationLines(ops[..|ops| - 1], fmt) + OperationLines(ops[|ops| - 1], fmt)
  }

  lemma AllOperationLinesStep(ops: seq<LogEntry>, fmt: Formats, k: nat)
    requires k < |ops|
    ensures AllOperationLines(ops[..k + 1], fmt) == AllOperationLines(ops[..k], fmt) + OperationLines(ops[k], fmt)
  {
    assert ops[..k + 1][..k] == ops[..k];
  }

  lemma OperationLinesSpec(e: LogEntry, fmt: Formats)
    ensures OperationLines(e, fmt) == ["[" + fmt.clock(e.time) + "] ", KindDescription(e, fmt)]
  {
    DescriptionByKeys(e, fmt);
  }

  /** Each operation takes exactly two lines, the first its time stamp. */
  lemma {:induction false} AllOperationLinesSpec(ops: seq<LogEntry>, fmt: Formats)
    ensures |AllOperationLines(ops, fmt)| == 2 * |ops|
    ensures forall k :: 0 <= k < |ops| ==>
      && AllOperationLines(ops, fmt)[2 * k] == "[" + fmt.clock(ops[k].time) + "] "
      && AllOperationLines(ops, fmt)[2 * k + 1] == KindDescription(ops[k], fmt)
    decreases |ops|
  {
    if ops != [] {
      var n := |ops| - 1;
      var front := ops[..n];
      var previous := AllOperationLines(front, fmt);
      AllOperationLinesSpec(front, fmt);
      OperationLinesSpec(ops[n], fmt);
      var lines := AllOperationLines(ops, fmt);
      assert lines == previous + ["[" + fmt.clock(ops[n].time) + "] ", KindDescription(ops[n], fmt)];
      forall k | 0 <= k < |ops|
        ensures lines[2 * k] == "[" + fmt.clock(ops[k].time) + "] " && lines[2 * k + 1] == KindDescription(ops[k], fmt)
      {
        if k < n {
          assert ops[k] == front[k];
          assert lines[2 * k] == previous[2 * k] && lines[2 * k + 1] == previous[2 * k + 1];
        } else {
          assert k == n && 2 * k == |previous|;
        }
      }
    }
  }

  /** The detailed log's entries: every log's entries, sorted by time stamp. */
  function Operations(imputationLog: seq<LogEntry>, outlierLog: seq<LogEntry>, normalizationLog: seq<LogEntry>): seq<LogEntry> {
    SortByTime(imputationLog + outlierLog + normalizationLog)
  }

  function DetailLines(ops: seq<LogEntry>, fmt: Formats): seq<string> {
    ["DETAILED TRANSFORMATION LOG:", Repeat('-', 30)] + AllOperationLines(ops, fmt)
  }

  function FooterLines(): seq<string> {
    ["", Repeat('=', 60)]
  }

  /** The report's lines, section after section. */
  function ReportLines(original: Dataset, cleaned: Dataset, v: ValidationResult,
                       imputationLog: seq<LogEntry>, outlierLog: seq<LogEntry>, normalizationLog: seq<LogEntry>,
                       fmt: Formats): seq<string>
    requires ResultWellFormed(v)
  {
    HeaderLines(fmt)
    + SummaryLines(|original|, |cleaned|)
    + IssueLines(v, fmt)
    + TypeLines(v)
    + TallyLines(Imputations, imputationLog)
    + TallyLines(Outliers, outlierLog)
    + TallyLines(Normalizations, normalizationLog)
    + DetailLines(Operations(imputationLog, outlierLog, normalizationLog), fmt)
    + FooterLines()
  }

  /** The validation issues appear exactly when there are some, one line each, in order. */
  lemma IssueLinesSpec(v: ValidationResult, fmt: Formats)
    ensures IssueLines(v, fmt) == [] <==> v.issues == []
    ensures v.issues != [] ==>
      var lines := IssueLines(v, fmt);
      && |lines| == |v.issues| + 3 && lines[0] == "VALIDATION ISSUES:"
      && forall i :: 0 <= i < |v.issues| ==> lines[i + 2] == "• " + Message(v.issues[i], fmt.cell)
  {
    if v.issues != [] {
      SectionAt("VALIDATION ISSUES:", 20, Bullets(IssueTexts(v.issues, fmt)));
    }
  }

  /** The column types appear exactly when the mapping is present and not empty. */
  lemma TypeLinesPresent(v: ValidationResult)
    requires ResultWellFormed(v)
    ensures TypeLines(v) == [] <==> v.columnTypes.None? || v.columnTypes.value.entries == map[]
  {
    if v.columnTypes.Some? {
      var d := v.columnTypes.value;
      if d.keys != [] {
        assert d.keys[0] in d.entries;
      } else {
        assert forall k :: k !in d.entries;
      }
    }
  }

  /** The column types, one line each, in the mapping's key order. */
  lemma TypeLinesSpec(v: ValidationResult)
    requires ResultWellFormed(v) && v.columnTypes.Some? && v.columnTypes.value.keys != []
    ensures var lines, d := TypeLines(v), v.columnTypes.value;
      && |lines| == |d.keys| + 3 && lines[0] == "COLUMN TYPES:"
      && forall i :: 0 <= i < |d.keys| ==> lines[i + 2] == "• " + TypeText(d.keys[i], d.entries[d.keys[i]])
  {
    var d := v.columnTypes.value;
    var texts := TypeTexts(d);
    var lines := TypeLines(v);
    assert lines == Section("COLUMN TYPES:", 20, Bullets(texts));
    SectionAt("COLUMN TYPES:", 20, Bullets(texts));
  }

  /** The validator's column types are a well-formed dictionary. */
  lemma {:induction false} AllTypesWellFormed(data: Dataset, headers: seq<string>)
    ensures WellFormed(AllTypes(data, headers))
    decreases |headers|
  {
    if headers != [] {
      var h := headers[|headers| - 1];
      AllTypesWellFormed(data, headers[..|headers| - 1]);
      PutWellFormed(AllTypes(data, headers[..|headers| - 1]), h, Classify(Column(data, h)));
    }
  }

  lemma ValidateWellFormed(data: Dataset, headers: seq<string>)
    ensures ResultWellFormed(Validate(data, headers))
  {
    if data != [] && headers != [] {
      AllTypesWellFormed(data, headers);
    }
  }

  /**
   * The detailed log lists every logged operation, of all three logs, in
   * order of time stamp and, within one time stamp, in the order imputation,
   * outlier and normalization entries were logged.
   */
  lemma OperationsSpec(imputationLog: seq<LogEntry>, outlierLog: seq<LogEntry>, normalizationLog: seq<LogEntry>)
    ensures var all, ops := imputationLog + outlierLog + normalizationLog, Operations(imputationLog, outlierLog, normalizationLog);
      && SortedByTime(ops) && multiset(ops) == multiset(all)
      && (forall t :: StampedAt(ops, t) == StampedAt(all, t))
  {
    SortByTimeSpec(imputationLog + outlierLog + normalizationLog);
  }

  /** Each operation of the detailed log takes a time-stamp line and its description. */
  lemma DetailLinesSpec(ops: seq<LogEntry>, fmt: Formats)
    ensures |DetailLines(ops, fmt)| == 2 + 2 * |ops|
    ensures forall k :: 0 <= k < |ops| ==>
      && DetailLines(ops, fmt)[2 + 2 * k] == "[" + fmt.clock(ops[k].time) + "] "
      && DetailLines(ops, fmt)[3 + 2 * k] == KindDescription(ops[k], fmt)
  {
    AllOperationLinesSpec(ops, fmt);
    var body := AllOperationLines(ops, fmt);
    var lines := DetailLines(ops, fmt);
    forall k | 0 <= k < |ops|
      ensures lines[2 + 2 * k] == "[" + fmt.clock(ops[k].time) + "] " && lines[3 + 2 * k] == KindDescription(ops[k], fmt)
    {
      assert lines[2 + 2 * k] == body[2 * k] && lines[3 + 2 * k] == body[2 * k + 1];
    }
  }

  lemma PrefixOfConcat(a: seq<string>, b: seq<string>, n: nat)
    requires n <= |a|
    ensures (a + b)[..n] == a[..n]
  {
  }

  /**
   * The report opens with its header, a rule of 60 `=` around the title,
   * and the summary statistics, and closes with a blank line and that rule.
   */
  lemma ReportFrame(original: Dataset, cleaned: Dataset, v: ValidationResult,
                    imputationLog: seq<LogEntry>, outlierLog: seq<LogEntry>, normalizationLog: seq<LogEntry>,
                    fmt: Formats)
    requires ResultWellFormed(v)
    ensures var lines := ReportLines(original, cleaned, v, imputationLog, outlierLog, normalizationLog, fmt);
      && |lines| >= 15
      && lines[..11] == HeaderLines(fmt) + SummaryLines(|original|, |cleaned|)
      && lines[|lines| - 2..] == FooterLines()
  {
    var p1 := HeaderLines(fmt) + SummaryLines(|original|, |cleaned|);
    var p2 := p1 + IssueLines(v, fmt);
    var p3 := p2 + TypeLines(v);
    var p4 := p3 + TallyLines(Imputations, imputationLog);
    var p5 := p4 + TallyLines(Outliers, outlierLog);
    var p6 := p5 + TallyLines(Normalizations, normalizationLog);
    var p7 := p6 + DetailLines(Operations(imputationLog, outlierLog, normalizationLog), fmt);
    var lines := p7 + FooterLines();
    assert lines == ReportLines(original, cleaned, v, imputationLog, outlierLog, normalizationLog, fmt);
    assert |p1| == 11;
    PrefixOfConcat(p7, FooterLines(), 11);
    PrefixOfConcat(p6, DetailLines(Operations(imputationLog, outlierLog, normalizationLog), fmt), 11);
    PrefixOfConcat(p5, TallyLines(Normalizations, normalizationLog), 11);
    PrefixOfConcat(p4, TallyLines(Outliers, outlierLog), 11);
    PrefixOfConcat(p3, TallyLines(Imputations, imputationLog), 11);
    PrefixOfConcat(p2, TypeLines(v), 11);
    PrefixOfConcat(p1, IssueLines(v, fmt), 11);
    assert p1[..11] == p1;
    assert lines[|lines| - 2..] == FooterLines();
  }

  // ------------------------------------------------------------------ class

  class ReportGenerator {
    var reportLog: seq<string>

    constructor ()
      ensures reportLog == []
    {
      reportLog := [];
    }

    /** `generate_report`: the lines are built in order and joined with new lines. */
    method GenerateReport(original: Dataset, cleaned: Dataset, v: ValidationResult,
                          imputationLog: seq<LogEntry>, outlierLog: seq<LogEntry>, normalizationLog: seq<LogEntry>,
                          fmt: Formats) returns (text: string)
      requires ResultWellFormed(v)
      ensures text == Join(ReportLines(original, cleaned, v, imputationLog, outlierLog, normalizationLog, fmt), "\n")
    {
      var report := HeaderLines(fmt) + SummaryLines(|original|, |cleaned|);
      var lines := IssueSection(v, fmt);
      report := report + lines;
      lines := TypeSection(v);
      report := report + lines;
      lines := Summarize(Imputations, imputationLog);
      report := report + lines;
      lines := Summarize(Outliers, outlierLog);
      report := report + lines;
      lines := Summarize(Normalizations, normalizationLog);
      report := report + lines;
      var allOperations := imputationLog + outlierLog + normalizationLog;
      allOperations := SortByTime(allOperations);
      lines := DescribeAll(allOperations, fmt);
      report := report + (["DETAILED TRANSFORMATION LOG:", Repeat('-', 30)] + lines);
      report := report + FooterLines();
      text := Join(report, "\n");
    }

    /** The issues, one bullet each, when there are any. */
    static method IssueSection(v: ValidationResult, fmt: Formats) returns (lines: seq<string>)
      ensures lines == IssueLines(v, fmt)
    {
      lines := [];
      if v.issues != [] {
        var body := AppendBullets([], IssueTexts(v.issues, fmt));
        lines := Section("VALIDATION ISSUES:", 20, body);
      }
    }

    /** The column types, one bullet each, when the mapping is not empty. */
    static method TypeSection(v: ValidationResult) returns (lines: seq<string>)
      requires ResultWellFormed(v)
      ensures lines == TypeLines(v)
    {
      lines := [];
      if v.columnTypes.Some? && v.columnTypes.value.keys != [] {
        var body := AppendBullets([], TypeTexts(v.columnTypes.value));
        lines := Section("COLUMN TYPES:", 20, body);
      }
    }

    /** The `for` loop that appends one bullet per text. */
    static method AppendBullets(lines: seq<string>, texts: seq<string>) returns (r: seq<string>)
      ensures r == lines + Bullets(texts)
    {
      r := lines;
      for k := 0 to |texts|
        invariant r == lines + Bullets(texts[..k])
      {
        BulletsStep(texts, k);
        r := r + ["• " + texts[k]];
      }
      assert texts[..|texts|] == texts;
    }

    /** One summary section: the `defaultdict` tally of a log, then its lines. */
    static method Summarize(kind: Kind, log: seq<LogEntry>) returns (lines: seq<string>)
      ensures lines == TallyLines(kind, log)
    {
      if log == [] {
        return [];
      }
      var summary := CountMethods(log);
      TallySpec(log);
      var body := AppendBullets([], TallyTexts(kind, summary));
      lines := Section(KindTitle(kind), KindWidth(kind), body);
    }

    /** `summary[entry.get('method')] += 1` for each entry. */
    static method CountMethods(log: seq<LogEntry>) returns (summary: Dict<string, nat>)
      ensures summary == Tally(log)
    {
      summary := Empty();
      for k := 0 to |log|
        invariant summary == Tally(log[..k])
      {
        TallyStep(log, k);
        var m := Method(log[k]);
        var count := if m in summary.entries then summary.entries[m] else 0;
        summary := Put(summary, m, count + 1);
      }
      assert log[..|log|] == log;
    }

    /** The loop over `all_operations`: a time-stamp line, then the description. */
    static method DescribeAll(ops: seq<LogEntry>, fmt: Formats) returns (lines: seq<string>)
      ensures lines == AllOperationLines(ops, fmt)
    {
      lines := [];
      for k := 0 to |ops|
        invariant lines == AllOperationLines(ops[..k], fmt)
      {
        AllOperationLinesStep(ops, fmt, k);
        lines := lines + ["[" + fmt.clock(ops[k].time) + "] "];
        var d := Description(ops[k], fmt);
        if d.Some? {
          lines := lines + [d.value];
        }
      }
      assert ops[..|ops|] == ops;
    }
  }
}
