/**
 * The validator on concrete values: the date and email shapes on the
 * strings its tests use, and the typing of small columns.
 */
module ValidatorExamples {
  import opened Text
  import opened Cells
  import opened Validator

  /** The three accepted shapes, and two strings of other shapes. */
  lemma DateExamples()
    ensures IsValidDate("2023-04-01")
    ensures IsValidDate("04/01/2023")
    ensures IsValidDate("04-01-2023")
    ensures !IsValidDate("2023/04/01")
    ensures !IsValidDate("not-a-date")
  {
  }

  /**
   * Day-first `01-04-2023` has the month-first shape and is accepted, and
   * nothing checks that a month or a day is in range.
   */
  lemma DatesAreShapesOnly()
    ensures IsValidDate("01-04-2023")
    ensures IsValidDate("99/99/9999")
    ensures IsValidDate("2023-04-01\n")
  {
    assert "2023-04-01\n"[..10] == "2023-04-01";
  }

  /** A split of the pattern's shape makes the address valid. */
  lemma ValidBySplit(s: string, i: int, j: int)
    requires EmailSplit(s, i, j)
    ensures IsValidEmail(s)
  {
    EmailShapeIff(s);
  }

  lemma AliceValid()
    ensures IsValidEmail("alice@email.com")
  {
    var s := "alice@email.com";
    assert s[..5] == "alice" && s[6..11] == "email" && s[12..] == "com";
    ValidBySplit(s, 5, 11);
  }

  lemma BobValid()
    ensures IsValidEmail("bob@company.co.uk")
  {
    var s := "bob@company.co.uk";
    assert s[..3] == "bob";
    assert s[4..14] == "company.co";
    assert s[15..] == "uk";
    ValidBySplit(s, 3, 14);
  }

  lemma TestUserValid()
    ensures IsValidEmail("test.user@domain.org")
  {
    var s := "test.user@domain.org";
    assert s[..9] == "test.user" && s[10..16] == "domain" && s[17..] == "org";
    ValidBySplit(s, 9, 16);
  }

  /** Without an '@' there is no address. */
  lemma NoAtInvalid(s: string)
    requires forall k :: 0 <= k < |s| ==> s[k] != '@'
    ensures !IsValidEmail(s)
  {
  }

  lemma NotAnEmailInvalid()
    ensures !IsValidEmail("not-an-email")
  {
    NoAtInvalid("not-an-email");
  }

  lemma DotsOnlyInvalid()
    ensures !IsValidEmail("alice.email.com")
  {
    NoAtInvalid("alice.email.com");
  }

  /** Nothing follows the '@' of `alice@`, and nothing precedes the one of `@email.com`. */
  lemma EmptyPartsInvalid()
    ensures !IsValidEmail("alice@")
    ensures !IsValidEmail("@email.com")
  {
    var s, t := "alice@", "@email.com";
    assert FirstIndexOf(t, '@', '@') == 0;
    assert FirstIndexOf(s, '@', '@') == 5;
  }

  // ------------------------------------------------------- classification

  lemma FirstIndexOfAbsent(s: string, c: char, alt: char)
    requires forall i :: 0 <= i < |s| ==> s[i] != c && s[i] != alt
    ensures FirstIndexOf(s, c, alt) == |s|
  {
  }

  /** A string of digits is a number. */
  lemma DigitsParse(s: string)
    requires s != [] && AllDigits(s)
    ensures ParseNum(s).Some?
  {
    TrimNoSpaceEnds(s);
    FirstIndexOfAbsent(s, 'e', 'E');
    FirstIndexOfAbsent(s, '.', '.');
    assert s[..|s|] == s;
  }

  lemma MantissaLetterStart(m: string)
    requires m == [] || IsLetter(m[0])
    ensures ParseMantissa(m).None?
  {
  }

  /** A string that starts with a letter is not a number. */
  lemma LetterStartNoParse(s: string)
    requires s != [] && IsLetter(s[0])
    ensures ParseNum(s).None?
  {
    TrimKeepsFirst(s);
    var t := Trim(s);
    var k := FirstIndexOf(t, 'e', 'E');
    if k == |t| {
      MantissaLetterStart(t);
    } else {
      MantissaLetterStart(t[..k]);
    }
  }

  /** A string shorter than a date is not one, stripped or not. */
  lemma ShortNotDate(s: string)
    requires |s| < 10
    ensures !DateText(Str(s)) && !DateCell(Str(s))
  {
    var t := Trim(s);
    assert |t| < 10;
    assert !IsValidDate(t);
  }

  lemma {:induction false} CountWhereNone(p: Cell -> bool, cells: seq<Cell>)
    requires forall i :: 0 <= i < |cells| ==> !p(cells[i])
    ensures CountWhere(p, cells) == 0
    decreases |cells|
  {
    if cells != [] {
      CountWhereNone(p, cells[..|cells| - 1]);
    }
  }

  lemma CountWhereSnoc(p: Cell -> bool, cells: seq<Cell>, c: Cell)
    ensures CountWhere(p, cells + [c]) == CountWhere(p, cells) + (if p(c) then 1 else 0)
  {
    assert (cells + [c])[..|cells|] == cells;
  }

  /** A cell of digits is filled, counts as numeric text and is no date. */
  lemma DigitsCell(s: string)
    requires s != [] && AllDigits(s) && |s| < 10
    ensures Filled(Str(s)) && NumericText(Str(s)) && !NotNumeric(Str(s)) && !DateText(Str(s))
  {
    TrimNoSpaceEnds(s);
    DigitsParse(s);
    ShortNotDate(s);
  }

  /** A cell that starts with a letter is filled and is not numeric. */
  lemma LetterCell(s: string)
    requires s != [] && IsLetter(s[0])
    ensures Filled(Str(s)) && !NumericText(Str(s)) && NotNumeric(Str(s))
  {
    TrimKeepsFirst(s);
    LetterStartNoParse(s);
    LetterStartNoParse(Trim(s));
  }

  lemma CountFour(p: Cell -> bool, a: Cell, b: Cell, c: Cell, d: Cell)
    ensures CountWhere(p, [a, b, c, d]) ==
      (if p(a) then 1 else 0) + (if p(b) then 1 else 0) + (if p(c) then 1 else 0) + (if p(d) then 1 else 0)
  {
    CountWhereSnoc(p, [], a);
    CountWhereSnoc(p, [a], b);
    CountWhereSnoc(p, [a, b], c);
    CountWhereSnoc(p, [a, b, c], d);
    assert [] + [a] == [a] && [a] + [b] == [a, b] && [a, b] + [c] == [a, b, c] && [a, b, c] + [d] == [a, b, c, d];
  }

  /** The type of a column of filled cells, from its two counts. */
  lemma ClassifyFilled(column: seq<Cell>, numeric: nat, dates: nat)
    requires column != [] && NonEmpty(column) == column
    requires CountWhere(NumericText, column) == numeric && CountWhere(DateText, column) == dates
    ensures Classify(column) ==
      if 5 * numeric > 4 * |column| then Numeric
      else if 5 * dates > 4 * |column| then Datetime
      else Categorical
  {
  }

  lemma FilledFour(a: Cell, b: Cell, c: Cell, d: Cell)
    requires Filled(a) && Filled(b) && Filled(c) && Filled(d)
    ensures NonEmpty([a, b, c, d]) == [a, b, c, d]
  {
    NonEmptySnoc([], a);
    NonEmptySnoc([a], b);
    NonEmptySnoc([a, b], c);
    NonEmptySnoc([a, b, c], d);
    assert [] + [a] == [a] && [a] + [b] == [a, b] && [a, b] + [c] == [a, b, c] && [a, b, c] + [d] == [a, b, c, d];
  }

  /** Three numbers in four filled cells do not make a numeric column: 3/4 is not above 0.8. */
  lemma ThreeOfFourNotNumeric(a: Cell, b: Cell, c: Cell, d: Cell)
    requires Filled(a) && Filled(b) && Filled(c) && Filled(d)
    requires NumericText(a) && NumericText(b) && !NumericText(c) && NumericText(d)
    requires !DateText(a) && !DateText(b) && !DateText(c) && !DateText(d)
    ensures Classify([a, b, c, d]) == Categorical
  {
    FilledFour(a, b, c, d);
    CountFour(NumericText, a, b, c, d);
    CountFour(DateText, a, b, c, d);
    ClassifyFilled([a, b, c, d], 3, 0);
  }

  lemma AgeCell(s: string)
    requires s == "29" || s == "32" || s == "28"
    ensures Filled(Str(s)) && NumericText(Str(s)) && !DateText(Str(s))
  {
    DigitsCell(s);
  }

  lemma AbcCell()
    ensures Filled(Str("abc")) && !NumericText(Str("abc")) && !DateText(Str("abc"))
  {
    LetterCell("abc");
    ShortNotDate("abc");
  }

  /** The ages 29, 32, abc, 28 are categorical. */
  lemma AgesWithTextCategorical()
    ensures Classify([Str("29"), Str("32"), Str("abc"), Str("28")]) == Categorical
  {
    AgeCell("29"); AgeCell("32"); AgeCell("28");
    AbcCell();
    ThreeOfFourNotNumeric(Str("29"), Str("32"), Str("abc"), Str("28"));
  }

  lemma {:induction false} CountWhereAll(p: Cell -> bool, cells: seq<Cell>)
    requires forall i :: 0 <= i < |cells| ==> p(cells[i])
    ensures CountWhere(p, cells) == |cells|
    decreases |cells|
  {
    if cells != [] {
      CountWhereAll(p, cells[..|cells| - 1]);
    }
  }

  /** A test that fails on exactly one cell counts all the others. */
  lemma {:induction false} CountWhereAllBut(p: Cell -> bool, cells: seq<Cell>, j: nat)
    requires j < |cells| && !p(cells[j])
    requires forall i :: 0 <= i < |cells| && i != j ==> p(cells[i])
    ensures CountWhere(p, cells) == |cells| - 1
    decreases |cells|
  {
    var front := cells[..|cells| - 1];
    if j == |cells| - 1 {
      CountWhereAll(p, front);
    } else {
      CountWhereAllBut(p, front, j);
    }
  }

  lemma {:induction false} ReportedNone(flag: Cell -> bool, problem: Problem, header: string, column: seq<Cell>)
    requires forall i :: 0 <= i < |column| ==> !flag(column[i])
    ensures Reported(flag, problem, header, column) == []
    decreases |column|
  {
    if column != [] {
      ReportedNone(flag, problem, header, column[..|column| - 1]);
    }
  }

  /** A test that accepts exactly one cell reports that cell alone, with its 1-based row. */
  lemma {:induction false} ReportedOnly(flag: Cell -> bool, problem: Problem, header: string, column: seq<Cell>, j: nat)
    requires j < |column| && flag(column[j])
    requires forall i :: 0 <= i < |column| && i != j ==> !flag(column[i])
    ensures Reported(flag, problem, header, column) == [CellIssue(problem, column[j], header, j + 1)]
    decreases |column|
  {
    var front := column[..|column| - 1];
    if j == |column| - 1 {
      ReportedNone(flag, problem, header, front);
    } else {
      ReportedOnly(flag, problem, header, front, j);
    }
  }

  /** The Age column of the validator's test data, 29, 32, 28, abc, 30, 35. */
  function FixtureAges(): seq<Cell> {
    [Str("29"), Str("32"), Str("28"), Str("abc"), Str("30"), Str("35")]
  }

  /** Every cell of the Age column is filled and no date, and all but `abc`, at index 3, are numbers. */
  lemma FixtureAgeCell(i: nat)
    requires i < |FixtureAges()|
    ensures Filled(FixtureAges()[i]) && !DateText(FixtureAges()[i])
    ensures NumericText(FixtureAges()[i]) <==> i != 3
    ensures NotNumeric(FixtureAges()[i]) <==> i == 3
  {
    var ages := FixtureAges();
    if i == 3 {
      assert ages[i] == Str("abc");
      AbcCell();
      LetterCell("abc");
    } else {
      var s := if i == 0 then "29" else if i == 1 then "32" else if i == 2 then "28" else if i == 4 then "30" else "35";
      assert ages[i] == Str(s);
      DigitsCell(s);
    }
  }

  /**
   * Five numbers in the six filled cells of the test data's Age column are
   * above 80%, so the column is numeric, and `abc` is reported as not
   * numeric at row 4.
   */
  lemma FixtureAgeColumn()
    ensures Classify(FixtureAges()) == Numeric
    ensures ColumnIssues("Age", FixtureAges()) == [CellIssue(NonNumeric, Str("abc"), "Age", 4)]
  {
    var ages := FixtureAges();
    forall i | 0 <= i < |ages|
      ensures Filled(ages[i]) && !DateText(ages[i])
      ensures NumericText(ages[i]) <==> i != 3
      ensures NotNumeric(ages[i]) <==> i == 3
    {
      FixtureAgeCell(i);
    }
    NonEmptyAll(ages);
    CountWhereAllBut(NumericText, ages, 3);
    CountWhereNone(DateText, ages);
    ClassifyFilled(ages, 5, 0);
    ReportedOnly(NotNumeric, NonNumeric, "Age", ages, 3);
  }
}
