/**
 * Concrete scenarios: the day and week totals on small ledgers, and an update that
 * changes two fields of the second record only.
 */
module Scenarios {
  import opened Wrappers
  import opened Dates
  import opened Ledger
  import opened Tracker

  /** Three records, the first two on `day` and the third not: the day total is the first two amounts. */
  lemma DayOfThree(day: string, a: Expense, b: Expense, c: Expense)
    requires a.date == day && b.date == day && c.date != day
    ensures DayTotal([a, b, c], day) == a.amount + b.amount
  {
    DayTotalAppend([], a, day);
    assert [] + [a] == [a];
    DayTotalAppend([a], b, day);
    assert [a] + [b] == [a, b];
    DayTotalAppend([a, b], c, day);
    assert [a, b] + [c] == [a, b, c];
  }

  /** Two records on 2024-11-01 (50 and 30) and one on 2024-11-02 (20): the day total is 80. */
  lemma DayExample()
    ensures DayTotal([Expense(50.0, "2024-11-01", "Groceries", "a"), Expense(30.0, "2024-11-01", "Food", "b"),
                      Expense(20.0, "2024-11-02", "Utilities", "c")], "2024-11-01") == 80.0
  {
    var other := "2024-11-02";
    assert other != "2024-11-01" by { assert other[9] != "2024-11-01"[9]; }
    DayOfThree("2024-11-01", Expense(50.0, "2024-11-01", "Groceries", "a"), Expense(30.0, "2024-11-01", "Food", "b"),
               Expense(20.0, other, "Utilities", "c"));
  }

  /** A string that is the canonical text of a valid date parses to that date. */
  lemma ParsesAs(d: Date, s: string)
    requires ValidDate(d)
    requires s ==
      [DigitChar(d.year / 1000), DigitChar(d.year / 100 % 10), DigitChar(d.year / 10 % 10), DigitChar(d.year % 10),
       '-', DigitChar(d.month / 10), DigitChar(d.month % 10), '-', DigitChar(d.day / 10), DigitChar(d.day % 10)]
    ensures ParseDate(s) == Some(d)
  {
    FormatDateChars(d);
    FormatThenParse(d);
  }

  /** The dates of the week scenario parse, and the second is seven days after the first. */
  lemma WeekScenarioDates()
    ensures ParseDate("2024-11-01") == Some(Date(2024, 11, 1))
    ensures ParseDate("2024-11-08") == Some(Date(2024, 11, 8))
    ensures DayNumber(Date(2024, 11, 8)) == DayNumber(Date(2024, 11, 1)) + 7
    ensures WeekTotal([], "2024-11-01") == Ok(0.0)
  {
    ParsesAs(Date(2024, 11, 1), "2024-11-01");
    ParsesAs(Date(2024, 11, 8), "2024-11-08");
    DayNumberRange(Date(2024, 11, 8));
    AddDaysNumber(Date(2024, 11, 1), 7);
  }

  /** A week over two records, the first inside the seven days and the second outside, totals the first amount. */
  lemma WeekOfTwo(startText: string, a: Expense, b: Expense)
    requires WeekTotal([], startText).Ok?
    requires ParseDate(a.date).Some? && ParseDate(b.date).Some?
    requires ParseDate(startText).Some?
    requires InSevenDays(DayNumber(ParseDate(startText).value), a.date)
    requires !InSevenDays(DayNumber(ParseDate(startText).value), b.date)
    ensures WeekTotal([a, b], startText) == Ok(a.amount)
  {
    WeekTotalAppend([], a, startText);
    assert [] + [a] == [a];
    WeekTotalAppend([a], b, startText);
    assert [a] + [b] == [a, b];
  }

  /** Records on 2024-11-01 (50) and 2024-11-08 (99): the week from 2024-11-01 totals 50. */
  lemma WeekExample()
    ensures WeekTotal([Expense(50.0, "2024-11-01", "Groceries", "a"), Expense(99.0, "2024-11-08", "Food", "b")], "2024-11-01") == Ok(50.0)
  {
    WeekScenarioDates();
    WeekOfTwo("2024-11-01", Expense(50.0, "2024-11-01", "Groceries", "a"), Expense(99.0, "2024-11-08", "Food", "b"));
  }

  /** A week starting 9999-12-25 would end past 9999-12-31, so its total fails. */
  lemma WeekPastLastDay(es: seq<Expense>)
    ensures WeekTotal(es, "9999-12-25") == Err(WeekEndOutOfRange)
  {
    var start := Date(9999, 12, 25);
    ParsesAs(start, "9999-12-25");
    AddDaysNumber(start, 7);
  }

  /** The two records of the update scenario pass every check of `add_expense`. */
  lemma ScenarioRecordsValid(groceries: Expense, bill: Expense)
    requires groceries == Expense(50.0, "2024-11-01", "Groceries", "Bought groceries")
    requires bill == Expense(20.0, "2024-11-02", "Utilities", "Paid electricity bill")
    ensures CheckExpense(groceries) == Added && CheckExpense(bill) == Added
  {
    ParsesAs(Date(2024, 11, 1), groceries.date);
    ParsesAs(Date(2024, 11, 2), bill.date);
  }

  /** Updating amount and category of record 1 of two leaves its date and description and record 0 alone. */
  method UpdateExample()
  {
    var t := new ExpenseTracker();
    var groceries := Expense(50.0, "2024-11-01", "Groceries", "Bought groceries");
    var bill := Expense(20.0, "2024-11-02", "Utilities", "Paid electricity bill");
    ScenarioRecordsValid(groceries, bill);
    var added := t.AddExpense(groceries);
    added := t.AddExpense(bill);
    assert t.expenses == [groceries, bill];
    var found := t.UpdateExpense(1, Some(25.0), None, Some("Bills"), None);
    assert found;
    assert t.expenses[0] == groceries;
    assert t.expenses[1] == Expense(25.0, "2024-11-02", "Bills", "Paid electricity bill");
    var missing := t.UpdateExpense(2, Some(30.0), None, None, None);
    assert !missing;
    var last := t.UpdateExpense(-1, Some(-3.0), None, None, Some("Bill"));
    assert last;
    assert t.expenses[1] == Expense(25.0, "2024-11-02", "Bills", "Bill");
    var removed := t.DeleteExpense(-1);
    assert removed == None && |t.expenses| == 2;
  }
}
