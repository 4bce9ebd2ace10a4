/**
 * The expense record and the read-only side of the tracker: selecting by category,
 * the day, week and month totals, the validation `add_expense` applies, the rows
 * `load_from_csv` accepts and the rows `save_to_csv` writes. Everything here is a
 * function of the ordered list of records.
 */
module Ledger {
  import opened Wrappers
  import opened Dates

  /** One expense. Records are values: the model has no shared record objects. */
  datatype Expense = Expense(amount: real, date: string, category: string, description: string)

  /** The invariant every mutation keeps: each stored amount is positive. */
  predicate AllPositive(es: seq<Expense>)
  {
    forall i :: 0 <= i < |es| ==> es[i].amount > 0.0
  }

  // ---------------------------------------------------------------------------
  // Sums and selections
  // ---------------------------------------------------------------------------

  /** The amounts added left to right, as Python's `sum` does. */
  function Sum(es: seq<Expense>): (r: real)
  {
    if es == [] then 0.0 else Sum(es[..|es| - 1]) + es[|es| - 1].amount
  }

  /** The records `keep` accepts, in their original order. */
  function Select(es: seq<Expense>, keep: Expense -> bool): (r: seq<Expense>)
    ensures |r| <= |es|
    ensures forall e :: e in r <==> e in es && keep(e)
  {
    if es == [] then []
    else
      var init := es[..|es| - 1];
      var last := es[|es| - 1];
      assert es == init + [last];
      Select(init, keep) + if keep(last) then [last] else []
  }

  lemma {:induction false} SumConcat(a: seq<Expense>, b: seq<Expense>)
    ensures Sum(a + b) == Sum(a) + Sum(b)
    decreases |b|
  {
    if b != [] {
      var b' := b[..|b| - 1];
      assert (a + b)[..|a + b| - 1] == a + b';
      assert (a + b)[|a + b| - 1] == b[|b| - 1];
      SumConcat(a, b');
    } else {
      assert a + b == a;
    }
  }

  lemma {:induction false} SelectConcat(a: seq<Expense>, b: seq<Expense>, keep: Expense -> bool)
    ensures Select(a + b, keep) == Select(a, keep) + Select(b, keep)
    decreases |b|
  {
    if b != [] {
      var b' := b[..|b| - 1];
      assert (a + b)[..|a + b| - 1] == a + b';
      assert (a + b)[|a + b| - 1] == b[|b| - 1];
      SelectConcat(a, b', keep);
      assert b == b' + [b[|b| - 1]];
    } else {
      assert a + b == a;
    }
  }

  /** Two tests that agree on every record select the same records. */
  lemma {:induction false} SelectSameTest(es: seq<Expense>, k1: Expense -> bool, k2: Expense -> bool)
    requires forall i :: 0 <= i < |es| ==> k1(es[i]) == k2(es[i])
    ensures Select(es, k1) == Select(es, k2)
  {
    if es != [] {
      SelectSameTest(es[..|es| - 1], k1, k2);
    }
  }

  /** Sum of positive amounts is non-negative and bounded by the sum of the whole list. */
  lemma {:induction false} SelectSumBounds(es: seq<Expense>, keep: Expense -> bool)
    requires AllPositive(es)
    ensures 0.0 <= Sum(Select(es, keep)) <= Sum(es)
  {
    if es != [] {
      var init := es[..|es| - 1];
      SelectSumBounds(init, keep);
      var last := es[|es| - 1];
      assert Select(es, keep) == Select(init, keep) + if keep(last) then [last] else [];
      SumConcat(Select(init, keep), if keep(last) then [last] else []);
      assert Sum([last]) == last.amount;
    }
  }

  // ---------------------------------------------------------------------------
  // filter_by_category
  // ---------------------------------------------------------------------------

  /** The records whose category equals `name` exactly, in their original order. */
  function FilterByCategory(es: seq<Expense>, name: string): (r: seq<Expense>)
    ensures forall e :: e in r <==> e in es && e.category == name
  {
    Select(es, (e: Expense) => e.category == name)
  }

  /** Filtering keeps order: the selection of a concatenation is the concatenation of selections. */
  lemma FilterByCategoryConcat(a: seq<Expense>, b: seq<Expense>, name: string)
    ensures FilterByCategory(a + b, name) == FilterByCategory(a, name) + FilterByCategory(b, name)
  {
    SelectConcat(a, b, (e: Expense) => e.category == name);
  }

  /** Filtering twice by the same name changes nothing. */
  lemma {:induction false} FilterByCategoryIdempotent(es: seq<Expense>, name: string)
    ensures FilterByCategory(FilterByCategory(es, name), name) == FilterByCategory(es, name)
  {
    if es != [] {
      var init := es[..|es| - 1];
      var last := es[|es| - 1];
      FilterByCategoryIdempotent(init, name);
      var tail := if last.category == name then [last] else [];
      assert FilterByCategory(es, name) == FilterByCategory(init, name) + tail;
      FilterByCategoryConcat(FilterByCategory(init, name), tail, name);
      assert FilterByCategory(tail, name) == tail by {
        if tail != [] {
          assert tail[..0] == [];
        }
      }
    }
  }

  // ---------------------------------------------------------------------------
  // total_expense_by_day
  // ---------------------------------------------------------------------------

  /** The sum of the amounts of the records whose date string equals `day`. */
  function DayTotal(es: seq<Expense>, day: string): (r: real)
    ensures (forall i :: 0 <= i < |es| ==> es[i].date != day) ==> r == 0.0
  {
    var selected := Select(es, (e: Expense) => e.date == day);
    assert selected != [] ==> selected[0] in es;
    Sum(selected)
  }

  /** Appending a record raises the day total by its amount exactly when its date string is `day`. */
  lemma DayTotalAppend(es: seq<Expense>, e: Expense, day: string)
    ensures DayTotal(es + [e], day) == DayTotal(es, day) + if e.date == day then e.amount else 0.0
  {
    var keep := (x: Expense) => x.date == day;
    SelectConcat(es, [e], keep);
    assert [e][..0] == [];
    SumConcat(Select(es, keep), Select([e], keep));
  }

  // ---------------------------------------------------------------------------
  // Date-parsing totals: total_expense_by_week and total_expense_by_month
  // ---------------------------------------------------------------------------

  datatype QueryError =
    | StartDateMalformed             // the week's start date does not parse
    | WeekEndOutOfRange              // the start plus seven days passes 9999-12-31
    | StoredDateMalformed(index: nat) // the first stored record whose date does not parse

  /** The index of the first record whose date does not parse, if any. */
  function FirstMalformedDate(es: seq<Expense>): (r: Option<nat>)
    ensures r.None? <==> forall i :: 0 <= i < |es| ==> ParseDate(es[i].date).Some?
    ensures r.Some? ==> r.value < |es| && ParseDate(es[r.value].date).None? &&
                        forall i :: 0 <= i < r.value ==> ParseDate(es[i].date).Some?
  {
    if es == [] then None
    else if ParseDate(es[0].date).None? then Some(0)
    else match FirstMalformedDate(es[1..])
      case None => None
      case Some(i) => Some(i + 1)
  }

  /** Whether a stored date lies in `[start, end)` under the calendar order. */
  predicate InWindow(start: Date, end: Date, text: string)
  {
    match ParseDate(text)
    case None => false
    case Some(d) => !Before(d, start) && Before(d, end)
  }

  /**
   * The total over the seven days from `startText`: the start must parse, the start
   * plus seven days must be a representable date, and every stored date must parse.
   */
  function WeekTotal(es: seq<Expense>, startText: string): (r: Result<real, QueryError>)
    ensures r.Ok? <==>
      ParseDate(startText).Some? && AddDays(ParseDate(startText).value, 7).Some? &&
      forall i :: 0 <= i < |es| ==> ParseDate(es[i].date).Some?
    ensures r == Err(StartDateMalformed) <==> ParseDate(startText).None?
  {
    match ParseDate(startText)
    case None => Err(StartDateMalformed)
    case Some(start) =>
      match AddDays(start, 7)
      case None => Err(WeekEndOutOfRange)
      case Some(end) =>
        match FirstMalformedDate(es)
        case Some(i) => Err(StoredDateMalformed(i))
        case None => Ok(Sum(Select(es, (e: Expense) => InWindow(start, end, e.date))))
  }

  /** Whether `text` parses to a day numbered in `[lo, lo + 7)`. */
  predicate InSevenDays(lo: int, text: string)
  {
    ParseDate(text).Some? && lo <= DayNumber(ParseDate(text).value) < lo + 7
  }

  /** The week window is the half-open range of seven day numbers starting at the start date. */
  lemma WindowIsSevenDays(start: Date, end: Date, text: string)
    requires ValidDate(start) && AddDays(start, 7) == Some(end)
    ensures InWindow(start, end, text) <==> InSevenDays(DayNumber(start), text)
  {
    AddDaysNumber(start, 7);
    if ParseDate(text).Some? {
      var d := ParseDate(text).value;
      BeforeIffSmallerDayNumber(d, start);
      BeforeIffSmallerDayNumber(d, end);
    }
  }

  /** When the week total succeeds it sums exactly the records dated in the seven days from the start. */
  lemma WeekTotalIsSevenDaySum(es: seq<Expense>, startText: string)
    requires WeekTotal(es, startText).Ok?
    ensures ParseDate(startText).Some?
    ensures WeekTotal(es, startText).value ==
            Sum(Select(es, (e: Expense) => InSevenDays(DayNumber(ParseDate(startText).value), e.date)))
  {
    var start := ParseDate(startText).value;
    var end := AddDays(start, 7).value;
    forall i | 0 <= i < |es|
      ensures InWindow(start, end, es[i].date) == InSevenDays(DayNumber(start), es[i].date)
    {
      WindowIsSevenDays(start, end, es[i].date);
    }
    SelectSameTest(es, (e: Expense) => InWindow(start, end, e.date), (e: Expense) => InSevenDays(DayNumber(start), e.date));
  }

  /** The week total fails exactly when the start, the end or some stored date is out of reach. */
  lemma WeekTotalFails(es: seq<Expense>, startText: string)
    ensures WeekTotal(es, startText).Err? <==>
      ParseDate(startText).None? ||
      DayNumber(ParseDate(startText).value) + 7 > MaxDayNumber ||
      exists i :: 0 <= i < |es| && ParseDate(es[i].date).None?
  {
    if ParseDate(startText).Some? {
      AddDaysNumber(ParseDate(startText).value, 7);
    }
  }

  /** Appending a record whose date parses keeps every stored date parsing. */
  lemma AppendKeepsDatesWellFormed(es: seq<Expense>, e: Expense)
    requires FirstMalformedDate(es).None? && ParseDate(e.date).Some?
    ensures FirstMalformedDate(es + [e]).None?
  {
    forall i | 0 <= i < |es + [e]| ensures ParseDate((es + [e])[i].date).Some? {
      if i < |es| { assert (es + [e])[i] == es[i]; }
    }
  }

  /** Appending a record with a well-formed date adds its amount iff it falls in the seven days. */
  lemma WeekTotalAppend(es: seq<Expense>, e: Expense, startText: string)
    requires WeekTotal(es, startText).Ok? && ParseDate(e.date).Some?
    ensures ParseDate(startText).Some? && WeekTotal(es + [e], startText).Ok?
    ensures WeekTotal(es + [e], startText).value ==
      WeekTotal(es, startText).value +
      if InSevenDays(DayNumber(ParseDate(startText).value), e.date) then e.amount else 0.0
  {
    var lo := DayNumber(ParseDate(startText).value);
    var keep := (x: Expense) => InSevenDays(lo, x.date);
    AppendKeepsDatesWellFormed(es, e);
    WeekTotalIsSevenDaySum(es, startText);
    WeekTotalIsSevenDaySum(es + [e], startText);
    SelectConcat(es, [e], keep);
    assert [e][..0] == [];
    SumConcat(Select(es, keep), Select([e], keep));
  }

  /** The start date is in its own week; the date seven days later is not. */
  lemma WeekBoundaries(start: Date, k: nat)
    requires ValidDate(start) && AddDays(start, k).Some?
    ensures InSevenDays(DayNumber(start), FormatDate(AddDays(start, k).value)) <==> k < 7
  {
    var d := AddDays(start, k).value;
    AddDaysNumber(start, k);
    FormatThenParse(d);
  }

  /** Whether `text` parses to a date in month `month` of year `year`. */
  predicate InMonth(text: string, month: int, year: int)
    ensures InMonth(text, month, year) ==> 1 <= month <= 12 && MinYear <= year <= MaxYear
    ensures InMonth(text, month, year) ==> ParseDate(text).Some?
  {
    match ParseDate(text)
    case None => false
    case Some(d) => d.month == month && d.year == year
  }

  /** The total over one calendar month; every stored date must parse. */
  function MonthTotal(es: seq<Expense>, month: int, year: int): (r: Result<real, QueryError>)
    ensures r.Err? <==> exists i :: 0 <= i < |es| && ParseDate(es[i].date).None?
  {
    match FirstMalformedDate(es)
    case Some(i) => Err(StoredDateMalformed(i))
    case None => Ok(Sum(Select(es, (e: Expense) => InMonth(e.date, month, year))))
  }

  /** Appending a record with a well-formed date adds its amount to its own month only. */
  lemma MonthTotalAppend(es: seq<Expense>, e: Expense, month: int, year: int)
    requires MonthTotal(es, month, year).Ok? && ParseDate(e.date).Some?
    ensures MonthTotal(es + [e], month, year).Ok?
    ensures MonthTotal(es + [e], month, year).value ==
      MonthTotal(es, month, year).value +
      if ParseDate(e.date).value.month == month && ParseDate(e.date).value.year == year then e.amount else 0.0
  {
    var keep := (x: Expense) => InMonth(x.date, month, year);
    AppendKeepsDatesWellFormed(es, e);
    SelectConcat(es, [e], keep);
    assert [e][..0] == [];
    SumConcat(Select(es, keep), Select([e], keep));
    var d := ParseDate(e.date).value;
    assert keep(e) == (d.month == month && d.year == year);
  }

  // ---------------------------------------------------------------------------
  // add_expense validation
  // ---------------------------------------------------------------------------

  datatype AddOutcome = Added | AmountNotPositive | DateMalformed | CategoryEmpty

  /** The first failing check, in the order amount, date, category; Added when all pass. */
  function CheckExpense(e: Expense): (r: AddOutcome)
    ensures r == Added <==> e.amount > 0.0 && ParseDate(e.date).Some? && e.category != []
    ensures r == AmountNotPositive <==> e.amount <= 0.0
    ensures r == DateMalformed <==> e.amount > 0.0 && ParseDate(e.date).None?
    ensures r == CategoryEmpty <==> e.amount > 0.0 && ParseDate(e.date).Some? && e.category == []
  {
    if e.amount <= 0.0 then AmountNotPositive
    else if ParseDate(e.date).None? then DateMalformed
    else if e.category == [] then CategoryEmpty
    else Added
  }

  /** A record that is added always raises its own day's total by its amount. */
  lemma AddedRaisesDayTotal(es: seq<Expense>, e: Expense)
    requires CheckExpense(e) == Added
    ensures DayTotal(es + [e], e.date) == DayTotal(es, e.date) + e.amount
    ensures e.amount > 0.0
  {
    DayTotalAppend(es, e, e.date);
  }

  // ---------------------------------------------------------------------------
  // update_expense indexing
  // ---------------------------------------------------------------------------

  /** Python list indexing: `index` names a position iff `-n <= index < n`, negatives counting from the end. */
  function ResolveIndex(index: int, n: nat): (r: Option<nat>)
    ensures r.Some? <==> -(n as int) <= index < n
    ensures r.Some? ==> r.value < n && (r.value == index || r.value == index + n)
  {
    if 0 <= index < n then Some(index)
    else if -(n as int) <= index < 0 then Some(index + n)
    else None
  }

  /**
   * How `update_expense` changes one record: each supplied field is taken iff it is
   * valid (a positive amount, a date that parses, a non-empty category; any
   * description), and every other field keeps its value.
   */
  predicate FieldsUpdated(before: Expense, after: Expense, amount: Option<real>, date: Option<string>,
                          category: Option<string>, description: Option<string>)
    ensures FieldsUpdated(before, after, amount, date, category, description) && before.amount > 0.0 ==>
              after.amount > 0.0
    ensures (FieldsUpdated(before, after, amount, date, category, description) &&
             amount.None? && date.None? && category.None? && description.None?) ==> after == before
  {
    after.amount == (if amount.Some? && amount.value > 0.0 then amount.value else before.amount) &&
    after.date == (if date.Some? && ParseDate(date.value).Some? then date.value else before.date) &&
    after.category == (if category.Some? && category.value != [] then category.value else before.category) &&
    after.description == (if description.Some? then description.value else before.description)
  }

  // ---------------------------------------------------------------------------
  // load_from_csv rows and save_to_csv rows
  // ---------------------------------------------------------------------------

  /** The record a four-field row yields, when its amount text parses to a positive number. */
  function AcceptRow(row: seq<string>, parseAmount: string -> Option<real>): (r: Option<Expense>)
    requires |row| == 4
    ensures r.Some? <==> parseAmount(row[0]).Some? && parseAmount(row[0]).value > 0.0
    ensures r.Some? ==> r.value == Expense(parseAmount(row[0]).value, row[1], row[2], row[3])
  {
    match parseAmount(row[0])
    case None => None
    case Some(a) => if a <= 0.0 then None else Some(Expense(a, row[1], row[2], row[3]))
  }

  predicate AllFourFields(rows: seq<seq<string>>)
  {
    forall i :: 0 <= i < |rows| ==> |rows[i]| == 4
  }

  /** The index of the first row that does not have exactly four fields, if any. */
  function FirstMalformedRow(rows: seq<seq<string>>): (r: Option<nat>)
    ensures r.None? <==> AllFourFields(rows)
    ensures r.Some? ==> r.value < |rows| && |rows[r.value]| != 4 &&
                        forall i :: 0 <= i < r.value ==> |rows[i]| == 4
  {
    if rows == [] then None
    else if |rows[0]| != 4 then Some(0)
    else match FirstMalformedRow(rows[1..])
      case None => None
      case Some(i) => Some(i + 1)
  }

  /** The records the accepted rows yield, in file order; rejected rows are skipped. */
  function AcceptedRows(rows: seq<seq<string>>, parseAmount: string -> Option<real>): (r: seq<Expense>)
    requires AllFourFields(rows)
    ensures |r| <= |rows|
    ensures AllPositive(r)
  {
    if rows == [] then []
    else
      var init := rows[..|rows| - 1];
      var more := AcceptRow(rows[|rows| - 1], parseAmount);
      AcceptedRows(init, parseAmount) + if more.Some? then [more.value] else []
  }

  lemma {:induction false} AcceptedRowsConcat(a: seq<seq<string>>, b: seq<seq<string>>, parseAmount: string -> Option<real>)
    requires AllFourFields(a) && AllFourFields(b)
    ensures AllFourFields(a + b)
    ensures AcceptedRows(a + b, parseAmount) == AcceptedRows(a, parseAmount) + AcceptedRows(b, parseAmount)
    decreases |b|
  {
    assert AllFourFields(a + b) by {
      forall i | 0 <= i < |a + b| ensures |(a + b)[i]| == 4 {
        if i >= |a| { assert (a + b)[i] == b[i - |a|]; }
      }
    }
    if b != [] {
      var b' := b[..|b| - 1];
      assert (a + b)[..|a + b| - 1] == a + b';
      assert (a + b)[|a + b| - 1] == b[|b| - 1];
      AcceptedRowsConcat(a, b', parseAmount);
    } else {
      assert a + b == a;
    }
  }

  /** A rejected row contributes nothing: loading goes on with the rows after it. */
  lemma SkippedRowContinues(before: seq<seq<string>>, bad: seq<string>, after: seq<seq<string>>,
                            parseAmount: string -> Option<real>)
    requires AllFourFields(before) && AllFourFields(after) && |bad| == 4
    requires parseAmount(bad[0]).None? || parseAmount(bad[0]).value <= 0.0
    ensures AllFourFields(before + [bad] + after)
    ensures AcceptedRows(before + [bad] + after, parseAmount) ==
            AcceptedRows(before, parseAmount) + AcceptedRows(after, parseAmount)
  {
    assert AllFourFields([bad]);
    assert AcceptedRows([bad], parseAmount) == [] by {
      assert [bad][..0] == [];
      assert AcceptRow(bad, parseAmount).None?;
    }
    AcceptedRowsConcat(before, [bad], parseAmount);
    var mid := before + [bad];
    assert AcceptedRows(mid, parseAmount) == AcceptedRows(before, parseAmount);
    AcceptedRowsConcat(mid, after, parseAmount);
  }

  const Header: seq<string> := ["Amount", "Date", "Category", "Description"]

  /** The rows `save_to_csv` writes: the header, then one row per record in list order. */
  function SaveRows(es: seq<Expense>, formatAmount: real -> string): (rows: seq<seq<string>>)
    ensures |rows| == |es| + 1 && rows[0] == Header
    ensures AllFourFields(rows[1..])
  {
    [Header] + seq(|es|, i requires 0 <= i < |es| =>
                          [formatAmount(es[i].amount), es[i].date, es[i].category, es[i].description])
  }

  /**
   * Saving and loading back gives the same list, provided the amount text written
   * for each record reads back as the same positive amount.
   */
  lemma {:induction false} SaveThenLoad(es: seq<Expense>, formatAmount: real -> string,
                                        parseAmount: string -> Option<real>)
    requires AllPositive(es)
    requires forall i :: 0 <= i < |es| ==> parseAmount(formatAmount(es[i].amount)) == Some(es[i].amount)
    ensures AcceptedRows(SaveRows(es, formatAmount)[1..], parseAmount) == es
  {
    if es != [] {
      var init := es[..|es| - 1];
      SaveThenLoad(init, formatAmount, parseAmount);
      var rows := SaveRows(es, formatAmount)[1..];
      assert rows[..|rows| - 1] == SaveRows(init, formatAmount)[1..];
      assert es == init + [es[|es| - 1]];
    }
  }
}
