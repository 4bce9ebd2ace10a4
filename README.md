# ExpenseTracker, modelled in Dafny

A model of `ExpenseTracker` (`src/expense_tracker.py`), a personal expense ledger.
The tracker keeps an ordered list of expense records (amount, date text, category,
description). It adds records after validating them, deletes and updates them by
index, loads rows from a CSV file, and answers queries: the records of one category
and the totals for a day, a seven-day week and a calendar month.

Files:

- `wrappers.dfy`: `Option` and `Result`.
- `dates.dfy` (module `Dates`): what the tracker reads a date string as. This covers
  the canonical `YYYY-MM-DD` form on the proleptic Gregorian calendar, years 1 to 9999,
  as Python's `datetime` has them. It also gives the day number of a date (0001-01-01
  is day 1, as `toordinal` counts), the next day, and adding whole days. Adding days
  fails past 9999-12-31.
- `ledger.dfy` (module `Ledger`): the `Expense` record as a value, and the read-only
  queries as functions of the list. It also holds the validation `add_expense`
  applies, Python list indexing as `update_expense` uses it, the rows `load_from_csv`
  accepts and the rows `save_to_csv` writes.
- `tracker.dfy` (module `Tracker`): class `ExpenseTracker`. Its one field is
  `expenses: seq<Expense>`. Its methods change that list as the source's methods do.
  Each method's `ensures` gives the whole new list, the outcome in place of the printed
  message, and the invariant that every stored amount is positive.
- `scenarios.dfy` (module `Scenarios`): concrete ledgers. They show the day total, the
  week window, a week that runs past the last date, and a client of the class.

Amounts are `real`. Turning CSV text into a number (`float`) is a parameter
`parseAmount: string -> Option<real>`. Turning a number into text on saving (`str`)
is a parameter `formatAmount: real -> string`. A CSV file arrives already split into
fields (`CsvFile`).

Points where the code is easy to misread; the model follows the code:

- `update_expense` reads the record with Python indexing. Any index in `[-len, len)`
  is accepted, with negative indices counting from the end. Only
  `delete_expense` insists on `0 <= index < len`.
- A CSV row without exactly four fields is not skipped. Unpacking it raises an
  exception that the loader does not catch (`CrashedOnRow`). Rows read before it stay
  appended.
- An empty CSV file (no header row) likewise raises an uncaught exception
  (`CrashedOnEmptyFile`).
- The week total also fails when the start date plus seven days passes 9999-12-31
  (`WeekEndOutOfRange`), as `datetime` arithmetic does.
- `add_expense`, `save_to_csv` and `load_from_csv` are each defined twice in the class.
  The later definitions (lines 90, 109, 122) replace the earlier ones, so only those
  are modelled.

## Model

| member | source | states |
|---|---|---|
| `Dates.ParseDate` | src/expense_tracker.py:97 | a date string is accepted only when it names a valid calendar date (month 1-12, day within the month's length, leap years included, year 1-9999) |
| `Dates.FormatThenParse` | src/expense_tracker.py:97 | every valid date is read back from its canonical `YYYY-MM-DD` text |
| `Dates.ParseThenFormat` | src/expense_tracker.py:97 | an accepted string is exactly the canonical text of the date it yields, so one date has one accepted spelling |
| `Dates.BeforeIffSmallerDayNumber` | src/expense_tracker.py:80 | comparing two dates field by field, as `datetime` does, agrees in both directions with comparing their day numbers |
| `Dates.DayNumberInjective` | src/expense_tracker.py:80 | two valid dates with the same day number are the same date |
| `Dates.DayNumberRange` | src/expense_tracker.py:78 | day numbers of valid dates run from 1 to 3652059, and only 9999-12-31 has the largest |
| `Dates.DayNumber` | src/expense_tracker.py:80 | the ordinal of a valid date (0001-01-01 is day 1), which lies after every day of the earlier years and within the days of its own year |
| `Dates.NextDay` | src/expense_tracker.py:78 | the following day is a valid, later date; there is none only after 9999-12-31 |
| `Dates.NextDayNumber` | src/expense_tracker.py:78 | the next day, across month and year ends and February 29, has day number one more |
| `Dates.AddDays` | src/expense_tracker.py:78 | the start plus n days, as `start + timedelta(days=n)`; when it exists it is a valid date, and it is missing past 9999-12-31 |
| `Dates.AddDaysNumber` | src/expense_tracker.py:78 | adding n days succeeds exactly when the day number stays within 3652059, and then adds n to the day number |
| `Ledger.Select` | src/expense_tracker.py:63 | the records a test keeps are exactly the records of the list that pass it, never more than the list holds |
| `Ledger.FilterByCategory` | src/expense_tracker.py:61-63 | the result holds exactly the records whose category equals the name, by exact string equality |
| `Ledger.FilterByCategoryConcat` | src/expense_tracker.py:63 | filtering keeps the list's order: a concatenation filters to the concatenation of the filtered parts |
| `Ledger.FilterByCategoryIdempotent` | src/expense_tracker.py:63 | filtering an already filtered list by the same name changes nothing |
| `Ledger.SelectSumBounds` | src/expense_tracker.py:72 | when every amount is positive, any total over selected records lies between 0 and the total of the whole list |
| `Ledger.DayTotalAppend` | src/expense_tracker.py:70-73 | appending a record raises the day total by its amount exactly when its date string equals the day, and leaves it otherwise |
| `Ledger.DayTotal` | src/expense_tracker.py:70-73 | the total of the amounts of the records whose date string equals the day exactly; it is 0 when no record has that date string |
| `Ledger.AddedRaisesDayTotal` | src/expense_tracker.py:90-107 | a record `add_expense` accepts has a positive amount and raises its own day's total by exactly that amount |
| `Ledger.FirstMalformedDate` | src/expense_tracker.py:80 | finds the first record whose date does not parse (where the week and month totals stop), or reports that all parse |
| `Ledger.WeekTotal` | src/expense_tracker.py:75-81 | succeeds exactly when the start parses, the start plus seven days is a representable date and every stored date parses; a start that does not parse is reported as such |
| `Ledger.WindowIsSevenDays` | src/expense_tracker.py:77-80 | `start <= date < start + 7 days` holds exactly for dates whose day number is in the half-open range [n, n + 7) of the start's number n |
| `Ledger.WeekTotalIsSevenDaySum` | src/expense_tracker.py:75-81 | a successful week total is the sum of the amounts of the records dated in the seven days from the start |
| `Ledger.WeekTotalFails` | src/expense_tracker.py:77-80 | the week total fails exactly when the start does not parse, the start plus seven days passes 9999-12-31, or some stored date does not parse |
| `Ledger.WeekTotalAppend` | src/expense_tracker.py:79-80 | appending a record with a well-formed date adds its amount to the week total exactly when it falls in the seven days |
| `Ledger.WeekBoundaries` | src/expense_tracker.py:78-80 | the date k days after the start is counted in its week exactly when k < 7; the start itself is in, the date seven days later is out |
| `Ledger.InMonth` | src/expense_tracker.py:86-87 | a stored date matches a month and year only when it parses, so a month outside 1-12 or a year outside 1-9999 matches nothing |
| `Ledger.MonthTotal` | src/expense_tracker.py:83-88 | the month total fails exactly when some stored date does not parse |
| `Ledger.MonthTotalAppend` | src/expense_tracker.py:85-87 | appending a record with a well-formed date adds its amount to the total of its own month and year only |
| `Ledger.CheckExpense` | src/expense_tracker.py:90-104 | a record passes iff amount > 0, the date parses and the category is non-empty; otherwise it names the first failing check, in the order amount, date, category |
| `Ledger.FieldsUpdated` | src/expense_tracker.py:150-170 | the per-field rule of `update_expense`: a record that had a positive amount keeps a positive amount, and with no field supplied the record is unchanged |
| `Ledger.ResolveIndex` | src/expense_tracker.py:149 | an index names a record iff `-len <= index < len`, and then it is the index itself or, for a negative index, the index plus len |
| `Ledger.AcceptRow` | src/expense_tracker.py:130-139 | a four-field row yields a record iff its amount text parses to a positive number; the record keeps date, category and description verbatim |
| `Ledger.FirstMalformedRow` | src/expense_tracker.py:129-130 | finds the first row that does not have exactly four fields, or reports that all have four |
| `Ledger.AcceptedRows` | src/expense_tracker.py:129-139 | the records loaded from the rows, never more than there are rows, all with positive amounts |
| `Ledger.AcceptedRowsConcat` | src/expense_tracker.py:129-139 | rows are handled in file order and independently: loading a concatenation loads each part in turn |
| `Ledger.SkippedRowContinues` | src/expense_tracker.py:131-137 | a row whose amount does not parse or is not positive adds nothing, and the rows after it are still loaded |
| `Ledger.SaveRows` | src/expense_tracker.py:115-117 | the saved rows are the header `Amount,Date,Category,Description`, then one four-field row per record, in list order |
| `Ledger.SaveThenLoad` | src/expense_tracker.py:109-139 | loading the rows saved from a list of positive-amount records gives back the same list, when each amount's text reads back as that amount |
| `Tracker.ExpenseTracker.constructor` | src/expense_tracker.py:17-18 | a new tracker has an empty list |
| `Tracker.ExpenseTracker.AddExpense` | src/expense_tracker.py:90-107 | appends the record at the end iff it passes the checks, else leaves the list unchanged; reports the first failing check; keeps every amount positive |
| `Tracker.ExpenseTracker.DeleteExpense` | src/expense_tracker.py:31-36 | for `0 <= index < len`, removes exactly that record, returns it, keeps the others in order; any other index, negative ones included, changes nothing |
| `Tracker.ExpenseTracker.UpdateExpense` | src/expense_tracker.py:146-174 | never changes the length; for an index in `[-len, len)` changes only the record there, taking each supplied field iff valid and keeping the rest; otherwise changes nothing |
| `Tracker.ExpenseTracker.LoadFromCsv` | src/expense_tracker.py:122-144 | a missing or unreadable file leaves the list unchanged; otherwise appends the accepted rows after the header in file order, stopping with a crash outcome at an empty file or at the first row without four fields |
| `Scenarios.DayExample` | src/expense_tracker.py:70-73 | records of 50 and 30 on 2024-11-01 and 20 on 2024-11-02 give a 2024-11-01 total of 80 |
| `Scenarios.WeekExample` | src/expense_tracker.py:75-81 | a record on 2024-11-08 falls outside the week starting 2024-11-01, which totals 50 |
| `Scenarios.WeekPastLastDay` | src/expense_tracker.py:77-78 | the week starting 9999-12-25 fails because its end is not a representable date |
| `Scenarios.ScenarioRecordsValid` | src/expense_tracker.py:181-182 | the two sample records pass every check of `add_expense` |

## Left out

- Printed messages and `view_expenses` (lines 24-29) are output only. Each operation returns an outcome value instead.
- File I/O, `csv.reader`/`csv.writer` quoting and escaping, and the default path derived from `__file__` are left out. A file is `Missing`, `Unreadable` (failure when opening it) or its rows already split into fields. An I/O failure in the middle of reading, and every failure of `save_to_csv`, are not modelled.
- Floating point is not modelled. Amounts are exact reals, so sums do not round. `float()` and `str()` are the parameters `parseAmount` and `formatAmount`. For example, Python's `float("nan")` passes the `amount <= 0` test; the model says nothing about any particular parser.
- Dates.ParseDate: accepts only the canonical `YYYY-MM-DD` form. `strptime("%Y-%m-%d")` also accepts some shorter spellings, such as one-digit months and days; the model rejects those.
- The first definitions of `add_expense`, `save_to_csv` and `load_from_csv` (lines 20-22, 38-46, 48-60) are dead code and are not modelled. The unused `Category` class (lines 12-14) is not modelled either.
- The `__main__` demo (lines 176-193) is not modelled. `Scenarios.UpdateExample` is a client of the class in the same spirit.
- Records are values. The source stores `Expense` objects, so one object added twice would be changed at both positions by one update; the model does not capture that aliasing.
- Python's dynamic typing is not modelled. For example, an `amount` of a non-numeric type passed to `update_expense` is outside the model; the optional arguments are `Option` values.
- The queries `filter_by_category` and the three totals are functions of the list rather than members of the class, since they only read it.
