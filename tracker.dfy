/**
 * The tracker object: an ordered list of expense records, changed in place by
 * adding, deleting, updating and loading rows from a CSV file.
 */
module Tracker {
  import opened Wrappers
  import opened Dates
  import opened Ledger

  /** What opening the CSV file finds: no file, an unreadable one, or its rows already split into fields. */
  datatype CsvFile = Missing | Unreadable | Present(lines: seq<seq<string>>)

  /**
   * How a load ends. The two Crashed outcomes stand for exceptions the loader does
   * not catch: an empty file has no header row to skip, and a row without exactly
   * four fields cannot be unpacked; rows appended before the crash stay appended.
   */
  datatype LoadOutcome =
    | Loaded
    | FileMissing
    | ReadFailed
    | CrashedOnEmptyFile
    | CrashedOnRow(index: nat)

  class ExpenseTracker {
    var expenses: seq<Expense>

    /** Every stored amount is positive. */
    ghost predicate Valid()
      reads this
    {
      AllPositive(expenses)
    }

    constructor ()
      ensures expenses == [] && Valid()
    {
      expenses := [];
    }

    /** Appends `e` at the end when it passes the checks, in the order amount, date, category. */
    method AddExpense(e: Expense) returns (outcome: AddOutcome)
      modifies this
      ensures outcome == CheckExpense(e)
      ensures expenses == if outcome == Added then old(expenses) + [e] else old(expenses)
      ensures old(Valid()) ==> Valid()
    {
      if e.amount <= 0.0 {
        return AmountNotPositive;
      }
      if ParseDate(e.date).None? {
        return DateMalformed;
      }
      if e.category == [] {
        return CategoryEmpty;
      }
      expenses := expenses + [e];
      return Added;
    }

    /** Removes the record at `index` when `0 <= index < |expenses|`; any other index changes nothing. */
    method DeleteExpense(index: int) returns (removed: Option<Expense>)
      modifies this
      ensures 0 <= index < |old(expenses)| ==>
        removed == Some(old(expenses)[index]) &&
        |expenses| == |old(expenses)| - 1 &&
        expenses[..index] == old(expenses)[..index] &&
        expenses[index..] == old(expenses)[index + 1..] &&
        multiset(expenses) + multiset{old(expenses)[index]} == multiset(old(expenses))
      ensures !(0 <= index < |old(expenses)|) ==> removed == None && expenses == old(expenses)
      ensures old(Valid()) ==> Valid()
    {
      if 0 <= index < |expenses| {
        var x := expenses[index];
        assert expenses == expenses[..index] + [x] + expenses[index + 1..];
        expenses := expenses[..index] + expenses[index + 1..];
        removed := Some(x);
      } else {
        removed := None;
      }
    }

    /**
     * Changes the record at `index`, read with Python's indexing (negative indices
     * count from the end), one supplied field at a time; an invalid field is left
     * as it was and does not undo the others. An index out of range changes nothing.
     */
    method UpdateExpense(index: int, amount: Option<real>, date: Option<string>,
                         category: Option<string>, description: Option<string>) returns (found: bool)
      modifies this
      ensures found <==> -|old(expenses)| <= index < |old(expenses)|
      ensures |expenses| == |old(expenses)|
      ensures !found ==> expenses == old(expenses)
      ensures found ==>
        var k := ResolveIndex(index, |old(expenses)|).value;
        FieldsUpdated(old(expenses)[k], expenses[k], amount, date, category, description) &&
        forall j :: 0 <= j < |expenses| && j != k ==> expenses[j] == old(expenses)[j]
      ensures old(Valid()) ==> Valid()
    {
      var slot := ResolveIndex(index, |expenses|);
      if slot.None? {
        return false;
      }
      var k := slot.value;
      var x := expenses[k];
      if amount.Some? {
        if amount.value > 0.0 {
          x := x.(amount := amount.value);
        }
      }
      if date.Some? {
        if ParseDate(date.value).Some? {
          x := x.(date := date.value);
        }
      }
      if category.Some? {
        if category.value != [] {
          x := x.(category := category.value);
        }
      }
      if description.Some? {
        x := x.(description := description.value);
      }
      expenses := expenses[k := x];
      return true;
    }

    /**
     * Reads a CSV file: skips its header row and appends, in file order, a record
     * for each row whose amount parses to a positive number; other rows are skipped
     * and the rows after them are still read. The list is extended, not replaced.
     */
    method LoadFromCsv(file: CsvFile, parseAmount: string -> Option<real>) returns (outcome: LoadOutcome)
      modifies this
      ensures file.Missing? ==> outcome == FileMissing && expenses == old(expenses)
      ensures file.Unreadable? ==> outcome == ReadFailed && expenses == old(expenses)
      ensures file == Present([]) ==> outcome == CrashedOnEmptyFile && expenses == old(expenses)
      ensures file.Present? && file.lines != [] ==>
        var rows := file.lines[1..];
        match FirstMalformedRow(rows)
        case None =>
          outcome == Loaded && expenses == old(expenses) + AcceptedRows(rows, parseAmount)
        case Some(k) =>
          AllFourFields(rows[..k]) &&
          outcome == CrashedOnRow(k) && expenses == old(expenses) + AcceptedRows(rows[..k], parseAmount)
      ensures old(Valid()) ==> Valid()
    {
      match file {
        case Missing =>
          return FileMissing;
        case Unreadable =>
          return ReadFailed;
        case Present(lines) =>
          if lines == [] {
            return CrashedOnEmptyFile;
          }
          var rows := lines[1..];
          for i := 0 to |rows|
            invariant forall j :: 0 <= j < i ==> |rows[j]| == 4
            invariant expenses == old(expenses) + AcceptedRows(rows[..i], parseAmount)
            invariant old(Valid()) ==> Valid()
          {
            var row := rows[i];
            assert rows[..i + 1] == rows[..i] + [row];
            assert rows[..i + 1][..i] == rows[..i];
            if |row| != 4 {
              return CrashedOnRow(i);
            }
            var amount := parseAmount(row[0]);
            if amount.None? || amount.value <= 0.0 {
              continue;
            }
            expenses := expenses + [Expense(amount.value, row[1], row[2], row[3])];
          }
          assert rows[..|rows|] == rows;
          return Loaded;
      }
    }
  }
}
