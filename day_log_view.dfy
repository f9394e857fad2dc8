/**
 * The day view of `src/screens/log-view/LogView.tsx`: it loads the rows of the
 * selected day into its `logEntries` state, shows their calorie total and lists
 * each row as `"<food name or Manual Entry>, <n>cal"`.
 */
module DayLogView {
  import opened Options
  import opened JsNumbers
  import opened Time
  import opened Records
  import opened CalorieTools
  import opened Queries

  /** The `reduce` of the total: a left fold that adds each row's calories to `acc`. */
  function Fold(acc: real, rows: seq<JoinedRow>): real
    decreases rows
  {
    if rows == [] then acc else Fold(acc + CaloriesForLogEntry(rows[0]), rows[1..])
  }

  /** `logEntries.reduce((acc, current) => acc + caloriesForLogEntry(current), 0)`. */
  function Total(rows: seq<JoinedRow>): real {
    Fold(0.0, rows)
  }

  /** The `calorie_count` the row mapping attaches to each row, in row order. */
  function CalorieCounts(rows: seq<JoinedRow>): (counts: seq<real>)
    ensures |counts| == |rows|
    ensures forall i :: 0 <= i < |rows| ==> counts[i] == CaloriesForLogEntry(rows[i])
  {
    if rows == [] then [] else [CaloriesForLogEntry(rows[0])] + CalorieCounts(rows[1..])
  }

  /** The arithmetic sum of a list of numbers. */
  function Sum(xs: seq<real>): real {
    if xs == [] then 0.0 else xs[0] + Sum(xs[1..])
  }

  lemma {:induction false} FoldIsSum(acc: real, rows: seq<JoinedRow>)
    ensures Fold(acc, rows) == acc + Sum(CalorieCounts(rows))
    decreases rows
  {
    if rows != [] {
      FoldIsSum(acc + CaloriesForLogEntry(rows[0]), rows[1..]);
      assert CalorieCounts(rows)[1..] == CalorieCounts(rows[1..]);
    }
  }

  /**
   * The total shown is the sum of the `calorie_count` values listed below it,
   * and an empty day totals 0.
   */
  lemma TotalIsSumOfCounts(rows: seq<JoinedRow>)
    ensures Total(rows) == Sum(CalorieCounts(rows))
    ensures rows == [] ==> Total(rows) == 0.0
  {
    FoldIsSum(0.0, rows);
  }

  lemma {:induction false} SumAppend(xs: seq<real>, ys: seq<real>)
    ensures Sum(xs + ys) == Sum(xs) + Sum(ys)
  {
    if xs == [] {
      assert xs + ys == ys;
    } else {
      assert (xs + ys)[1..] == xs[1..] + ys;
      SumAppend(xs[1..], ys);
    }
  }

  lemma CalorieCountsAppend(a: seq<JoinedRow>, b: seq<JoinedRow>)
    ensures CalorieCounts(a + b) == CalorieCounts(a) + CalorieCounts(b)
  {
  }

  /** The total of two runs of rows is the sum of their totals, whatever the order of rows inside them. */
  lemma TotalAppend(a: seq<JoinedRow>, b: seq<JoinedRow>)
    ensures Total(a + b) == Total(a) + Total(b)
    ensures Total(a + b) == Total(b + a)
  {
    TotalIsSumOfCounts(a + b);
    TotalIsSumOfCounts(b + a);
    TotalIsSumOfCounts(a);
    TotalIsSumOfCounts(b);
    CalorieCountsAppend(a, b);
    CalorieCountsAppend(b, a);
    SumAppend(CalorieCounts(a), CalorieCounts(b));
    SumAppend(CalorieCounts(b), CalorieCounts(a));
  }

  /** `logEntries?.reduce(...)`: no number at all when the read returned no data. */
  function DisplayedTotal(data: Option<seq<JoinedRow>>): (shown: Option<real>)
    ensures shown.None? <==> data.None?
    ensures data.Some? ==> shown.value == Sum(CalorieCounts(data.value))
  {
    match data
    case None => None
    case Some(rows) =>
      TotalIsSumOfCounts(rows);
      Some(Total(rows))
  }

  /** The name part of the row text: `food_name ?? "Manual Entry"`. */
  function RowName(row: JoinedRow): string {
    if row.foodName.Some? then row.foodName.value else "Manual Entry"
  }

  /** The primary text of a row: `${food_name ?? "Manual Entry"}, ${calorie_count}cal`. */
  function RowText(row: JoinedRow): string {
    RowName(row) + ", " + NumText(CaloriesForLogEntry(row)) + "cal"
  }

  /**
   * The row text starts with the food name whenever one is present, even an
   * empty one (`??` tests for null only), and with "Manual Entry" otherwise.
   */
  lemma RowTextName(row: JoinedRow)
    ensures row.foodName.Some? ==> RowText(row)[..|row.foodName.value|] == row.foodName.value
    ensures row.foodName.None? ==> RowText(row)[..12] == "Manual Entry"
  {
    var rest := ", " + NumText(CaloriesForLogEntry(row)) + "cal";
    assert RowText(row) == RowName(row) + rest;
    PrefixOfConcat(RowName(row), rest);
  }

  /** The description plays no part in the row text. */
  lemma RowTextIgnoresDescription(row: JoinedRow, description: Option<string>)
    ensures RowText(row) == RowText(row.(entry := row.entry.(description := description)))
  {
    var row' := row.(entry := row.entry.(description := description));
    assert CaloriesForLogEntry(row) == CaloriesForLogEntry(row') by {
      DependsOnThreeFields(row, row');
    }
  }

  /** The state of the day view: the loaded rows and the selected day. */
  class DayLogScreen {
    var logEntries: Option<seq<JoinedRow>>
    var filterDate: Day

    /** Mounting: no rows yet, and the filter is the start of the current day. */
    constructor(now: Instant)
      ensures logEntries == Some([]) && filterDate == DayOf(now)
      ensures StartOfDay(filterDate) <= now <= EndOfDay(filterDate)
    {
      logEntries := Some([]);
      filterDate := DayOf(now);
      DayBounds(now);
    }

    /** The total line as shown for the current state. */
    function ShownTotal(): Option<real>
      reads this
    {
      DisplayedTotal(logEntries)
    }

    /**
     * `getLogEntries`: reads the selected day's range from the store; a failed
     * read leaves `data` null and the state becomes null.
     */
    method GetLogEntries(db: Database, failed: bool)
      modifies this
      ensures filterDate == old(filterDate)
      ensures logEntries == (if failed then None else Some(FetchDay(db, filterDate)))
      ensures !failed ==> ShownTotal() == Some(Sum(CalorieCounts(FetchDay(db, filterDate))))
    {
      if failed {
        logEntries := None;
      } else {
        logEntries := Some(FetchDay(db, filterDate));
        TotalIsSumOfCounts(FetchDay(db, filterDate));
      }
    }

    /**
     * The date picker's `onChange`: the filter becomes the picked day, and the
     * effect that depends on it reloads the rows for that day.
     */
    method ChangeDate(day: Day, db: Database, failed: bool)
      modifies this
      ensures filterDate == day
      ensures logEntries == (if failed then None else Some(FetchDay(db, day)))
    {
      filterDate := day;
      GetLogEntries(db, failed);
    }
  }
}
