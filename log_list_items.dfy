/**
 * `LogListItems`: every row of the day read becomes one list item carrying the
 * row's columns, its resolved `calorie_count` and its display label (`label`, here `text`).
 */
module LogListItems {
  import opened Options
  import opened Records
  import opened CalorieTools

  const ManualEntry: string := "Manual Entry"

  /**
   * The display label: the description when it is truthy, else the food name
   * when truthy, else "Manual Entry". The label is never empty and is one of
   * those three texts.
   */
  function Label(row: JoinedRow): (text: string)
    ensures text != ""
    ensures text == ManualEntry
         || (row.entry.description.Some? && text == row.entry.description.value)
         || (row.foodName.Some? && text == row.foodName.value)
  {
    if row.entry.description.Some? && row.entry.description.value != "" then
      row.entry.description.value
    else if row.foodName.Some? && row.foodName.value != "" then
      row.foodName.value
    else
      ManualEntry
  }

  /** A rendered list entry: the row spread unchanged, plus two computed fields. */
  datatype ListItem = ListItem(row: JoinedRow, calorieCount: real, text: string)

  function ItemFor(row: JoinedRow): ListItem {
    ListItem(row, CaloriesForLogEntry(row), Label(row))
  }

  /**
   * The `map` over the fetched rows: exactly one item per row, in row order,
   * none dropped, each carrying its own row.
   */
  function ListItems(rows: seq<JoinedRow>): (items: seq<ListItem>)
    ensures |items| == |rows|
    ensures forall i :: 0 <= i < |rows| ==>
      items[i].row == rows[i]
      && items[i].calorieCount == CaloriesForLogEntry(rows[i])
      && items[i].text == Label(rows[i])
  {
    if rows == [] then [] else [ItemFor(rows[0])] + ListItems(rows[1..])
  }

  /** `logEntries?.map(...)`: no list at all when the read produced no data. */
  function RenderedItems(data: Option<seq<JoinedRow>>): Option<seq<ListItem>> {
    match data
    case None => None
    case Some(rows) => Some(ListItems(rows))
  }

  /** A non-empty description is the label, whatever the food name. */
  lemma DescriptionFirst(row: JoinedRow)
    requires row.entry.description.Some? && row.entry.description.value != ""
    ensures Label(row) == row.entry.description.value
  {
  }

  /** An empty or missing description falls through to the food name when it is non-empty. */
  lemma FoodNameSecond(row: JoinedRow)
    requires row.entry.description.None? || row.entry.description.value == ""
    requires row.foodName.Some? && row.foodName.value != ""
    ensures Label(row) == row.foodName.value
  {
  }

  /** With neither a description nor a food name the label is "Manual Entry"; "" counts as neither. */
  lemma ManualEntryLast(row: JoinedRow)
    requires row.entry.description.None? || row.entry.description.value == ""
    requires row.foodName.None? || row.foodName.value == ""
    ensures Label(row) == ManualEntry
  {
  }

  /** An empty-string description labels a row exactly as a missing one does. */
  lemma EmptyDescriptionFallsThrough(row: JoinedRow)
    requires row.entry.description == Some("")
    ensures Label(row) == Label(row.(entry := row.entry.(description := None)))
  {
  }
}
