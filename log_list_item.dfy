/**
 * One entry of the day list, `LogViewListItem.tsx`: its two lines of text and
 * the menu and confirmation flags behind the delete flow.
 */
module LogListItem {
  import opened Options
  import opened JsNumbers
  import opened Time
  import opened Records
  import opened UiActions
  import opened Queries

  /**
   * The props the list passes to each item. The component declares `id` as a
   * string; it is always given the numeric row id, which is what the model keeps.
   */
  datatype ItemProps = ItemProps(text: string, calorieCount: real, timestamp: Instant, id: int)

  /** The primary text: the label as given. */
  function PrimaryText(props: ItemProps): string {
    props.text
  }

  /**
   * The secondary text `"<calorie_count>cal, <time>"`; `displayTime` is the
   * locale rendering of the timestamp.
   */
  function SecondaryText(props: ItemProps, displayTime: string): (text: string)
    ensures text == NumText(props.calorieCount) + "cal, " + displayTime
  {
    NumText(props.calorieCount) + "cal, " + displayTime
  }

  /** The calorie figure can be read back from the secondary text exactly. */
  lemma SecondaryTextCarriesCalories(props: ItemProps, displayTime: string, k: nat)
    requires k <= MaxFractionDigits && ScaledIsInteger(props.calorieCount, k)
    ensures var n := NumText(props.calorieCount);
      SecondaryText(props, displayTime)[..|n|] == n && Number(n) == Finite(props.calorieCount)
  {
    var n := NumText(props.calorieCount);
    var rest := "cal, " + displayTime;
    assert SecondaryText(props, displayTime) == n + rest;
    PrefixOfConcat(n, rest);
    NumberOfNumText(props.calorieCount, k);
  }

  /** The delete payload: the id and the timestamp exactly as received. */
  function DeletePayload(props: ItemProps): (p: LogEntryDelete)
    ensures p.id == props.id && p.timestamp == props.timestamp
  {
    LogEntryDelete(props.id, props.timestamp)
  }

  /**
   * A row deleted from the list is removed from the store and from the cache
   * partition of its own day, and every other day's cached rows stay right,
   * provided every stored row carrying the id is on the row's day.
   */
  lemma DeleteFromListKeepsCacheCoherent(
    isoDate: Day -> string, partitions: map<QueryKey, Partition>, db: Database, props: ItemProps)
    requires InjectiveDates(isoDate) && Coherent(isoDate, partitions, db)
    requires StampedOn(db.logEntries, props.id, DayOf(props.timestamp))
    ensures var req := DeleteRequest(DeletePayload(props));
      Coherent(isoDate, partitions - {InvalidationKey(isoDate, props.timestamp)}, Apply(db, req, 0, "", ""))
    ensures LogEntriesKey(isoDate, DayOf(props.timestamp)) !in partitions - {InvalidationKey(isoDate, props.timestamp)}
  {
    InvalidationRestoresCoherence(isoDate, partitions, db, DeleteRequest(DeletePayload(props)), props.timestamp, 0, "", "");
  }

  /** The menu and confirmation flags of one entry row. */
  class LogItem {
    const props: ItemProps
    var menuOpen: bool
    var deleteConfirmationOpen: bool

    constructor(props: ItemProps)
      ensures this.props == props && !menuOpen && !deleteConfirmationOpen
    {
      this.props := props;
      menuOpen, deleteConfirmationOpen := false, false;
    }

    method OpenMenu()
      modifies this
      ensures menuOpen && deleteConfirmationOpen == old(deleteConfirmationOpen)
    {
      menuOpen := true;
    }

    method CloseMenu()
      modifies this
      ensures !menuOpen && deleteConfirmationOpen == old(deleteConfirmationOpen)
    {
      menuOpen := false;
    }

    /** `handleDelete`: clears the menu anchor and opens the confirmation. */
    method ChooseDelete() returns (actions: seq<UiAction>)
      modifies this
      ensures !menuOpen && deleteConfirmationOpen && actions == []
    {
      menuOpen := false;
      deleteConfirmationOpen := true;
      actions := [];
    }

    /** Cancel in the confirmation: closes it without any mutation. */
    method CancelDelete() returns (actions: seq<UiAction>)
      modifies this
      ensures !deleteConfirmationOpen && menuOpen == old(menuOpen) && actions == []
    {
      deleteConfirmationOpen := false;
      actions := [];
    }

    /** `runDelete`: closes the confirmation and calls the delete mutation once with `{id, timestamp}`. */
    method ConfirmDelete() returns (actions: seq<UiAction>)
      modifies this
      ensures old(deleteConfirmationOpen) ==> actions == [DeleteLogEntry(DeletePayload(props))]
      ensures !old(deleteConfirmationOpen) ==> actions == []
      ensures !deleteConfirmationOpen && menuOpen == old(menuOpen)
    {
      if deleteConfirmationOpen {
        deleteConfirmationOpen := false;
        actions := [DeleteLogEntry(DeletePayload(props))];
      } else {
        actions := [];
      }
    }
  }
}
