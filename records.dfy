/**
 * Record shapes of the calorie tracker: the `foods` and `log_entries` rows,
 * the joined row a day read returns, and the write payloads the forms build.
 */
module Records {
  import opened Options
  import opened JsNumbers
  import opened Time

  /** The `food_types` enumeration: 'by_weight' or 'fixed_serving'. */
  datatype FoodType = ByWeight | FixedServing

  /**
   * A catalogue food. `kind` is None when the stored `type` column is null
   * (the column is nullable in the database).
   */
  datatype Food = Food(
    id: string,
    caloriesP100: Option<real>,
    servingGrams: Option<real>,
    caloriesFixed: Option<real>,
    kind: Option<FoodType>,
    name: string,
    description: string)

  /** A stored `log_entries` row. */
  datatype LogEntry = LogEntry(
    id: int,
    timestamp: Instant,
    description: Option<string>,
    caloriesOverride: Option<real>,
    foodId: Option<string>,
    amount: Option<real>,
    createdAt: string,
    userId: string)

  /**
   * A `log_entries` row as the day read returns it: the row's own columns plus
   * the referenced food's `name` and `calories_p100`, aliased `food_name` and
   * `food_calories_p100`; both are null when the row has no food or the food is gone.
   */
  datatype JoinedRow = JoinedRow(entry: LogEntry, foodName: Option<string>, foodCaloriesP100: Option<real>)

  /**
   * The ISO text an insert sends as its timestamp: the text of an instant, or
   * the blank text `''` that replaces the null `toISO()` gives for an invalid
   * DateTime.
   */
  datatype IsoStamp = IsoOf(instant: Instant) | BlankIso

  /**
   * The insert payload for `log_entries`. Optional keys are None when absent;
   * `calories_override` carries whatever `Number(text)` produced.
   */
  datatype LogEntryInsert = LogEntryInsert(
    timestamp: IsoStamp,
    caloriesOverride: Option<JsNum>,
    description: Option<string>,
    foodId: Option<string>,
    amount: Option<real>)

  /** The payload of the update mutation: `{id, timestamp, description?, calories_override?}`. */
  datatype LogEntryUpdate = LogEntryUpdate(
    id: int,
    timestamp: Instant,
    description: Option<string>,
    caloriesOverride: Option<JsNum>)

  /** The payload of the delete mutation: `{id, timestamp}`. */
  datatype LogEntryDelete = LogEntryDelete(id: int, timestamp: Instant)

  /**
   * The insert payload for `foods`. The numeric columns carry the form's text
   * unchanged; the store converts it.
   */
  datatype FoodInsert = FoodInsert(
    name: string,
    kind: FoodType,
    caloriesP100: Option<string>,
    servingGrams: Option<string>,
    caloriesFixed: Option<string>,
    description: string)

  /**
   * The number a JSON request body carries for a payload number: NaN and the
   * infinities serialise as null.
   */
  function StoredNumber(n: Option<JsNum>): Option<real> {
    match n
    case Some(Finite(v)) => Some(v)
    case _ => None
  }
}
