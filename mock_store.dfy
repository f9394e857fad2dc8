/**
 * The in-memory stand-in for the store, `createMockDevSupabaseClient`: two
 * tables of loosely typed records, seeded from copies of `mockFoods` and
 * `mockLogEntries`, with `select` (plus `eq` and `order`), `insert`,
 * `update(...).eq` and `delete().eq`. The tables are arrays the client changes
 * in place; here they are the `seq` fields of the class `MockClient`.
 */
module MockStore {
  import opened Options
  import opened JsNumbers

  /** A JavaScript primitive as it can appear in a record. */
  datatype Value = Undefined | Null | Bool(b: bool) | Num(n: JsNum) | Text(s: string)

  /** A record: property names to values; a missing property reads as undefined. */
  type Record = map<string, Value>

  function Get(r: Record, key: string): Value {
    if key in r then r[key] else Undefined
  }

  // ---------------------------------------------------------------------------
  // JavaScript operators on values
  // ---------------------------------------------------------------------------

  /** `===`: same kind and same value; NaN equals nothing, itself included. */
  predicate StrictEquals(a: Value, b: Value) {
    match (a, b)
    case (Num(x), Num(y)) => x != NaN && x == y
    case _ => a == b
  }

  /** JavaScript truthiness of a value. */
  predicate ValueTruthy(v: Value) {
    match v
    case Undefined => false
    case Null => false
    case Bool(b) => b
    case Num(n) => n.Infinity? || (n.Finite? && n.value != 0.0)
    case Text(s) => s != ""
  }

  /** The ToNumber conversion of a primitive. */
  function ToNumeric(v: Value): JsNum {
    match v
    case Undefined => NaN
    case Null => Finite(0.0)
    case Bool(b) => Finite(if b then 1.0 else 0.0)
    case Num(n) => n
    case Text(s) => Number(s)
  }

  /** `>` on two numbers; any comparison with NaN is false. */
  predicate NumGreater(a: JsNum, b: JsNum) {
    match (a, b)
    case (NaN, _) => false
    case (_, NaN) => false
    case (Infinity(na), Infinity(nb)) => !na && nb
    case (Infinity(na), Finite(_)) => !na
    case (Finite(_), Infinity(nb)) => nb
    case (Finite(x), Finite(y)) => x > y
  }

  /** `<` on two strings: code unit by code unit, a proper prefix first. */
  predicate TextLess(a: string, b: string) {
    if b == [] then false
    else if a == [] then true
    else if a[0] != b[0] then a[0] < b[0]
    else TextLess(a[1..], b[1..])
  }

  /** `a > b` on two primitives: strings compare as text, anything else as numbers. */
  predicate Greater(a: Value, b: Value) {
    if a.Text? && b.Text? then TextLess(b.s, a.s) else NumGreater(ToNumeric(a), ToNumeric(b))
  }

  /** `Math.max` of two numbers: NaN if either is NaN. */
  function Max2(a: JsNum, b: JsNum): JsNum {
    if a == NaN || b == NaN then NaN
    else if NumGreater(b, a) then b
    else a
  }

  /** `Math.max(...xs)`: -Infinity for no arguments, NaN as soon as one is NaN. */
  function MaxOf(xs: seq<JsNum>): JsNum {
    if xs == [] then Infinity(true) else Max2(xs[0], MaxOf(xs[1..]))
  }

  /** `n + 1`. */
  function PlusOne(n: JsNum): JsNum {
    match n
    case Finite(x) => Finite(x + 1.0)
    case _ => n
  }

  // ---------------------------------------------------------------------------
  // The table operations as functions of the rows
  // ---------------------------------------------------------------------------

  /** `data.filter(item => item[column] === value)`. */
  function FilterEq(rows: seq<Record>, column: string, value: Value): (r: seq<Record>)
    ensures |r| <= |rows|
    ensures forall x :: x in r <==> x in rows && StrictEquals(Get(x, column), value)
  {
    if rows == [] then []
    else if StrictEquals(Get(rows[0], column), value) then [rows[0]] + FilterEq(rows[1..], column, value)
    else FilterEq(rows[1..], column, value)
  }

  /** The filter keeps table order: filtering a concatenation concatenates the filtered parts. */
  lemma {:induction false} FilterEqAppend(a: seq<Record>, b: seq<Record>, column: string, value: Value)
    ensures FilterEq(a + b, column, value) == FilterEq(a, column, value) + FilterEq(b, column, value)
  {
    if a == [] {
      assert a + b == b;
    } else {
      assert (a + b)[1..] == a[1..] + b;
      FilterEqAppend(a[1..], b, column, value);
    }
  }

  /** `findIndex(item => item[column] === value)`: the first match, or -1. */
  function FindIndex(rows: seq<Record>, column: string, value: Value): (i: int)
    ensures -1 <= i < |rows|
    ensures i >= 0 ==> StrictEquals(Get(rows[i], column), value)
    ensures forall j :: 0 <= j < |rows| && (i < 0 || j < i) ==> !StrictEquals(Get(rows[j], column), value)
  {
    if rows == [] then -1
    else if StrictEquals(Get(rows[0], column), value) then 0
    else
      var k := FindIndex(rows[1..], column, value);
      if k < 0 then -1 else k + 1
  }

  /** `item.id || 0`, as `Math.max` then converts it to a number. */
  function IdOrZero(r: Record): JsNum {
    if ValueTruthy(Get(r, "id")) then ToNumeric(Get(r, "id")) else Finite(0.0)
  }

  function IdsOf(rows: seq<Record>): (ids: seq<JsNum>)
    ensures |ids| == |rows|
    ensures forall i :: 0 <= i < |rows| ==> ids[i] == IdOrZero(rows[i])
  {
    if rows == [] then [] else [IdOrZero(rows[0])] + IdsOf(rows[1..])
  }

  /** `Math.max(...tableData.map(item => item.id || 0)) + 1`. */
  function NewId(rows: seq<Record>): JsNum {
    PlusOne(MaxOf(IdsOf(rows)))
  }

  /** The row `insert` pushes: the values, with `id` and `created_at` set over them. */
  function NewRow(rows: seq<Record>, values: Record, now: string): Record {
    values + map["id" := Num(NewId(rows)), "created_at" := Text(now)]
  }

  /** The table after `insert(values)`: one row more at the end, the earlier rows as they were. */
  function InsertedRows(rows: seq<Record>, values: Record, now: string): (r: seq<Record>)
    ensures |r| == |rows| + 1 && r[..|rows|] == rows
    ensures Get(r[|rows|], "id") == Num(NewId(rows)) && Get(r[|rows|], "created_at") == Text(now)
    ensures forall k :: k != "id" && k != "created_at" ==> Get(r[|rows|], k) == Get(values, k)
  {
    rows + [NewRow(rows, values, now)]
  }

  /**
   * The table after `update(values).eq(column, value)`: the first matching row
   * takes every property of `values` (`{...row, ...values}`); no other row changes.
   */
  function UpdatedRows(rows: seq<Record>, values: Record, column: string, value: Value): (r: seq<Record>)
    ensures |r| == |rows|
    ensures FindIndex(rows, column, value) < 0 ==> r == rows
    ensures forall j :: 0 <= j < |rows| && j != FindIndex(rows, column, value) ==> r[j] == rows[j]
    ensures var i := FindIndex(rows, column, value);
      i >= 0 ==> forall k :: Get(r[i], k) == (if k in values then values[k] else Get(rows[i], k))
  {
    var i := FindIndex(rows, column, value);
    if i < 0 then rows else rows[i := rows[i] + values]
  }

  /**
   * The table after `delete().eq(column, value)`: only the first matching row is
   * removed and the others keep their order.
   */
  function DeletedRows(rows: seq<Record>, column: string, value: Value): (r: seq<Record>)
    ensures FindIndex(rows, column, value) < 0 ==> r == rows
    ensures var i := FindIndex(rows, column, value);
      i >= 0 ==> (|r| == |rows| - 1 && r[..i] == rows[..i] && r[i..] == rows[i + 1..]
                  && multiset(r) + multiset{rows[i]} == multiset(rows))
  {
    var i := FindIndex(rows, column, value);
    if i < 0 then rows
    else
      assert rows == rows[..i] + [rows[i]] + rows[i + 1..];
      rows[..i] + rows[i + 1..]
  }

  // ---------------------------------------------------------------------------
  // order(column, options)
  // ---------------------------------------------------------------------------

  /**
   * The comparator `a[column] > b[column] ? order : -order` puts `a` first
   * exactly when it returns a negative number.
   */
  predicate PlacedBefore(a: Record, b: Record, column: string, ascending: bool) {
    if ascending then !Greater(Get(a, column), Get(b, column)) else Greater(Get(a, column), Get(b, column))
  }

  function InsertSorted(x: Record, sorted: seq<Record>, column: string, ascending: bool): (r: seq<Record>)
    ensures multiset(r) == multiset(sorted) + multiset{x}
  {
    if sorted == [] then [x]
    else if PlacedBefore(x, sorted[0], column, ascending) then [x] + sorted
    else
      assert sorted == [sorted[0]] + sorted[1..];
      [sorted[0]] + InsertSorted(x, sorted[1..], column, ascending)
  }

  /** `[...data].sort(comparator)`, by insertion. */
  function SortRows(rows: seq<Record>, column: string, ascending: bool): (r: seq<Record>)
    ensures multiset(r) == multiset(rows)
  {
    if rows == [] then []
    else
      assert rows == [rows[0]] + rows[1..];
      InsertSorted(rows[0], SortRows(rows[1..], column, ascending), column, ascending)
  }

  /** `options?.ascending === false ? -1 : 1`: only an explicit `false` sorts descending. */
  function IsAscending(options: Option<Value>): bool {
    !(options.Some? && StrictEquals(options.value, Bool(false)))
  }

  /** Every row holds a finite number under `column`. */
  predicate NumericColumn(rows: seq<Record>, column: string) {
    forall r :: r in rows ==> Get(r, column).Num? && Get(r, column).n.Finite?
  }

  function Key(r: Record, column: string): real
    requires Get(r, column).Num? && Get(r, column).n.Finite?
  {
    Get(r, column).n.value
  }

  predicate InOrder(a: real, b: real, ascending: bool) {
    if ascending then a <= b else a >= b
  }

  /** Sorted by a numeric column: every earlier key is in order with every later one. */
  predicate SortedBy(rows: seq<Record>, column: string, ascending: bool)
    requires NumericColumn(rows, column)
  {
    forall i, j :: 0 <= i < j < |rows| ==> InOrder(Key(rows[i], column), Key(rows[j], column), ascending)
  }

  /** On finite numbers the comparator places `a` first exactly when its key is in order with `b`'s. */
  lemma PlacedBeforeNumeric(a: Record, b: Record, column: string, ascending: bool)
    requires NumericColumn([a, b], column)
    ensures PlacedBefore(a, b, column, ascending) ==> InOrder(Key(a, column), Key(b, column), ascending)
    ensures !PlacedBefore(a, b, column, ascending) ==> InOrder(Key(b, column), Key(a, column), ascending)
  {
    assert a in [a, b] && b in [a, b];
  }

  lemma InsertSortedMembers(x: Record, sorted: seq<Record>, column: string, ascending: bool)
    ensures forall y :: y in InsertSorted(x, sorted, column, ascending) ==> y == x || y in sorted
  {
    var r := InsertSorted(x, sorted, column, ascending);
    forall y | y in r ensures y == x || y in sorted {
      assert y in multiset(r);
    }
  }

  lemma {:induction false} InsertSortedKeepsOrder(x: Record, sorted: seq<Record>, column: string, ascending: bool)
    requires NumericColumn(sorted, column) && NumericColumn([x], column) && SortedBy(sorted, column, ascending)
    ensures NumericColumn(InsertSorted(x, sorted, column, ascending), column)
    ensures SortedBy(InsertSorted(x, sorted, column, ascending), column, ascending)
  {
    var r := InsertSorted(x, sorted, column, ascending);
    assert x in [x];
    InsertSortedMembers(x, sorted, column, ascending);
    assert NumericColumn(r, column);
    if sorted == [] {
      assert r == [x];
    } else {
      var s0 := sorted[0];
      assert s0 in sorted;
      assert NumericColumn([x, s0], column);
      PlacedBeforeNumeric(x, s0, column, ascending);
      if PlacedBefore(x, s0, column, ascending) {
        assert r == [x] + sorted;
        forall j | 0 < j < |r| ensures InOrder(Key(x, column), Key(r[j], column), ascending) {
          assert r[j] == sorted[j - 1];
        }
      } else {
        var tail := InsertSorted(x, sorted[1..], column, ascending);
        assert NumericColumn(sorted[1..], column);
        InsertSortedKeepsOrder(x, sorted[1..], column, ascending);
        InsertSortedMembers(x, sorted[1..], column, ascending);
        assert r == [s0] + tail;
        forall j | 0 < j < |r| ensures InOrder(Key(s0, column), Key(r[j], column), ascending) {
          assert r[j] == tail[j - 1];
          assert r[j] in tail;
          if r[j] != x {
            var k :| 0 <= k < |sorted[1..]| && sorted[1..][k] == r[j];
            assert sorted[k + 1] == r[j];
          }
        }
      }
    }
  }

  /**
   * `order(column, options)` on a numeric column returns the rows rearranged,
   * ascending unless `options.ascending` is `false`, and then descending.
   */
  lemma {:induction false} SortRowsSorts(rows: seq<Record>, column: string, ascending: bool)
    requires NumericColumn(rows, column)
    ensures NumericColumn(SortRows(rows, column, ascending), column)
    ensures SortedBy(SortRows(rows, column, ascending), column, ascending)
  {
    if rows != [] {
      assert rows[0] in rows;
      assert NumericColumn(rows[1..], column);
      SortRowsSorts(rows[1..], column, ascending);
      InsertSortedKeepsOrder(rows[0], SortRows(rows[1..], column, ascending), column, ascending);
    }
  }

  // ---------------------------------------------------------------------------
  // New ids
  // ---------------------------------------------------------------------------

  lemma {:induction false} MaxOfFinite(xs: seq<JsNum>)
    requires xs != [] && forall i :: 0 <= i < |xs| ==> xs[i].Finite?
    ensures MaxOf(xs).Finite?
    ensures forall i :: 0 <= i < |xs| ==> xs[i].value <= MaxOf(xs).value
  {
    if |xs| > 1 {
      MaxOfFinite(xs[1..]);
      assert forall i :: 1 <= i < |xs| ==> xs[i] == xs[1..][i - 1];
    }
  }

  lemma {:induction false} MaxOfNaN(xs: seq<JsNum>, k: int)
    requires 0 <= k < |xs| && xs[k] == NaN
    ensures MaxOf(xs) == NaN
  {
    if k > 0 {
      MaxOfNaN(xs[1..], k - 1);
    }
  }

  /** A table whose ids are all finite numbers gets an id above every existing one. */
  lemma NewIdAboveIds(rows: seq<Record>)
    requires rows != [] && NumericColumn(rows, "id")
    ensures NewId(rows).Finite?
    ensures forall r :: r in rows ==> Key(r, "id") < NewId(rows).value
  {
    var ids := IdsOf(rows);
    forall i | 0 <= i < |rows| ensures ids[i] == Get(rows[i], "id").n {
      assert rows[i] in rows;
    }
    MaxOfFinite(ids);
  }

  /** An empty table gets the id `-Infinity`: `Math.max()` of nothing, plus one. */
  lemma EmptyTableId()
    ensures NewId([]) == Infinity(true)
  {
  }

  /** One id that converts to NaN, a non-numeric text say, makes every new id NaN. */
  lemma NaNIdPoisons(rows: seq<Record>, k: int)
    requires 0 <= k < |rows| && IdOrZero(rows[k]) == NaN
    ensures NewId(rows) == NaN
  {
    MaxOfNaN(IdsOf(rows), k);
  }

  // ---------------------------------------------------------------------------
  // Seed data
  // ---------------------------------------------------------------------------

  function FoodSeed(id: real, name: string, description: string, kind: string,
                    fixed: Value, p100: Value, grams: Value): Record {
    map["id" := Num(Finite(id)), "user_id" := Text("mock-user-id"), "name" := Text(name),
        "description" := Text(description), "type" := Text(kind), "calories_fixed" := fixed,
        "calories_p100" := p100, "serving_grams" := grams, "created_at" := Text("2024-01-01T00:00:00Z")]
  }

  function EntrySeed(id: real, at: string, description: string, calories: Value,
                     food: Value, grams: Value): Record {
    map["id" := Num(Finite(id)), "user_id" := Text("mock-user-id"), "timestamp" := Text(at),
        "description" := Text(description), "calories_override" := calories, "food_id" := food,
        "food_grams" := grams, "created_at" := Text(at)]
  }

  /** `mockFoods`. */
  const MockFoods: seq<Record> := [
    FoodSeed(1.0, "Banana", "Medium sized", "FIXED_SERVING", Num(Finite(105.0)), Null, Null),
    FoodSeed(2.0, "Chicken Breast", "Grilled", "BY_WEIGHT", Null, Num(Finite(165.0)), Num(Finite(100.0))),
    FoodSeed(3.0, "Brown Rice", "Cooked", "BY_WEIGHT", Null, Num(Finite(123.0)), Num(Finite(150.0)))
  ]

  /** `mockLogEntries`. */
  const MockLogEntries: seq<Record> := [
    EntrySeed(1.0, "2024-01-15T08:00:00Z", "Breakfast - Oatmeal", Num(Finite(350.0)), Null, Null),
    EntrySeed(2.0, "2024-01-15T12:30:00Z", "Lunch", Null, Num(Finite(2.0)), Num(Finite(150.0))),
    EntrySeed(3.0, "2024-01-15T19:00:00Z", "Dinner", Num(Finite(650.0)), Null, Null)
  ]

  // ---------------------------------------------------------------------------
  // The client
  // ---------------------------------------------------------------------------

  /** The client's `mockData`: its own copies of the two seed tables. */
  class MockClient {
    var foods: seq<Record>
    var logEntries: seq<Record>

    /** Each client starts from the seeds; being values, the seeds themselves never change. */
    constructor()
      ensures foods == MockFoods && logEntries == MockLogEntries
    {
      foods := MockFoods;
      logEntries := MockLogEntries;
    }

    /** `mockData[table]`: None for a name that is not one of the two tables. */
    function Table(table: string): Option<seq<Record>>
      reads this
    {
      if table == "foods" then Some(foods)
      else if table == "log_entries" then Some(logEntries)
      else None
    }

    /** `mockData[table] || []`. */
    function Rows(table: string): seq<Record>
      reads this
    {
      match Table(table)
      case Some(rows) => rows
      case None => []
    }

    /** Replaces the rows of one of the two tables. */
    method SetTable(table: string, rows: seq<Record>)
      requires Table(table).Some?
      modifies this
      ensures Table(table) == Some(rows)
      ensures forall other :: other != table ==> Table(other) == old(Table(other))
    {
      if table == "foods" {
        foods := rows;
      } else {
        logEntries := rows;
      }
    }

    /** `from(table).select()`: the table's rows; no rows for an unknown table. */
    method Select(table: string) returns (data: seq<Record>)
      ensures data == Rows(table)
      ensures Table(table).None? ==> data == []
    {
      data := Rows(table);
    }

    /** `from(table).select().eq(column, value)`: the rows whose column is `=== value`, in table order. */
    method SelectEq(table: string, column: string, value: Value) returns (data: seq<Record>)
      ensures data == FilterEq(Rows(table), column, value)
      ensures forall r :: r in data <==> r in Rows(table) && StrictEquals(Get(r, column), value)
    {
      data := FilterEq(Rows(table), column, value);
    }

    /** `from(table).select().order(column, options)`: a sorted copy; the table keeps its order. */
    method SelectOrder(table: string, column: string, options: Option<Value>) returns (data: seq<Record>)
      ensures data == SortRows(Rows(table), column, IsAscending(options))
      ensures multiset(data) == multiset(Rows(table))
      ensures NumericColumn(Rows(table), column) ==>
        NumericColumn(data, column) && SortedBy(data, column, IsAscending(options))
    {
      data := SortRows(Rows(table), column, IsAscending(options));
      if NumericColumn(Rows(table), column) {
        SortRowsSorts(Rows(table), column, IsAscending(options));
      }
    }

    /**
     * `from(table).insert(values)`: pushes the values with a new `id` and a
     * `created_at` of `now`, and answers with `values` as given, not the stored row.
     */
    method Insert(table: string, values: Record, now: string) returns (data: Record)
      modifies this
      ensures data == values
      ensures match old(Table(table))
        case None => Table(table) == None
        case Some(rows) => Table(table) == Some(InsertedRows(rows, values, now))
      ensures forall other :: other != table ==> Table(other) == old(Table(other))
    {
      var rows := Table(table);
      if rows.Some? {
        SetTable(table, InsertedRows(rows.value, values, now));
      }
      data := values;
    }

    /** `from(table).update(values).eq(column, value)`: merges into the first match only. */
    method UpdateEq(table: string, values: Record, column: string, value: Value) returns (data: Record)
      modifies this
      ensures data == values
      ensures match old(Table(table))
        case None => Table(table) == None
        case Some(rows) => Table(table) == Some(UpdatedRows(rows, values, column, value))
      ensures forall other :: other != table ==> Table(other) == old(Table(other))
    {
      var rows := Table(table);
      if rows.Some? {
        SetTable(table, UpdatedRows(rows.value, values, column, value));
      }
      data := values;
    }

    /** `from(table).delete().eq(column, value)`: splices out the first match only. */
    method DeleteEq(table: string, column: string, value: Value)
      modifies this
      ensures match old(Table(table))
        case None => Table(table) == None
        case Some(rows) => Table(table) == Some(DeletedRows(rows, column, value))
      ensures forall other :: other != table ==> Table(other) == old(Table(other))
    {
      var rows := Table(table);
      if rows.Some? {
        SetTable(table, DeletedRows(rows.value, column, value));
      }
    }
  }

  /** The seed log entries have ids 1 to 3, so the first insert into them gets id 4. */
  lemma FirstLogEntryIdIsFour()
    ensures NewId(MockLogEntries) == Finite(4.0)
  {
    SeedEntryIds();
    var ids := [Finite(1.0), Finite(2.0), Finite(3.0)];
    assert ids[1..] == [Finite(2.0), Finite(3.0)] && ids[1..][1..] == [Finite(3.0)];
    assert MaxOf([Finite(3.0)]) == Finite(3.0);
    assert MaxOf([Finite(2.0), Finite(3.0)]) == Finite(3.0);
    assert MaxOf(ids) == Finite(3.0);
  }

  lemma SeedEntryIds()
    ensures IdsOf(MockLogEntries) == [Finite(1.0), Finite(2.0), Finite(3.0)]
  {
    var rows := MockLogEntries;
    assert Get(rows[0], "id") == Num(Finite(1.0));
    assert Get(rows[1], "id") == Num(Finite(2.0));
    assert Get(rows[2], "id") == Num(Finite(3.0));
    assert IdOrZero(rows[0]) == Finite(1.0);
    assert IdOrZero(rows[1]) == Finite(2.0);
    assert IdOrZero(rows[2]) == Finite(3.0);
  }

  /**
   * The seed rows spell the amount column `food_grams` and the serving types in
   * upper case, while the schema calls the column `amount` and the types
   * `by_weight` and `fixed_serving`: the seeded lunch has no `amount` at all.
   */
  lemma SeedSpellings()
    ensures Get(MockLogEntries[1], "amount") == Undefined
    ensures Get(MockLogEntries[1], "food_grams") == Num(Finite(150.0))
    ensures forall r :: r in MockFoods ==> Get(r, "type") != Text("by_weight") && Get(r, "type") != Text("fixed_serving")
  {
  }

  /** Deleting log entry 2 of the seeds leaves entries 1 and 3, in that order. */
  lemma DeleteSeedEntry()
    ensures DeletedRows(MockLogEntries, "id", Num(Finite(2.0))) == [MockLogEntries[0], MockLogEntries[2]]
  {
    assert Get(MockLogEntries[0], "id") == Num(Finite(1.0));
    assert Get(MockLogEntries[1], "id") == Num(Finite(2.0));
    assert FindIndex(MockLogEntries, "id", Num(Finite(2.0))) == 1;
  }
}
