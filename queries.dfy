/**
 * The data layer of `src/utils/queries.ts`: the day read, keyed by
 * `['log_entries', 'by_date', isoDate(day)]`, and the insert, update and delete
 * mutations, each of which invalidates the day partition of the timestamp it is
 * given once its request has resolved.
 *
 * The store behind the requests is modelled as a value `Database`; the query
 * cache is the class `QueryCache` holding the fetched partitions.
 */
module Queries {
  import opened Options
  import opened JsNumbers
  import opened Time
  import opened Records

  /** A query key `[entity, partition, date]`; the date is null when `toISODate()` gave null. */
  datatype QueryKey = QueryKey(entity: string, partition: string, date: Option<string>)

  /** The key under which the rows of day `d` are cached. */
  function LogEntriesKey(isoDate: Day -> string, d: Day): QueryKey {
    QueryKey("log_entries", "by_date", Some(isoDate(d)))
  }

  /** The key a mutation invalidates: `DateTime.fromISO(timestamp).toISODate()`. */
  function InvalidationKey(isoDate: Day -> string, timestamp: Instant): QueryKey {
    QueryKey("log_entries", "by_date", Some(isoDate(DayOf(timestamp))))
  }

  /**
   * The key the insert mutation invalidates for the ISO text it sent: the
   * blank text parses to an invalid DateTime, whose `toISODate()` is null, and
   * that key is the read key of no day.
   */
  function StampKey(isoDate: Day -> string, stamp: IsoStamp): (k: QueryKey)
    ensures stamp.IsoOf? ==> k == InvalidationKey(isoDate, stamp.instant)
    ensures stamp.BlankIso? ==> forall d: Day :: k != LogEntriesKey(isoDate, d)
  {
    match stamp
    case IsoOf(t) => InvalidationKey(isoDate, t)
    case BlankIso => QueryKey("log_entries", "by_date", None)
  }

  /** The key a mutation drops is the read key of its timestamp's day, and of no other day. */
  lemma InvalidationKeyIsReadKey(isoDate: Day -> string, timestamp: Instant, d: Day)
    requires InjectiveDates(isoDate)
    ensures InvalidationKey(isoDate, timestamp) == LogEntriesKey(isoDate, d) <==> d == DayOf(timestamp)
  {
  }

  /** Distinct days have distinct partitions. */
  lemma KeysSeparateDays(isoDate: Day -> string, d1: Day, d2: Day)
    requires InjectiveDates(isoDate)
    ensures LogEntriesKey(isoDate, d1) == LogEntriesKey(isoDate, d2) <==> d1 == d2
  {
  }

  /** The contents of the store: the `foods` and `log_entries` tables. */
  datatype Database = Database(foods: seq<Food>, logEntries: seq<LogEntry>)

  /** The food a `food_id` refers to, if any. */
  function FindFood(foods: seq<Food>, id: string): (r: Option<Food>)
    ensures r.Some? ==> r.value in foods && r.value.id == id
    ensures r.None? ==> forall f :: f in foods ==> f.id != id
  {
    if foods == [] then None
    else if foods[0].id == id then Some(foods[0])
    else FindFood(foods[1..], id)
  }

  /** The embedded join `...foods(food_name:name, food_calories_p100:calories_p100)`. */
  function Join(entry: LogEntry, foods: seq<Food>): (row: JoinedRow)
    ensures row.entry == entry
    ensures row.foodName.None? <==> entry.foodId.None? || FindFood(foods, entry.foodId.value).None?
  {
    match entry.foodId
    case None => JoinedRow(entry, None, None)
    case Some(id) =>
      match FindFood(foods, id)
      case None => JoinedRow(entry, None, None)
      case Some(f) => JoinedRow(entry, Some(f.name), f.caloriesP100)
  }

  /**
   * The rows of `entries` in the read range of `d` (`timestamp >= startOf(d)` and
   * `timestamp < endOf(d)`), joined with their food, in table order.
   */
  function SelectDay(entries: seq<LogEntry>, foods: seq<Food>, d: Day): (rows: seq<JoinedRow>)
    ensures |rows| <= |entries|
    ensures forall r :: r in rows ==> r.entry in entries && InReadRange(r.entry.timestamp, d)
    ensures forall e :: e in entries && InReadRange(e.timestamp, d) ==> Join(e, foods) in rows
  {
    if entries == [] then []
    else
      var rest := SelectDay(entries[1..], foods, d);
      if InReadRange(entries[0].timestamp, d) then [Join(entries[0], foods)] + rest else rest
  }

  /** `useLogEntriesByDate`'s query function: what the store returns for day `d`. */
  function FetchDay(db: Database, d: Day): seq<JoinedRow> {
    SelectDay(db.logEntries, db.foods, d)
  }

  /**
   * A stored entry stamped on day `d` is read back on day `d` unless it sits on
   * the last millisecond of the day, which the half-open range leaves out.
   */
  lemma FetchDayFindsEntry(db: Database, e: LogEntry)
    requires e in db.logEntries
    ensures e.timestamp != EndOfDay(DayOf(e.timestamp)) ==> Join(e, db.foods) in FetchDay(db, DayOf(e.timestamp))
    ensures e.timestamp == EndOfDay(DayOf(e.timestamp)) ==> forall d: Day :: Join(e, db.foods) !in FetchDay(db, d)
  {
    InReadRangeIff(e.timestamp, DayOf(e.timestamp));
    if e.timestamp == EndOfDay(DayOf(e.timestamp)) {
      forall d: Day ensures Join(e, db.foods) !in FetchDay(db, d) {
        LastInstantUnread(DayOf(e.timestamp), d);
      }
    }
  }

  // ---------------------------------------------------------------------------
  // Requests sent to the store and their effect on it
  // ---------------------------------------------------------------------------

  /** The columns an update request writes; None means the key is absent from the body. */
  datatype LogEntryChanges = LogEntryChanges(description: Option<string>, caloriesOverride: Option<JsNum>)

  datatype StoreRequest =
    | InsertRows(table: string, payload: LogEntryInsert)
    | UpdateRows(table: string, changes: LogEntryChanges, column: string, id: int)
    | DeleteRows(table: string, column: string, id: int)

  /** `insert(payload)` on `log_entries`: the payload is forwarded unchanged. */
  function InsertRequest(payload: LogEntryInsert): (req: StoreRequest)
    ensures req.InsertRows? && req.table == "log_entries" && req.payload == payload
  {
    InsertRows("log_entries", payload)
  }

  /**
   * `update({description, calories_override}).eq('id', id)`: only those two
   * columns are sent, matched on the id; the timestamp is never written.
   */
  function UpdateRequest(payload: LogEntryUpdate): (req: StoreRequest)
    ensures req.UpdateRows? && req.table == "log_entries" && req.column == "id" && req.id == payload.id
    ensures req.changes.description == payload.description
    ensures req.changes.caloriesOverride == payload.caloriesOverride
  {
    UpdateRows("log_entries", LogEntryChanges(payload.description, payload.caloriesOverride), "id", payload.id)
  }

  /** `delete().eq('id', id)`: the timestamp plays no part in what is deleted. */
  function DeleteRequest(payload: LogEntryDelete): (req: StoreRequest)
    ensures req == DeleteRows("log_entries", "id", payload.id)
  {
    DeleteRows("log_entries", "id", payload.id)
  }

  /** The row the store creates for an insert payload with a timestamp; absent columns are null. */
  function StoredEntry(p: LogEntryInsert, id: int, createdAt: string, userId: string): (e: LogEntry)
    requires p.timestamp.IsoOf?
    ensures e.timestamp == p.timestamp.instant && e.id == id
  {
    LogEntry(id, p.timestamp.instant, p.description, StoredNumber(p.caloriesOverride), p.foodId, p.amount, createdAt, userId)
  }

  /** An update writes the columns present in the body and keeps every other one. */
  function ApplyChanges(e: LogEntry, c: LogEntryChanges): (u: LogEntry)
    ensures u.id == e.id && u.timestamp == e.timestamp && u.foodId == e.foodId && u.amount == e.amount
    ensures u.description == (if c.description.Some? then c.description else e.description)
    ensures u.caloriesOverride == (if c.caloriesOverride.Some? then StoredNumber(c.caloriesOverride) else e.caloriesOverride)
  {
    e.(description := if c.description.Some? then c.description else e.description,
       caloriesOverride := if c.caloriesOverride.Some? then StoredNumber(c.caloriesOverride) else e.caloriesOverride)
  }

  function UpdateWhere(entries: seq<LogEntry>, id: int, c: LogEntryChanges): (r: seq<LogEntry>)
    ensures |r| == |entries|
    ensures forall i :: 0 <= i < |entries| ==>
      r[i] == (if entries[i].id == id then ApplyChanges(entries[i], c) else entries[i])
  {
    if entries == [] then []
    else [if entries[0].id == id then ApplyChanges(entries[0], c) else entries[0]] + UpdateWhere(entries[1..], id, c)
  }

  function DeleteWhere(entries: seq<LogEntry>, id: int): (r: seq<LogEntry>)
    ensures forall e :: e in r <==> e in entries && e.id != id
    ensures |r| <= |entries|
  {
    if entries == [] then []
    else if entries[0].id == id then DeleteWhere(entries[1..], id)
    else [entries[0]] + DeleteWhere(entries[1..], id)
  }

  /**
   * The store after a request on `log_entries`; `newId`, `createdAt` and
   * `userId` are the values the store assigns to an inserted row. The store
   * refuses an insert whose timestamp is the blank text, since `''` is no
   * timestamp, and answers with an error instead.
   */
  function Apply(db: Database, req: StoreRequest, newId: int, createdAt: string, userId: string): Database {
    if req.table != "log_entries" then db
    else
      match req
      case InsertRows(_, p) =>
        if p.timestamp.BlankIso? then db
        else db.(logEntries := db.logEntries + [StoredEntry(p, newId, createdAt, userId)])
      case UpdateRows(_, c, column, id) =>
        if column == "id" then db.(logEntries := UpdateWhere(db.logEntries, id, c)) else db
      case DeleteRows(_, column, id) =>
        if column == "id" then db.(logEntries := DeleteWhere(db.logEntries, id)) else db
  }

  /** Every stored row with this id is stamped on day `d`: the payload's timestamp is the row's own. */
  ghost predicate StampedOn(entries: seq<LogEntry>, id: int, d: Day) {
    forall e :: e in entries && e.id == id ==> DayOf(e.timestamp) == d
  }

  // ---------------------------------------------------------------------------
  // Effect of writes on the day reads
  // ---------------------------------------------------------------------------

  lemma {:induction false} SelectDayAppend(entries: seq<LogEntry>, foods: seq<Food>, e: LogEntry, d: Day)
    ensures SelectDay(entries + [e], foods, d)
         == SelectDay(entries, foods, d) + (if InReadRange(e.timestamp, d) then [Join(e, foods)] else [])
  {
    if entries == [] {
      assert entries + [e] == [e];
    } else {
      assert (entries + [e])[1..] == entries[1..] + [e];
      SelectDayAppend(entries[1..], foods, e, d);
    }
  }

  /**
   * Inserting a row leaves every other day's read unchanged and appends the row
   * to its own day's read; an insert with the blank timestamp changes no read.
   */
  lemma InsertTouchesOnlyItsDay(db: Database, p: LogEntryInsert, newId: int, createdAt: string, userId: string, d: Day)
    ensures p.timestamp.BlankIso? || d != DayOf(p.timestamp.instant) ==>
      FetchDay(Apply(db, InsertRequest(p), newId, createdAt, userId), d) == FetchDay(db, d)
    ensures p.timestamp.IsoOf? && d == DayOf(p.timestamp.instant) && p.timestamp.instant != EndOfDay(d) ==>
      FetchDay(Apply(db, InsertRequest(p), newId, createdAt, userId), d)
        == FetchDay(db, d) + [Join(StoredEntry(p, newId, createdAt, userId), db.foods)]
  {
    if p.timestamp.IsoOf? {
      var e := StoredEntry(p, newId, createdAt, userId);
      SelectDayAppend(db.logEntries, db.foods, e, d);
      InReadRangeIff(e.timestamp, d);
    }
  }

  /** The store keeps nothing of an insert whose timestamp is the blank text. */
  lemma BlankInsertStoresNothing(db: Database, p: LogEntryInsert, newId: int, createdAt: string, userId: string)
    requires p.timestamp.BlankIso?
    ensures Apply(db, InsertRequest(p), newId, createdAt, userId) == db
  {
  }

  lemma {:induction false} UpdateKeepsOtherDay(entries: seq<LogEntry>, foods: seq<Food>, id: int, c: LogEntryChanges, day: Day, d: Day)
    requires StampedOn(entries, id, day) && d != day
    ensures SelectDay(UpdateWhere(entries, id, c), foods, d) == SelectDay(entries, foods, d)
  {
    if entries != [] {
      assert StampedOn(entries[1..], id, day) by {
        forall e | e in entries[1..] && e.id == id ensures DayOf(e.timestamp) == day {
          assert e in entries;
        }
      }
      UpdateKeepsOtherDay(entries[1..], foods, id, c, day, d);
      assert UpdateWhere(entries, id, c)[1..] == UpdateWhere(entries[1..], id, c);
      if entries[0].id == id {
        InReadRangeIff(entries[0].timestamp, d);
      }
    }
  }

  lemma {:induction false} DeleteKeepsOtherDay(entries: seq<LogEntry>, foods: seq<Food>, id: int, day: Day, d: Day)
    requires StampedOn(entries, id, day) && d != day
    ensures SelectDay(DeleteWhere(entries, id), foods, d) == SelectDay(entries, foods, d)
  {
    if entries != [] {
      assert StampedOn(entries[1..], id, day) by {
        forall e | e in entries[1..] && e.id == id ensures DayOf(e.timestamp) == day {
          assert e in entries;
        }
      }
      DeleteKeepsOtherDay(entries[1..], foods, id, day, d);
      if entries[0].id == id {
        InReadRangeIff(entries[0].timestamp, d);
      }
    }
  }

  /**
   * A successful write given a payload timestamp on day `day` changes the read
   * of no other day: an insert creates its row at that timestamp, and an update
   * or delete matches rows that all lie on that day.
   */
  lemma WriteTouchesOnlyItsDay(db: Database, req: StoreRequest, day: Day, newId: int, createdAt: string, userId: string, d: Day)
    requires req.InsertRows? && req.payload.timestamp.IsoOf? ==> DayOf(req.payload.timestamp.instant) == day
    requires !req.InsertRows? ==> StampedOn(db.logEntries, req.id, day)
    requires d != day
    ensures FetchDay(Apply(db, req, newId, createdAt, userId), d) == FetchDay(db, d)
  {
    if req.table == "log_entries" {
      match req
      case InsertRows(_, p) =>
        if p.timestamp.IsoOf? {
          SelectDayAppend(db.logEntries, db.foods, StoredEntry(p, newId, createdAt, userId), d);
          InReadRangeIff(p.timestamp.instant, d);
        }
      case UpdateRows(_, c, column, id) =>
        UpdateKeepsOtherDay(db.logEntries, db.foods, id, c, day, d);
      case DeleteRows(_, column, id) =>
        DeleteKeepsOtherDay(db.logEntries, db.foods, id, day, d);
    }
  }

  // ---------------------------------------------------------------------------
  // The query cache
  // ---------------------------------------------------------------------------

  /**
   * A cached partition: the rows of a read that succeeded, or `None` for the
   * `data: null` of a read that failed, which react-query caches all the same.
   */
  type Partition = Option<seq<JoinedRow>>

  /**
   * Every cached day partition that holds rows holds exactly what the store
   * returns for that day; a cached failed read holds none.
   */
  ghost predicate Coherent(isoDate: Day -> string, partitions: map<QueryKey, Partition>, db: Database) {
    forall d: Day :: LogEntriesKey(isoDate, d) in partitions && partitions[LogEntriesKey(isoDate, d)].Some? ==>
      partitions[LogEntriesKey(isoDate, d)].value == FetchDay(db, d)
  }

  /**
   * Dropping the partition of the written day after a successful write keeps
   * the cache coherent with the new store.
   */
  lemma InvalidationRestoresCoherence(
    isoDate: Day -> string, partitions: map<QueryKey, Partition>, db: Database,
    req: StoreRequest, timestamp: Instant, newId: int, createdAt: string, userId: string)
    requires InjectiveDates(isoDate) && Coherent(isoDate, partitions, db)
    requires req.InsertRows? ==> req.payload.timestamp == IsoOf(timestamp)
    requires !req.InsertRows? ==> StampedOn(db.logEntries, req.id, DayOf(timestamp))
    ensures Coherent(isoDate, partitions - {InvalidationKey(isoDate, timestamp)}, Apply(db, req, newId, createdAt, userId))
  {
    var after := partitions - {InvalidationKey(isoDate, timestamp)};
    var db' := Apply(db, req, newId, createdAt, userId);
    forall d: Day | LogEntriesKey(isoDate, d) in after && after[LogEntriesKey(isoDate, d)].Some?
      ensures after[LogEntriesKey(isoDate, d)].value == FetchDay(db', d)
    {
      InvalidationKeyIsReadKey(isoDate, timestamp, d);
      WriteTouchesOnlyItsDay(db, req, DayOf(timestamp), newId, createdAt, userId, d);
    }
  }

  /**
   * An insert with the blank timestamp stores nothing, and the null-dated key
   * its `onSuccess` invalidates is no day's key: every cached day is kept as it
   * was and stays coherent, so no day is refreshed and the entry is gone.
   */
  lemma BlankInsertRefreshesNoDay(
    isoDate: Day -> string, partitions: map<QueryKey, Partition>, db: Database,
    p: LogEntryInsert, newId: int, createdAt: string, userId: string)
    requires Coherent(isoDate, partitions, db) && p.timestamp.BlankIso?
    ensures var after := partitions - {StampKey(isoDate, p.timestamp)};
      Coherent(isoDate, after, Apply(db, InsertRequest(p), newId, createdAt, userId))
      && forall d: Day :: LogEntriesKey(isoDate, d) in partitions ==>
           LogEntriesKey(isoDate, d) in after && after[LogEntriesKey(isoDate, d)] == partitions[LogEntriesKey(isoDate, d)]
  {
    BlankInsertStoresNothing(db, p, newId, createdAt, userId);
  }

  /**
   * Without the invalidation an insert on day `d` would leave the cached rows of
   * `d` stale: the fresh read has one row more.
   */
  lemma InsertMakesItsDayStale(db: Database, p: LogEntryInsert, newId: int, createdAt: string, userId: string)
    requires p.timestamp.IsoOf? && p.timestamp.instant != EndOfDay(DayOf(p.timestamp.instant))
    ensures var d := DayOf(p.timestamp.instant);
      FetchDay(Apply(db, InsertRequest(p), newId, createdAt, userId), d) != FetchDay(db, d)
  {
    var d := DayOf(p.timestamp.instant);
    InsertTouchesOnlyItsDay(db, p, newId, createdAt, userId, d);
    assert |FetchDay(Apply(db, InsertRequest(p), newId, createdAt, userId), d)| == |FetchDay(db, d)| + 1;
  }

  /** The store's reply; `error` is filled in when the write was refused. */
  datatype StoreResponse = StoreResponse(error: Option<string>)

  /** How the mutation promise settled: resolved with a reply, or rejected. */
  datatype MutationOutcome = Resolved(response: StoreResponse) | Rejected

  /** The react-query cache, restricted to the day partitions of `log_entries`. */
  class QueryCache {
    const isoDate: Day -> string
    var partitions: map<QueryKey, Partition>

    constructor(isoDate: Day -> string)
      ensures this.isoDate == isoDate && partitions == map[]
    {
      this.isoDate := isoDate;
      partitions := map[];
    }

    ghost predicate CoherentWith(db: Database)
      reads this
    {
      Coherent(isoDate, partitions, db)
    }

    /**
     * `useLogEntriesByDate(day)`: a cached partition is returned as is; a missing
     * one is fetched from the store and cached. A fetch whose select fails
     * (`failed`) still resolves, with `data: null`, so the null is cached and
     * returned until the key is invalidated. From a coherent cache any rows
     * returned are the store's rows for the day.
     */
    method LogEntriesByDate(db: Database, day: Day, failed: bool) returns (rows: Partition, fetched: bool)
      modifies this
      ensures var key := LogEntriesKey(isoDate, day);
        fetched == (key !in old(partitions))
        && (fetched ==> rows == (if failed then None else Some(FetchDay(db, day)))
                        && partitions == old(partitions)[key := rows])
        && (!fetched ==> rows == old(partitions)[key] && partitions == old(partitions))
      ensures InjectiveDates(isoDate) && old(CoherentWith(db)) ==>
        CoherentWith(db) && (rows.Some? ==> rows.value == FetchDay(db, day))
    {
      var key := LogEntriesKey(isoDate, day);
      if key in partitions {
        rows := partitions[key];
        fetched := false;
      } else {
        rows := if failed then None else Some(FetchDay(db, day));
        partitions := partitions[key := rows];
        fetched := true;
        if InjectiveDates(isoDate) {
          forall d: Day | LogEntriesKey(isoDate, d) == key ensures d == day {
            KeysSeparateDays(isoDate, d, day);
          }
        }
      }
    }

    /** `invalidateQueries({queryKey})`: drops the partition under `key` and nothing else. */
    method InvalidateQueries(key: QueryKey)
      modifies this
      ensures partitions == old(partitions) - {key}
    {
      partitions := partitions - {key};
    }

    /**
     * A refetch of a stale partition: react-query refetches a cached query
     * older than its `staleTime` when a component mounts on it, the window
     * regains focus or the network reconnects. The cached value, rows or null,
     * is replaced by a fresh read, which may itself fail.
     */
    method Refetch(db: Database, day: Day, failed: bool) returns (rows: Partition)
      modifies this
      ensures rows == (if failed then None else Some(FetchDay(db, day)))
      ensures partitions == old(partitions)[LogEntriesKey(isoDate, day) := rows]
      ensures InjectiveDates(isoDate) && old(CoherentWith(db)) ==> CoherentWith(db)
    {
      rows := if failed then None else Some(FetchDay(db, day));
      partitions := partitions[LogEntriesKey(isoDate, day) := rows];
      if InjectiveDates(isoDate) {
        forall d: Day | LogEntriesKey(isoDate, d) == LogEntriesKey(isoDate, day) ensures d == day {
          KeysSeparateDays(isoDate, d, day);
        }
      }
    }

    /**
     * The `onSuccess` step shared by the three mutations: it invalidates `key`
     * whenever the request resolves, whether or not the reply carries an error.
     */
    method SettleMutation(key: QueryKey, outcome: MutationOutcome)
      modifies this
      ensures partitions == (if outcome.Resolved? then old(partitions) - {key} else old(partitions))
    {
      if outcome.Resolved? {
        InvalidateQueries(key);
      }
    }

    /** `useInsertLogEntryMutation().mutate(payload)`. */
    method InsertLogEntry(payload: LogEntryInsert, outcome: MutationOutcome) returns (req: StoreRequest)
      modifies this
      ensures req == InsertRequest(payload)
      ensures partitions == (if outcome.Resolved? then old(partitions) - {StampKey(isoDate, payload.timestamp)} else old(partitions))
    {
      req := InsertRequest(payload);
      SettleMutation(StampKey(isoDate, payload.timestamp), outcome);
    }

    /** `useUpdateLogEntryMutation().mutate(payload)`. */
    method UpdateLogEntry(payload: LogEntryUpdate, outcome: MutationOutcome) returns (req: StoreRequest)
      modifies this
      ensures req == UpdateRequest(payload)
      ensures partitions == (if outcome.Resolved? then old(partitions) - {InvalidationKey(isoDate, payload.timestamp)} else old(partitions))
    {
      req := UpdateRequest(payload);
      SettleMutation(InvalidationKey(isoDate, payload.timestamp), outcome);
    }

    /** `useDeleteLogEntryMutation().mutate(payload)`. */
    method DeleteLogEntry(payload: LogEntryDelete, outcome: MutationOutcome) returns (req: StoreRequest)
      modifies this
      ensures req == DeleteRequest(payload)
      ensures partitions == (if outcome.Resolved? then old(partitions) - {InvalidationKey(isoDate, payload.timestamp)} else old(partitions))
    {
      req := DeleteRequest(payload);
      SettleMutation(InvalidationKey(isoDate, payload.timestamp), outcome);
    }
  }

  /**
   * An insert followed by a read of a day. The store answers the insert
   * without an error, or refuses a blank timestamp with one; either way the
   * promise resolves and `onSuccess` runs. When the insert lands on the day
   * read, that day is refetched and shows the new store's rows; whatever the
   * payload, the cache stays coherent with the new store.
   */
  method InsertThenRead(cache: QueryCache, db: Database, payload: LogEntryInsert, day: Day,
                        newId: int, createdAt: string, userId: string)
    returns (rows: Partition, db': Database)
    requires InjectiveDates(cache.isoDate) && cache.CoherentWith(db)
    modifies cache
    ensures db' == Apply(db, InsertRequest(payload), newId, createdAt, userId)
    ensures payload.timestamp.BlankIso? ==> db' == db
    ensures payload.timestamp.IsoOf? && DayOf(payload.timestamp.instant) == day ==> rows == Some(FetchDay(db', day))
    ensures rows.Some? ==> rows.value == FetchDay(db', day)
    ensures cache.CoherentWith(db')
  {
    var reply := StoreResponse(if payload.timestamp.BlankIso? then Some("invalid input syntax for type timestamp") else None);
    var req := cache.InsertLogEntry(payload, Resolved(reply));
    db' := Apply(db, req, newId, createdAt, userId);
    if payload.timestamp.IsoOf? {
      InvalidationRestoresCoherence(cache.isoDate, old(cache.partitions), db, req, payload.timestamp.instant, newId, createdAt, userId);
    } else {
      BlankInsertRefreshesNoDay(cache.isoDate, old(cache.partitions), db, payload, newId, createdAt, userId);
    }
    var fetched;
    rows, fetched := cache.LogEntriesByDate(db', day, false);
  }

  /**
   * A failed read of a day is cached as null: a later read of the day returns
   * null even when the store would now answer, until the partition is
   * invalidated by a write to that day, or refetched once stale; the next
   * read, or the refetch, then gives the store's rows.
   */
  method FailedReadPersists(cache: QueryCache, db: Database, day: Day, viaRefetch: bool)
    returns (first: Partition, second: Partition, third: Partition)
    requires InjectiveDates(cache.isoDate) && LogEntriesKey(cache.isoDate, day) !in cache.partitions
    modifies cache
    ensures first.None? && second.None?
    ensures third == Some(FetchDay(db, day))
  {
    var fetched;
    first, fetched := cache.LogEntriesByDate(db, day, true);
    second, fetched := cache.LogEntriesByDate(db, day, false);
    if viaRefetch {
      third := cache.Refetch(db, day, false);
    } else {
      cache.InvalidateQueries(LogEntriesKey(cache.isoDate, day));
      third, fetched := cache.LogEntriesByDate(db, day, false);
    }
  }
}
