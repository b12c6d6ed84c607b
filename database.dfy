/**
 * DatabaseWrapper: the store over one JDBC connection to an H2 database holding the CHANNELS
 * table and the five value tables. SQL statements are replaced by their effect on the tables'
 * rows (module Tables); SQLException and the unchecked exceptions the methods let through are
 * returned as values.
 */
module Database {
  import opened Wrappers
  import opened Types
  import opened Tables

  /** The connection field: null before connect, then open, then closed by disconnect. */
  datatype Connection = NoConnection | Open | Closed

  /**
   * What a statement on a connection that is not open raises: calling prepareStatement on the
   * null field throws NullPointerException, a closed connection throws SQLException.
   */
  function NotOpen(c: Connection): Error
    requires c != Open
  {
    if c == NoConnection then NullPointer else SQLException(ConnectionClosed)
  }

  /** The five value tables as createTables leaves them in a new database file. */
  const EmptyTables: map<Table, Rows> :=
    map[LongValues := map[], IntValues := map[], BoolValues := map[], StringValues := map[], DoubleValues := map[]]

  /** All five value tables exist and every VALUE cell has its table's column type. */
  ghost predicate TablesValid(tables: map<Table, Rows>) {
    && tables.Keys == AllTables
    && forall t | t in tables :: CellsFit(t, tables[t])
  }

  // ---------------------------------------------------------------------------------------------
  // log{Long,Int,Bool,String,Double}Values

  /** A value table after one log call, and how the call ended. */
  datatype InsertResult = InsertResult(rows: Rows, outcome: Outcome<Error>)

  /**
   * The effect of the log call for table t on that table: a null list changes nothing; otherwise
   * a connection that is not open, or a value that cannot be converted, fails before anything is
   * inserted; otherwise the batch runs and a rejected entry makes the call end in SQLException.
   */
  function Inserted(conn: Connection, rows: Rows, t: Table, containers: Option<seq<Option<LogRecordContainer>>>, ts: Int64): InsertResult {
    if containers.None? then InsertResult(rows, Pass)
    else if conn != Open then InsertResult(rows, Fail(NotOpen(conn)))
    else
      match Batch(t, containers.value, ts)
      case Failure(e) => InsertResult(rows, Fail(e))
      case Success(b) =>
        var x := Execute(rows, b);
        InsertResult(x.rows, if x.failed then Fail(SQLException(DuplicateKey)) else Pass)
  }

  /** A log call never changes or removes a stored row: it only adds rows. */
  lemma InsertedKeepsRows(conn: Connection, rows: Rows, t: Table, containers: Option<seq<Option<LogRecordContainer>>>, ts: Int64)
    ensures forall k | k in rows :: k in Inserted(conn, rows, t, containers, ts).rows
    ensures forall k | k in rows :: Inserted(conn, rows, t, containers, ts).rows[k] == rows[k]
  {
    if containers.Some? && conn == Open && Batch(t, containers.value, ts).Success? {
      ExecuteKeepsRows(rows, Batch(t, containers.value, ts).value);
    }
  }

  /**
   * Every row a log call adds belongs to one of its valid containers and carries the call's batch
   * timestamp, not the record's own timestamp.
   */
  lemma InsertedRowsCarryBatchTimestamp(conn: Connection, rows: Rows, t: Table,
                                        containers: Option<seq<Option<LogRecordContainer>>>, ts: Int64, k: RowKey)
    requires k in Inserted(conn, rows, t, containers, ts).rows && k !in rows
    ensures k.timestamp == ts
    ensures exists i | 0 <= i < |Samples(containers.value)| :: Samples(containers.value)[i].channelId == k.id
  {
    var b := Batch(t, containers.value, ts).value;
    ExecuteKeys(rows, b);
    var i :| 0 <= i < |b| && b[i].key == k;
  }

  /** Invalid containers are skipped: a list without a valid container adds nothing and fails only on the connection. */
  lemma InsertedSkipsInvalid(conn: Connection, rows: Rows, t: Table, cs: seq<Option<LogRecordContainer>>, ts: Int64)
    requires forall i | 0 <= i < |cs| :: !IsContainerValid(cs[i])
    ensures Inserted(conn, rows, t, Some(cs), ts).rows == rows
    ensures Inserted(conn, rows, t, Some(cs), ts).outcome == if conn == Open then Pass else Fail(NotOpen(conn))
  {
    NoValidNoSamples(cs);
  }

  lemma {:induction false} NoValidNoSamples(cs: seq<Option<LogRecordContainer>>)
    requires forall i | 0 <= i < |cs| :: !IsContainerValid(cs[i])
    ensures Samples(cs) == []
  {
    if cs != [] {
      NoValidNoSamples(cs[..|cs| - 1]);
    }
  }

  /**
   * A valid container of a successful call is stored under (its channel, the batch timestamp)
   * with its converted value and its flag code, VALID when it has no flag, provided no earlier
   * container of the call had the same channel and the key was free.
   */
  lemma InsertedStoresSample(conn: Connection, rows: Rows, t: Table, cs: seq<Option<LogRecordContainer>>, ts: Int64, i: int)
    requires conn == Open && Batch(t, cs, ts).Success?
    requires 0 <= i < |Samples(cs)| && RowKey(Samples(cs)[i].channelId, ts) !in rows
    requires forall j | 0 <= j < i :: Samples(cs)[j].channelId != Samples(cs)[i].channelId
    ensures var s := Samples(cs)[i]; var key := RowKey(s.channelId, ts);
      && key in Inserted(conn, rows, t, Some(cs), ts).rows
      && Some(Inserted(conn, rows, t, Some(cs), ts).rows[key].value) == Convert(t, s.value)
      && Inserted(conn, rows, t, Some(cs), ts).rows[key].flag == FlagCodeOf(s.flag)
  {
    var b := Batch(t, cs, ts).value;
    assert FirstWithKey(b, i);
    ExecuteFirstWins(rows, b, i);
  }

  /**
   * The primary key (ID, TIMESTAMP) with one batch timestamp per call: two valid containers of
   * the same channel in one call collide, and the call ends in SQLException.
   */
  lemma SameChannelTwiceFails(conn: Connection, rows: Rows, t: Table, cs: seq<Option<LogRecordContainer>>, ts: Int64, i: int, j: int)
    requires conn == Open && Batch(t, cs, ts).Success?
    requires 0 <= i < j < |Samples(cs)| && Samples(cs)[i].channelId == Samples(cs)[j].channelId
    ensures Inserted(conn, rows, t, Some(cs), ts).outcome == Fail(SQLException(DuplicateKey))
  {
    var b := Batch(t, cs, ts).value;
    assert !FirstWithKey(b, j);
    ExecuteFails(rows, b);
  }

  /** A call whose channel is already stored at the batch timestamp collides too. */
  lemma StoredKeyFails(conn: Connection, rows: Rows, t: Table, cs: seq<Option<LogRecordContainer>>, ts: Int64, i: int)
    requires conn == Open && Batch(t, cs, ts).Success?
    requires 0 <= i < |Samples(cs)| && RowKey(Samples(cs)[i].channelId, ts) in rows
    ensures Inserted(conn, rows, t, Some(cs), ts).outcome == Fail(SQLException(DuplicateKey))
  {
    ExecuteFails(rows, Batch(t, cs, ts).value);
  }

  /** A log call keeps every cell of the table of its column type. */
  lemma InsertedCellsFit(conn: Connection, rows: Rows, t: Table, containers: Option<seq<Option<LogRecordContainer>>>, ts: Int64)
    requires CellsFit(t, rows)
    ensures CellsFit(t, Inserted(conn, rows, t, containers, ts).rows)
  {
    if containers.Some? && conn == Open && Batch(t, containers.value, ts).Success? {
      var b := Batch(t, containers.value, ts).value;
      BatchCellsFit(t, containers.value, ts);
      ExecuteFits(t, rows, b);
    }
  }

  lemma {:induction false} ExecuteFits(t: Table, rows: Rows, b: seq<Entry>)
    requires CellsFit(t, rows) && forall e | e in b :: Fits(t, e.row.value)
    ensures CellsFit(t, Execute(rows, b).rows)
  {
    if b != [] {
      ExecuteFits(t, rows, b[..|b| - 1]);
    }
  }

  // ---------------------------------------------------------------------------------------------
  // getRecords

  /** The record getRecords builds from a row of a channel of type vt. */
  function RecordOf(vt: ValueType, k: RowKey, row: Row): Record
    requires Fits(TableFor(vt), row.value)
  {
    Record(Some(Decode(vt, row.value)), Some(k.timestamp), Some(row.flag))
  }

  /** order lists every key of keys exactly once. */
  ghost predicate Enumerates(order: seq<RowKey>, keys: set<RowKey>) {
    && (forall k :: k in keys <==> k in order)
    && |order| == |keys|
    && (forall i, j | 0 <= i < j < |order| :: order[i] != order[j])
  }

  /**
   * records are the rows of sel, one record per row, in the order order: an enumeration of the
   * selected keys.
   */
  ghost predicate ListsRows(vt: ValueType, sel: Rows, records: seq<Record>, order: seq<RowKey>)
    requires CellsFit(TableFor(vt), sel)
  {
    && Enumerates(order, sel.Keys)
    && |records| == |order|
    && forall i | 0 <= i < |order| :: order[i] in sel && records[i] == RecordOf(vt, order[i], sel[order[i]])
  }

  /** The selection of a table whose cells fit keeps them fitting. */
  lemma SelectedCellsFit(t: Table, rows: Rows, id: string, startTime: Int64, endTime: Int64)
    requires CellsFit(t, rows)
    ensures CellsFit(t, Selected(rows, id, startTime, endTime))
  {
  }

  // ---------------------------------------------------------------------------------------------
  // deleteRecordsBefore

  /** The order in which deleteRecordsBefore issues its five DELETE statements. */
  const DeleteOrder: seq<Table> := [DoubleValues, LongValues, IntValues, BoolValues, StringValues]

  /** Every table after DELETE ... WHERE TIMESTAMP<cutoff. */
  function PurgeAll(tables: map<Table, Rows>, cutoff: Int64): map<Table, Rows> {
    map t | t in tables :: Purge(tables[t], cutoff)
  }

  /** The sum of the update counts of the DELETEs on the tables of order. */
  function SumRemoved(tables: map<Table, Rows>, order: seq<Table>, cutoff: Int64): nat
    requires forall i | 0 <= i < |order| :: order[i] in tables
  {
    if order == [] then 0
    else SumRemoved(tables, order[..|order| - 1], cutoff) + RemovedCount(tables[order[|order| - 1]], cutoff)
  }

  /** The number of rows in the tables of order. */
  function RowCount(tables: map<Table, Rows>, order: seq<Table>): nat
    requires forall i | 0 <= i < |order| :: order[i] in tables
  {
    if order == [] then 0
    else RowCount(tables, order[..|order| - 1]) + |tables[order[|order| - 1]].Keys|
  }

  /** The count deleteRecordsBefore returns is the number of rows it removed from the tables. */
  lemma {:induction false} SumRemovedIsRowsRemoved(tables: map<Table, Rows>, order: seq<Table>, cutoff: Int64)
    requires forall i | 0 <= i < |order| :: order[i] in tables
    ensures SumRemoved(tables, order, cutoff) == RowCount(tables, order) - RowCount(PurgeAll(tables, cutoff), order)
  {
    if order != [] {
      SumRemovedIsRowsRemoved(tables, order[..|order| - 1], cutoff);
      PurgeCount(tables[order[|order| - 1]], cutoff);
    }
  }

  /** The five DELETEs visit every value table exactly once. */
  lemma DeleteOrderCoversAllTables()
    ensures forall t :: t in AllTables <==> t in DeleteOrder
    ensures forall i, j | 0 <= i < j < |DeleteOrder| :: DeleteOrder[i] != DeleteOrder[j]
  {
  }

  /** Strict cutoff: a row survives exactly when its timestamp is at or after the cutoff. */
  lemma PurgeAllKeeps(tables: map<Table, Rows>, cutoff: Int64, t: Table, k: RowKey)
    requires t in tables
    ensures t in PurgeAll(tables, cutoff)
    ensures k in PurgeAll(tables, cutoff)[t] <==> k in tables[t] && k.timestamp >= cutoff
    ensures k in PurgeAll(tables, cutoff)[t] ==> PurgeAll(tables, cutoff)[t][k] == tables[t][k]
  {
  }

  // ---------------------------------------------------------------------------------------------
  // The two loops of a log call

  /** The addBatch loop: binds one entry per valid container; stops at a failing conversion. */
  method AddBatch(t: Table, cs: seq<Option<LogRecordContainer>>, timestamp: Int64) returns (r: Result<seq<Entry>, Error>)
    ensures r == Batch(t, cs, timestamp)
  {
    var batch: seq<Entry> := [];
    var i := 0;
    while i < |cs|
      invariant 0 <= i <= |cs|
      invariant Batch(t, cs[..i], timestamp) == Success(batch)
    {
      assert cs[..i + 1][..i] == cs[..i];
      var c := cs[i];
      if IsContainerValid(c) {
        var s := SampleOf(c);
        var cell := Convert(t, s.value);
        if cell.None? {
          // the conversion throws: the rest of the list is not looked at
          BatchFailsAt(t, cs, timestamp, i);
          return Failure(TypeConversion);
        }
        batch := batch + [Entry(RowKey(s.channelId, timestamp), Row(cell.value, FlagCodeOf(s.flag)))];
      }
      i := i + 1;
    }
    assert cs[..i] == cs;
    r := Success(batch);
  }

  /** executeBatch: inserts the entries in order, rejecting those whose key is present. */
  method ExecuteBatch(ghost t: Table, rows0: Rows, batch: seq<Entry>) returns (rows: Rows, failed: bool)
    requires CellsFit(t, rows0) && forall e | e in batch :: Fits(t, e.row.value)
    ensures Executed(rows, failed) == Execute(rows0, batch)
    ensures CellsFit(t, rows)
  {
    rows, failed := rows0, false;
    var j := 0;
    while j < |batch|
      invariant 0 <= j <= |batch|
      invariant Execute(rows0, batch[..j]) == Executed(rows, failed)
      invariant CellsFit(t, rows)
    {
      assert batch[..j + 1][..j] == batch[..j];
      var e := batch[j];
      assert e in batch;
      if e.key in rows {
        failed := true;
      } else {
        rows := rows[e.key := e.row];
      }
      j := j + 1;
    }
    assert batch[..j] == batch;
  }

  /** Purging keeps all five tables and every cell of its column type. */
  lemma PurgeAllValid(tables: map<Table, Rows>, cutoff: Int64)
    requires TablesValid(tables)
    ensures TablesValid(PurgeAll(tables, cutoff))
  {
    forall t | t in PurgeAll(tables, cutoff) ensures CellsFit(t, PurgeAll(tables, cutoff)[t]) {
      assert CellsFit(t, tables[t]);
    }
  }

  /** The five DELETE statements of deleteRecordsBefore, in order, and the sum of their counts. */
  method PurgeTables(tables0: map<Table, Rows>, timestamp: Int64) returns (tables: map<Table, Rows>, result: nat)
    requires tables0.Keys == AllTables
    ensures tables == PurgeAll(tables0, timestamp)
    ensures result == SumRemoved(tables0, DeleteOrder, timestamp)
  {
    tables, result := tables0, 0;
    var i := 0;
    while i < |DeleteOrder|
      invariant 0 <= i <= |DeleteOrder|
      invariant tables.Keys == AllTables
      invariant forall j | 0 <= j < |DeleteOrder| ::
        tables[DeleteOrder[j]] == if j < i then Purge(tables0[DeleteOrder[j]], timestamp) else tables0[DeleteOrder[j]]
      invariant result == SumRemoved(tables0, DeleteOrder[..i], timestamp)
    {
      assert DeleteOrder[..i + 1][..i] == DeleteOrder[..i];
      var t := DeleteOrder[i];
      result := result + RemovedCount(tables[t], timestamp);
      tables := tables[t := Purge(tables[t], timestamp)];
      i := i + 1;
    }
    assert DeleteOrder[..i] == DeleteOrder;
    PurgedInDeleteOrder(tables0, tables, timestamp);
  }

  /** Tables each purged in delete order are the purge of all tables. */
  lemma PurgedInDeleteOrder(tables0: map<Table, Rows>, tables: map<Table, Rows>, cutoff: Int64)
    requires tables0.Keys == AllTables && tables.Keys == AllTables
    requires forall j | 0 <= j < |DeleteOrder| :: tables[DeleteOrder[j]] == Purge(tables0[DeleteOrder[j]], cutoff)
    ensures tables == PurgeAll(tables0, cutoff)
  {
    forall t | t in AllTables ensures tables[t] == PurgeAll(tables0, cutoff)[t] {
      assert t == DeleteOrder[0] || t == DeleteOrder[1] || t == DeleteOrder[2] || t == DeleteOrder[3] || t == DeleteOrder[4];
    }
  }

  // ---------------------------------------------------------------------------------------------
  // The store

  class DatabaseWrapper {
    var connection: Connection
    /** The CHANNELS table, keyed by ID. */
    var channels: map<string, ChannelRow>
    /** The five value tables. */
    var tables: map<Table, Rows>

    ghost predicate Valid()
      reads this
    {
      TablesValid(tables)
    }

    /** A wrapper whose connection is still null, over a database with no rows. */
    constructor ()
      ensures Valid()
      ensures connection == NoConnection && channels == map[] && tables == EmptyTables
    {
      connection := NoConnection;
      channels := map[];
      tables := EmptyTables;
    }

    /**
     * connect: loads the driver, opens the connection and creates the tables that do not exist
     * (CREATE TABLE IF NOT EXISTS leaves existing rows alone). Whether the driver class is found
     * and whether the database can be opened are parameters.
     */
    method Connect(driverFound: bool, opens: bool) returns (r: Outcome<Error>)
      requires Valid()
      modifies this`connection
      ensures Valid()
      ensures !driverFound ==> r == Fail(ClassNotFound) && connection == old(connection)
      ensures driverFound && !opens ==> r == Fail(SQLException(OpenFailed)) && connection == old(connection)
      ensures driverFound && opens ==> r == Pass && connection == Open
    {
      if !driverFound {
        return Fail(ClassNotFound);
      }
      if !opens {
        return Fail(SQLException(OpenFailed));
      }
      connection := Open;
      r := Pass;
    }

    /** disconnect: closes the connection if there is one; a null connection is left alone. */
    method Disconnect()
      modifies this`connection
      ensures connection == if old(connection) == NoConnection then NoConnection else Closed
    {
      if connection != NoConnection {
        connection := Closed;
      }
    }

    /**
     * addOrUpdateChannel: MERGE INTO CHANNELS ... KEY(ID), stamping LAST_INIT with the current
     * time now and VALUE_TYPE with the type's name.
     */
    method AddOrUpdateChannel(channel: LogChannel, now: Int64) returns (r: Outcome<Error>)
      modifies this`channels
      ensures connection != Open ==> r == Fail(NotOpen(connection)) && channels == old(channels)
      ensures connection == Open ==> r == Pass && channels == old(channels)[channel.id := ChannelRowOf(channel, now)]
      ensures connection == Open ==>
        && ChannelValueType(channel.id) == Some(Name(channel.valueType))
        && ValueOf(ChannelValueType(channel.id).value) == Some(channel.valueType)
    {
      if connection != Open {
        return Fail(NotOpen(connection));
      }
      channels := channels[channel.id := ChannelRowOf(channel, now)];
      ValueOfName(channel.valueType);
      r := Pass;
    }

    /**
     * log{Long,Int,Bool,String,Double}Values, the five of them in one: binds one INSERT per valid
     * container of the list into table t, every one with the batch timestamp, then executes the
     * batch.
     */
    method LogValues(t: Table, containers: Option<seq<Option<LogRecordContainer>>>, timestamp: Int64) returns (r: Outcome<Error>)
      requires Valid()
      modifies this`tables
      ensures Valid()
      ensures tables == old(tables)[t := Inserted(connection, old(tables)[t], t, containers, timestamp).rows]
      ensures r == Inserted(connection, old(tables)[t], t, containers, timestamp).outcome
    {
      if containers.None? {
        return Pass;
      }
      if connection != Open {
        return Fail(NotOpen(connection));
      }
      var batch := AddBatch(t, containers.value, timestamp);
      if batch.Failure? {
        return Fail(batch.error);
      }
      BatchCellsFit(t, containers.value, timestamp);
      var rows, failed := ExecuteBatch(t, tables[t], batch.value);
      tables := tables[t := rows];
      r := if failed then Fail(SQLException(DuplicateKey)) else Pass;
    }

    /** getChannelValueType: the VALUE_TYPE column of the channel's CHANNELS row, null when there is none. */
    function ChannelValueType(channelId: string): (r: Option<string>)
      reads this
      ensures r.Some? <==> channelId in channels
      ensures r.Some? ==> r.value == channels[channelId].valueType
    {
      if channelId in channels then Some(channels[channelId].valueType) else None
    }

    /**
     * getRecords: resolves the channel's value type in CHANNELS (an unknown channel gives an
     * empty list), selects the rows of that type's table with that ID and startTime <= TIMESTAMP
     * <= endTime, and builds one record per row. The query has no ORDER BY: order is the order in
     * which the result set delivers the rows, any enumeration of them.
     */
    method GetRecords(channelId: string, startTime: Int64, endTime: Int64) returns (r: Result<seq<Record>, Error>, ghost order: seq<RowKey>)
      requires Valid()
      ensures connection != Open ==> r == Failure(NotOpen(connection))
      ensures connection == Open && channelId !in channels ==> r == Success([])
      ensures connection == Open && channelId in channels && ValueOf(channels[channelId].valueType).None? ==>
        r == Failure(IllegalArgument)
      ensures connection == Open && channelId in channels && ValueOf(channels[channelId].valueType).Some? ==>
        var vt := ValueOf(channels[channelId].valueType).value;
        var sel := Selected(tables[TableFor(vt)], channelId, startTime, endTime);
        r.Success? && ListsRows(vt, sel, r.value, order)
    {
      order := [];
      if connection != Open {
        return Failure(NotOpen(connection)), order;
      }
      var name := ChannelValueType(channelId);
      if name.None? {
        // channel not found in database
        return Success([]), order;
      }
      var parsed := ValueOf(name.value);
      if parsed.None? {
        return Failure(IllegalArgument), order;
      }
      var vt := parsed.value;
      var sel := Selected(tables[TableFor(vt)], channelId, startTime, endTime);
      var remaining := sel.Keys;
      var records: seq<Record> := [];
      while remaining != {}
        invariant remaining <= sel.Keys
        invariant forall k :: k in sel.Keys <==> k in remaining || k in order
        invariant forall i | 0 <= i < |order| :: order[i] !in remaining
        invariant forall i, j | 0 <= i < j < |order| :: order[i] != order[j]
        invariant |records| == |order| && |order| + |remaining| == |sel.Keys|
        invariant forall i | 0 <= i < |order| :: order[i] in sel && records[i] == RecordOf(vt, order[i], sel[order[i]])
        decreases remaining
      {
        // result.next(): whichever row the result set delivers next
        var k :| k in remaining;
        records := records + [RecordOf(vt, k, sel[k])];
        order := order + [k];
        remaining := remaining - {k};
      }
      r := Success(records);
    }

    /**
     * deleteRecordsBefore: DELETE FROM <table> WHERE TIMESTAMP<timestamp on the five tables in
     * turn, summing the update counts. CHANNELS is not touched.
     */
    method DeleteRecordsBefore(timestamp: Int64) returns (r: Result<int, Error>)
      requires Valid()
      modifies this`tables
      ensures Valid()
      ensures connection != Open ==> r == Failure(NotOpen(connection)) && tables == old(tables)
      ensures connection == Open ==>
        && tables == PurgeAll(old(tables), timestamp)
        && r == Success(SumRemoved(old(tables), DeleteOrder, timestamp))
    {
      if connection != Open {
        return Failure(NotOpen(connection));
      }
      var purged, result := PurgeTables(tables, timestamp);
      PurgeAllValid(tables, timestamp);
      tables := purged;
      r := Success(result);
    }
  }
}
