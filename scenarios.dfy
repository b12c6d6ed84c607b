/**
 * End-to-end uses of the logger against a new database: the round trips of the logger's unit
 * tests and a few neighbouring cases, each proved for every channel id, value and timestamp.
 */
module Scenarios {
  import opened Wrappers
  import opened Types
  import opened Tables
  import opened Database
  import opened Logger

  /** The container list a test logs: one container of channelId holding one VALID record. */
  function OneRecord(channelId: string, v: Value, timestamp: Int64): seq<Option<LogRecordContainer>> {
    [Some(Container(Some(channelId), Some(Record(Some(v), Some(timestamp), Some(VALID)))))]
  }

  /** The directory setChannelsToLog builds for one channel of v's type, and its routing. */
  lemma OneChannel(channelId: string, v: Value, cs: seq<Option<LogRecordContainer>>)
    requires forall i | 0 <= i < |cs| :: cs[i].Some? && cs[i].value.channelId == Some(channelId)
    ensures
      var dir := Directory([LogChannel(channelId, None, None, TypeOf(v))]);
      forall i | 0 <= i < |cs| :: Known(dir, cs[i]) && Route(dir, cs[i]) == TableFor(TypeOf(v))
  {
    var ch := LogChannel(channelId, None, None, TypeOf(v));
    assert [ch][..0] == [];
    assert Directory([ch]) == map[channelId := ch];
  }

  /** The write of OneRecord to an empty table of v's own type stores its one row. */
  lemma InsertedOne(channelId: string, v: Value, timestamp: Int64)
    requires channelId != ""
    ensures
      var t := TableFor(TypeOf(v));
      Inserted(Open, map[], t, Some(OneRecord(channelId, v, timestamp)), timestamp)
        == InsertResult(map[RowKey(channelId, timestamp) := Row(Convert(t, v).value, VALID)], Pass)
  {
    var cs := OneRecord(channelId, v, timestamp);
    var t := TableFor(TypeOf(v));
    BatchSingle(t, cs[0], timestamp);
    ExecuteSingle(map[], Entry(RowKey(channelId, timestamp), Row(Convert(t, v).value, VALID)));
  }

  /**
   * The write of two containers of one channel with one timestamp to an empty table: the first
   * is stored, the second collides with it and the call ends in SQLException.
   */
  lemma InsertedTwice(channelId: string, v: Value, w: Value, timestamp: Int64)
    requires channelId != "" && TypeOf(w) == TypeOf(v)
    ensures
      var t := TableFor(TypeOf(v));
      var cs := OneRecord(channelId, v, timestamp) + OneRecord(channelId, w, timestamp);
      Inserted(Open, map[], t, Some(cs), timestamp)
        == InsertResult(map[RowKey(channelId, timestamp) := Row(Convert(t, v).value, VALID)], Fail(SQLException(DuplicateKey)))
  {
    var cs := OneRecord(channelId, v, timestamp) + OneRecord(channelId, w, timestamp);
    var t := TableFor(TypeOf(v));
    assert cs[..1] == OneRecord(channelId, v, timestamp);
    assert cs[..1][..0] == [];
    assert Samples(cs[..1]) == [SampleOf(cs[0])];
    assert Samples(cs) == [SampleOf(cs[0]), SampleOf(cs[1])];
    var k := RowKey(channelId, timestamp);
    var row := Row(Convert(t, v).value, VALID);
    var b := Batch(t, cs, timestamp);
    assert Convert(t, Samples(cs)[0].value).Some? && Convert(t, Samples(cs)[1].value).Some?;
    assert b.Success? && |b.value| == 2;
    assert b.value[0] == Entry(k, row) && b.value[1].key == k;
    assert b.value[..1] == [Entry(k, row)];
    assert b.value[..1][..0] == [];
    assert Execute(map[], b.value[..1]) == Executed(map[k := row], false);
  }

  /** log of OneRecord for a registered channel of v's type on an empty store. */
  lemma LoggedOne(channelId: string, v: Value, timestamp: Int64)
    requires channelId != ""
    ensures
      var t := TableFor(TypeOf(v));
      Logged(true, Directory([LogChannel(channelId, None, None, TypeOf(v))]), Open, EmptyTables, Some(OneRecord(channelId, v, timestamp)), timestamp)
        == Written(EmptyTables[t := map[RowKey(channelId, timestamp) := Row(Convert(t, v).value, VALID)]], Pass)
  {
    var dir := Directory([LogChannel(channelId, None, None, TypeOf(v))]);
    OneChannel(channelId, v, OneRecord(channelId, v, timestamp));
    InsertedOne(channelId, v, timestamp);
    LoggedSingleTable(dir, Open, EmptyTables, OneRecord(channelId, v, timestamp), timestamp, TableFor(TypeOf(v)));
  }

  /** log of two containers of one registered channel with one timestamp on an empty store. */
  lemma LoggedTwice(channelId: string, v: Value, w: Value, timestamp: Int64)
    requires channelId != "" && TypeOf(w) == TypeOf(v)
    ensures
      var t := TableFor(TypeOf(v));
      var cs := OneRecord(channelId, v, timestamp) + OneRecord(channelId, w, timestamp);
      Logged(true, Directory([LogChannel(channelId, None, None, TypeOf(v))]), Open, EmptyTables, Some(cs), timestamp)
        == Written(EmptyTables[t := map[RowKey(channelId, timestamp) := Row(Convert(t, v).value, VALID)]], Pass)
  {
    var dir := Directory([LogChannel(channelId, None, None, TypeOf(v))]);
    var cs := OneRecord(channelId, v, timestamp) + OneRecord(channelId, w, timestamp);
    OneChannel(channelId, v, cs);
    InsertedTwice(channelId, v, w, timestamp);
    LoggedSingleTable(dir, Open, EmptyTables, cs, timestamp, TableFor(TypeOf(v)));
  }

  /** Reading [timestamp, timestamp] from a table holding one row at that key gives that row's record. */
  lemma ReadBackOne(vt: ValueType, tables: map<Table, Rows>, k: RowKey, row: Row, records: seq<Record>, order: seq<RowKey>)
    requires TableFor(vt) in tables && tables[TableFor(vt)] == map[k := row]
    requires Fits(TableFor(vt), row.value)
    requires ListsRows(vt, Selected(tables[TableFor(vt)], k.id, k.timestamp, k.timestamp), records, order)
    ensures records == [RecordOf(vt, k, row)]
  {
    assert Selected(tables[TableFor(vt)], k.id, k.timestamp, k.timestamp) == map[k := row];
    ListsOne(vt, k, row, records, order);
  }

  /** A selection that holds one key is listed as exactly one record. */
  lemma ListsOne(vt: ValueType, k: RowKey, row: Row, records: seq<Record>, order: seq<RowKey>)
    requires Fits(TableFor(vt), row.value)
    requires ListsRows(vt, map[k := row], records, order)
    ensures records == [RecordOf(vt, k, row)]
  {
    assert map[k := row].Keys == {k};
  }

  /**
   * The round trip of the logger's unit tests: register a channel of v's type, log one VALID
   * record of v at timestamp and read the interval [timestamp, timestamp] back. Exactly that
   * record comes back, its value converted to the column type of the channel's table.
   */
  method RoundTrip(channelId: string, v: Value, timestamp: Int64) returns (records: Result<seq<Record>, Error>)
    requires channelId != ""
    ensures records == Success([Record(Convert(TableFor(TypeOf(v)), v), Some(timestamp), Some(VALID))])
    ensures ContentOf(records.value[0].value.value) == ContentOf(v)
  {
    var logger := new H2Logger();
    logger.Activate(None, true, true);
    var ch := LogChannel(channelId, None, None, TypeOf(v));
    var registered := logger.SetChannelsToLog(Some([ch]), timestamp);
    assert logger.database.channels == map[channelId := ChannelRowOf(ch, timestamp)];
    ValueOfName(TypeOf(v));
    LoggedOne(channelId, v, timestamp);
    var logged := logger.Log(Some(OneRecord(channelId, v, timestamp)), timestamp);
    ghost var order;
    records, order := logger.GetRecords(channelId, timestamp, timestamp);
    var t := TableFor(TypeOf(v));
    ReadBackOne(TypeOf(v), logger.database.tables, RowKey(channelId, timestamp), Row(Convert(t, v).value, VALID), records.value, order);
  }

  /**
   * A log call for a channel that was never registered stores nothing and returns normally; the
   * read is empty.
   */
  method UnregisteredChannel(channelId: string, v: Value, timestamp: Int64)
    returns (logged: Outcome<Error>, stored: map<Table, Rows>, records: Result<seq<Record>, Error>)
    ensures logged == Pass && stored == EmptyTables
    ensures records == Success([])
  {
    var logger := new H2Logger();
    logger.Activate(None, true, true);
    LoggedUnknownIsNoOp(logger.channelsToLog, Open, EmptyTables, OneRecord(channelId, v, timestamp), timestamp);
    logged := logger.Log(Some(OneRecord(channelId, v, timestamp)), timestamp);
    stored := logger.database.tables;
    ghost var order;
    records, order := logger.GetRecords(channelId, timestamp, timestamp);
  }

  /** After deactivate, log returns normally and getRecords raises IOException. */
  method AfterDeactivate(channelId: string, v: Value, timestamp: Int64)
    returns (logged: Outcome<Error>, records: Result<seq<Record>, Error>)
    ensures logged == Pass
    ensures records == Failure(IOException(Some(ConnectionClosed)))
  {
    var logger := new H2Logger();
    logger.Activate(None, true, true);
    var registered := logger.SetChannelsToLog(Some([LogChannel(channelId, None, None, TypeOf(v))]), timestamp);
    logger.Deactivate();
    LoggedClosedIsNoOp(logger.channelsToLog, logger.database.tables, OneRecord(channelId, v, timestamp), timestamp);
    logged := logger.Log(Some(OneRecord(channelId, v, timestamp)), timestamp);
    ghost var order;
    records, order := logger.GetRecords(channelId, timestamp, timestamp);
  }

  /** When the driver is missing the logger stays uninitialised: log is ignored, reads fail. */
  method DriverMissing(channelId: string, v: Value, timestamp: Int64)
    returns (logged: Outcome<Error>, records: Result<seq<Record>, Error>, scheduled: bool)
    ensures logged == Pass && records == Failure(IOException(None)) && !scheduled
  {
    var logger := new H2Logger();
    logger.Activate(None, false, true);
    var registered := logger.SetChannelsToLog(Some([LogChannel(channelId, None, None, TypeOf(v))]), timestamp);
    logged := logger.Log(Some(OneRecord(channelId, v, timestamp)), timestamp);
    ghost var order;
    records, order := logger.GetRecords(channelId, timestamp, timestamp);
    scheduled := logger.cleanupTask != null;
  }

  /**
   * A storage interval of zero switches the cleanup timer off; any other interval schedules it,
   * first after ten seconds and then once a day.
   */
  method CleanupScheduled(storageInterval: Int64) returns (scheduled: bool, schedule: Option<Schedule>)
    ensures scheduled <==> storageInterval != 0
    ensures schedule == if scheduled then Some(Schedule(10_000, 86_400_000)) else None
  {
    var logger := new H2Logger();
    logger.Activate(Some(storageInterval), true, true);
    scheduled := logger.cleanupTask != null;
    schedule := logger.cleanupSchedule;
  }

  /**
   * Two containers of one channel in one log call share a primary key: the first is stored, the
   * second is rejected and the SQLException that ends the batch is swallowed by log.
   */
  method SameChannelTwice(channelId: string, v: Value, w: Value, timestamp: Int64)
    returns (logged: Outcome<Error>, records: Result<seq<Record>, Error>)
    requires channelId != "" && TypeOf(w) == TypeOf(v)
    ensures logged == Pass
    ensures records == Success([Record(Convert(TableFor(TypeOf(v)), v), Some(timestamp), Some(VALID))])
  {
    var logger := new H2Logger();
    logger.Activate(None, true, true);
    var ch := LogChannel(channelId, None, None, TypeOf(v));
    var registered := logger.SetChannelsToLog(Some([ch]), timestamp);
    assert logger.database.channels == map[channelId := ChannelRowOf(ch, timestamp)];
    ValueOfName(TypeOf(v));
    var cs := OneRecord(channelId, v, timestamp) + OneRecord(channelId, w, timestamp);
    LoggedTwice(channelId, v, w, timestamp);
    logged := logger.Log(Some(cs), timestamp);
    ghost var order;
    records, order := logger.GetRecords(channelId, timestamp, timestamp);
    var t := TableFor(TypeOf(v));
    ReadBackOne(TypeOf(v), logger.database.tables, RowKey(channelId, timestamp), Row(Convert(t, v).value, VALID), records.value, order);
  }
}
