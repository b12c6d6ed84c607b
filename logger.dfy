/**
 * H2Logger: the logger service. It owns the store, an in-memory directory of the channels to log,
 * and the cleanup task. Writes are routed by the directory's value type into one partition per
 * value table; reads go to the store.
 */
module Logger {
  import opened Wrappers
  import opened Types
  import opened Tables
  import opened Database
  import opened Cleanup

  /** The storage interval when no property sets it: fourteen days in milliseconds. */
  const DEFAULT_STORAGE_INTERVAL: Int64 := 1000 * 60 * 60 * 24 * 14

  /** The cleanup timer's first delay and period, in milliseconds (ten seconds, one day). */
  const CLEANUP_DELAY: Int64 := 10 * 1000
  const CLEANUP_PERIOD: Int64 := 1000 * 60 * 60 * 24

  /** A fixed-rate timer schedule: the delay before the first run and the period between runs. */
  datatype Schedule = Schedule(delay: Int64, period: Int64)

  // ---------------------------------------------------------------------------------------------
  // The channel directory

  /** channelsToLog after clear() and put(id, channel) for each channel of the list, in order. */
  function Directory(chs: seq<LogChannel>): map<string, LogChannel> {
    if chs == [] then map[]
    else Directory(chs[..|chs| - 1])[chs[|chs| - 1].id := chs[|chs| - 1]]
  }

  /** The directory's ids are exactly the listed ones. */
  lemma {:induction false} DirectoryKeys(chs: seq<LogChannel>)
    ensures Directory(chs).Keys == IdsOf(chs)
  {
    if chs != [] {
      DirectoryKeys(chs[..|chs| - 1]);
      IdsOfSnoc(chs);
    }
  }

  /** A later channel with the same id overrides an earlier one. */
  lemma {:induction false} DirectoryLastWins(chs: seq<LogChannel>, i: int)
    requires 0 <= i < |chs| && LastWithId(chs, i)
    ensures chs[i].id in Directory(chs) && Directory(chs)[chs[i].id] == chs[i]
  {
    var n := |chs| - 1;
    if i < n {
      var init := chs[..n];
      assert init[i] == chs[i];
      assert LastWithId(init, i);
      DirectoryLastWins(init, i);
    }
  }

  /**
   * The directory and the CHANNELS table agree: registering a list upserts exactly the
   * directory's channels, each with its row.
   */
  lemma {:induction false} MergeAllIsDirectory(channels: map<string, ChannelRow>, chs: seq<LogChannel>, now: Int64)
    ensures MergeAll(channels, chs, now) == channels + map id | id in Directory(chs) :: ChannelRowOf(Directory(chs)[id], now)
  {
    if chs != [] {
      MergeAllIsDirectory(channels, chs[..|chs| - 1], now);
    }
  }

  // ---------------------------------------------------------------------------------------------
  // Partitioning a log call

  /** log dereferences every container and looks its id up: none of them may be null. */
  predicate Routable(cs: seq<Option<LogRecordContainer>>) {
    forall i | 0 <= i < |cs| :: cs[i].Some? && cs[i].value.channelId.Some?
  }

  /** The directory has the container's channel. */
  predicate Known(dir: map<string, LogChannel>, c: Option<LogRecordContainer>) {
    c.Some? && c.value.channelId.Some? && c.value.channelId.value in dir
  }

  /** The table the directory routes a known container to. */
  function Route(dir: map<string, LogChannel>, c: Option<LogRecordContainer>): Table
    requires Known(dir, c)
  {
    TableFor(dir[c.value.channelId.value].valueType)
  }

  /** The list for table t: the known containers routed to t, in input order. */
  function Partition(dir: map<string, LogChannel>, cs: seq<Option<LogRecordContainer>>, t: Table): (p: seq<Option<LogRecordContainer>>)
  {
    if cs == [] then []
    else
      var c := cs[|cs| - 1];
      Partition(dir, cs[..|cs| - 1], t) + if Known(dir, c) && Route(dir, c) == t then [c] else []
  }

  /** The five lists of a log call. */
  function Partitions(dir: map<string, LogChannel>, cs: seq<Option<LogRecordContainer>>): (parts: map<Table, seq<Option<LogRecordContainer>>>)
    ensures parts.Keys == AllTables
    ensures forall t | t in parts :: forall c | c in parts[t] :: Known(dir, c) && Route(dir, c) == t
  {
    forall t | t in AllTables ensures forall c | c in Partition(dir, cs, t) :: Known(dir, c) && Route(dir, c) == t {
      PartitionRouted(dir, cs, t);
    }
    map t | t in AllTables :: Partition(dir, cs, t)
  }

  /** The known containers of a list, in input order. */
  function KnownOf(dir: map<string, LogChannel>, cs: seq<Option<LogRecordContainer>>): seq<Option<LogRecordContainer>> {
    if cs == [] then []
    else KnownOf(dir, cs[..|cs| - 1]) + if Known(dir, cs[|cs| - 1]) then [cs[|cs| - 1]] else []
  }

  /** A list holds only known containers routed to its table. */
  lemma {:induction false} PartitionRouted(dir: map<string, LogChannel>, cs: seq<Option<LogRecordContainer>>, t: Table)
    ensures forall c | c in Partition(dir, cs, t) :: Known(dir, c) && Route(dir, c) == t
  {
    if cs != [] {
      PartitionRouted(dir, cs[..|cs| - 1], t);
    }
  }

  /** Partitions are taken element by element, so input order is kept. */
  lemma {:induction false} PartitionAppend(dir: map<string, LogChannel>, a: seq<Option<LogRecordContainer>>, b: seq<Option<LogRecordContainer>>, t: Table)
    ensures Partition(dir, a + b, t) == Partition(dir, a, t) + Partition(dir, b, t)
    decreases |b|
  {
    if b == [] {
      assert a + b == a;
    } else {
      var b' := b[..|b| - 1];
      assert (a + b)[..|a + b| - 1] == a + b';
      PartitionAppend(dir, a, b', t);
    }
  }

  /** The five lists of a log call, one after the other in write order. */
  function AllPartitions(dir: map<string, LogChannel>, cs: seq<Option<LogRecordContainer>>): seq<Option<LogRecordContainer>> {
    Partition(dir, cs, LongValues) + Partition(dir, cs, IntValues) + Partition(dir, cs, BoolValues)
      + Partition(dir, cs, StringValues) + Partition(dir, cs, DoubleValues)
  }

  /**
   * Every known container lands in exactly one list and unknown ones in none: the five lists
   * together hold the known containers, each as often as it occurs in the input.
   */
  lemma {:induction false} PartitionsCoverKnown(dir: map<string, LogChannel>, cs: seq<Option<LogRecordContainer>>)
    ensures multiset(AllPartitions(dir, cs)) == multiset(KnownOf(dir, cs))
  {
    if cs != [] {
      var init, c := cs[..|cs| - 1], cs[|cs| - 1];
      PartitionsCoverKnown(dir, init);
      var e := if Known(dir, c) then [c] else [];
      var l, i, b, s, d := Partition(dir, init, LongValues), Partition(dir, init, IntValues), Partition(dir, init, BoolValues),
                           Partition(dir, init, StringValues), Partition(dir, init, DoubleValues);
      var owner := if Known(dir, c) then Route(dir, c) else LongValues;
      PartitionSnoc(dir, cs, owner);
      SumWithOne(l, i, b, s, d, e, owner);
    }
  }

  /** The last container goes to the list of its table, if it is known, and to no other. */
  lemma PartitionSnoc(dir: map<string, LogChannel>, cs: seq<Option<LogRecordContainer>>, owner: Table)
    requires cs != [] && (Known(dir, cs[|cs| - 1]) ==> owner == Route(dir, cs[|cs| - 1]))
    ensures
      var init, c := cs[..|cs| - 1], cs[|cs| - 1];
      var e := if Known(dir, c) then [c] else [];
      forall u :: Partition(dir, cs, u) == Partition(dir, init, u) + if owner == u then e else []
  {
  }

  /** The five lists as a map display. */
  lemma PartitionsDisplay(dir: map<string, LogChannel>, cs: seq<Option<LogRecordContainer>>)
    ensures Partitions(dir, cs) == map[LongValues := Partition(dir, cs, LongValues), IntValues := Partition(dir, cs, IntValues),
                                       BoolValues := Partition(dir, cs, BoolValues), StringValues := Partition(dir, cs, StringValues),
                                       DoubleValues := Partition(dir, cs, DoubleValues)]
  {
  }

  /** Adding a list to one of five lists adds its elements once to their concatenation. */
  lemma SumWithOne<T>(l: seq<T>, i: seq<T>, b: seq<T>, s: seq<T>, d: seq<T>, e: seq<T>, owner: Table)
    ensures multiset((l + if owner == LongValues then e else []) + (i + if owner == IntValues then e else [])
                     + (b + if owner == BoolValues then e else []) + (s + if owner == StringValues then e else [])
                     + (d + if owner == DoubleValues then e else []))
         == multiset(l + i + b + s + d) + multiset(e)
  {
  }

  // ---------------------------------------------------------------------------------------------
  // The writes of a log call

  /** The order in which log writes its non-empty lists. */
  const WriteOrder: seq<Table> := [LongValues, IntValues, BoolValues, StringValues, DoubleValues]

  /** The five writes visit every value table exactly once. */
  lemma WriteOrderCoversAllTables()
    ensures forall t :: t in AllTables <==> t in WriteOrder
    ensures forall i, j | 0 <= i < j < |WriteOrder| :: WriteOrder[i] != WriteOrder[j]
  {
  }

  /** The store's tables after the writes of a log call, and how the call ended. */
  datatype Written = Written(tables: map<Table, Rows>, outcome: Outcome<Error>)

  /**
   * The writes for the tables of order, in turn: an empty list is not written; the first write
   * that throws skips the rest, and an SQLException is then swallowed while any other exception
   * escapes.
   */
  function WriteFrom(conn: Connection, tables: map<Table, Rows>, parts: map<Table, seq<Option<LogRecordContainer>>>,
                     order: seq<Table>, ts: Int64): (w: Written)
    requires tables.Keys == AllTables && parts.Keys == AllTables && forall t | t in order :: t in AllTables
    ensures w.tables.Keys == AllTables
    ensures w.outcome.Fail? ==> !IsSqlException(w.outcome.error)
    decreases |order|
  {
    if order == [] then Written(tables, Pass)
    else
      var t := order[0];
      if |parts[t]| == 0 then WriteFrom(conn, tables, parts, order[1..], ts)
      else
        var ins := Inserted(conn, tables[t], t, Some(parts[t]), ts);
        match ins.outcome
        case Pass => WriteFrom(conn, tables[t := ins.rows], parts, order[1..], ts)
        case Fail(_) => Written(tables[t := ins.rows], Swallowed(ins.outcome))
  }

  /** How log ends after a write that ended in o: an SQLException is caught, anything else escapes. */
  function Swallowed(o: Outcome<Error>): (r: Outcome<Error>)
    ensures r.Fail? <==> o.Fail? && !IsSqlException(o.error)
    ensures r.Fail? ==> r == o
  {
    if o.Fail? && !IsSqlException(o.error) then o else Pass
  }

  /** A table whose list is empty, or that order does not name, is not touched. */
  lemma {:induction false} WriteFromContained(conn: Connection, tables: map<Table, Rows>, parts: map<Table, seq<Option<LogRecordContainer>>>,
                                              order: seq<Table>, ts: Int64, u: Table)
    requires tables.Keys == AllTables && parts.Keys == AllTables && forall t | t in order :: t in AllTables
    requires u in AllTables
    ensures parts[u] == [] || u !in order ==> WriteFrom(conn, tables, parts, order, ts).tables[u] == tables[u]
    decreases |order|
  {
    if order != [] {
      var t := order[0];
      if |parts[t]| == 0 {
        WriteFromContained(conn, tables, parts, order[1..], ts, u);
      } else {
        var ins := Inserted(conn, tables[t], t, Some(parts[t]), ts);
        if ins.outcome.Pass? {
          WriteFromContained(conn, tables[t := ins.rows], parts, order[1..], ts, u);
        }
      }
    }
  }

  /** No table appears twice in a write order. */
  ghost predicate Distinct(order: seq<Table>) {
    forall a, b | 0 <= a < b < |order| :: order[a] != order[b]
  }

  /** The write for table t with its list, on the rows t held before the call. */
  function WriteOf(conn: Connection, tables: map<Table, Rows>, parts: map<Table, seq<Option<LogRecordContainer>>>,
                   t: Table, ts: Int64): InsertResult
    requires t in tables && t in parts
  {
    Inserted(conn, tables[t], t, Some(parts[t]), ts)
  }

  /**
   * The writes stop at the first exception. When every write before position i of order passed or
   * was skipped and the write of order[i] fails, the call ends with that failure (an SQLException
   * swallowed), table order[i] holds what that write left, and no table after it is touched.
   */
  lemma {:induction false} WriteFromStopsAtFailure(conn: Connection, tables: map<Table, Rows>,
                                                   parts: map<Table, seq<Option<LogRecordContainer>>>,
                                                   order: seq<Table>, ts: Int64, i: nat)
    requires tables.Keys == AllTables && parts.Keys == AllTables && forall t | t in order :: t in AllTables
    requires Distinct(order) && i < |order| && parts[order[i]] != []
    requires forall j | 0 <= j < i :: parts[order[j]] == [] || WriteOf(conn, tables, parts, order[j], ts).outcome.Pass?
    requires WriteOf(conn, tables, parts, order[i], ts).outcome.Fail?
    ensures WriteFrom(conn, tables, parts, order, ts).outcome == Swallowed(WriteOf(conn, tables, parts, order[i], ts).outcome)
    ensures WriteFrom(conn, tables, parts, order, ts).tables[order[i]] == WriteOf(conn, tables, parts, order[i], ts).rows
    ensures forall j | i < j < |order| :: WriteFrom(conn, tables, parts, order, ts).tables[order[j]] == tables[order[j]]
    ensures forall j | 0 <= j < i ::
              WriteFrom(conn, tables, parts, order, ts).tables[order[j]] ==
              if parts[order[j]] == [] then tables[order[j]] else WriteOf(conn, tables, parts, order[j], ts).rows
    decreases i
  {
    if i == 0 {
      WriteFromFirstFails(conn, tables, parts, order, ts);
    } else {
      var t, rest := order[0], order[1..];
      var tables' := WriteFromFirstPasses(conn, tables, parts, order, ts);
      forall j | 0 <= j < |rest| ensures rest[j] == order[j + 1] && rest[j] != t && tables'[rest[j]] == tables[rest[j]] {
        assert order[j + 1] != t;
      }
      WriteFromStopsAtFailure(conn, tables', parts, rest, ts, i - 1);
      assert t !in rest;
      WriteFromContained(conn, tables', parts, rest, ts, t);
      var w := WriteFrom(conn, tables', parts, rest, ts);
      forall j | 0 < j < i ensures w.tables[order[j]] ==
        if parts[order[j]] == [] then tables[order[j]] else WriteOf(conn, tables, parts, order[j], ts).rows
      {
        assert order[j] == rest[j - 1];
      }
    }
  }

  /** A failing first write ends the writes: the tables after it in order are untouched. */
  lemma WriteFromFirstFails(conn: Connection, tables: map<Table, Rows>, parts: map<Table, seq<Option<LogRecordContainer>>>,
                            order: seq<Table>, ts: Int64)
    requires tables.Keys == AllTables && parts.Keys == AllTables && forall t | t in order :: t in AllTables
    requires Distinct(order) && order != [] && parts[order[0]] != []
    requires WriteOf(conn, tables, parts, order[0], ts).outcome.Fail?
    ensures WriteFrom(conn, tables, parts, order, ts).outcome == Swallowed(WriteOf(conn, tables, parts, order[0], ts).outcome)
    ensures WriteFrom(conn, tables, parts, order, ts).tables[order[0]] == WriteOf(conn, tables, parts, order[0], ts).rows
    ensures forall j | 0 < j < |order| :: WriteFrom(conn, tables, parts, order, ts).tables[order[j]] == tables[order[j]]
  {
    assert forall j | 0 < j < |order| :: order[j] != order[0];
  }

  /**
   * A first write that passes, or is skipped for an empty list, leaves the rest of the writes to
   * run on the tables it returns, which differ from the old ones at most in order[0].
   */
  lemma WriteFromFirstPasses(conn: Connection, tables: map<Table, Rows>, parts: map<Table, seq<Option<LogRecordContainer>>>,
                             order: seq<Table>, ts: Int64) returns (tables': map<Table, Rows>)
    requires tables.Keys == AllTables && parts.Keys == AllTables && forall t | t in order :: t in AllTables
    requires order != [] && (parts[order[0]] == [] || WriteOf(conn, tables, parts, order[0], ts).outcome.Pass?)
    ensures tables'.Keys == AllTables
    ensures tables'[order[0]] == if parts[order[0]] == [] then tables[order[0]] else WriteOf(conn, tables, parts, order[0], ts).rows
    ensures forall u | u in AllTables && u != order[0] :: tables'[u] == tables[u]
    ensures WriteFrom(conn, tables, parts, order, ts) == WriteFrom(conn, tables', parts, order[1..], ts)
  {
    var t := order[0];
    tables' := if |parts[t]| == 0 then tables else tables[t := WriteOf(conn, tables, parts, t, ts).rows];
  }

  /**
   * When every write passes or is skipped, log returns normally and every table of order holds
   * what its own write left, or is unchanged when its list is empty.
   */
  lemma {:induction false} WriteFromAllPass(conn: Connection, tables: map<Table, Rows>,
                                            parts: map<Table, seq<Option<LogRecordContainer>>>,
                                            order: seq<Table>, ts: Int64)
    requires tables.Keys == AllTables && parts.Keys == AllTables && forall t | t in order :: t in AllTables
    requires Distinct(order)
    requires forall j | 0 <= j < |order| :: parts[order[j]] == [] || WriteOf(conn, tables, parts, order[j], ts).outcome.Pass?
    ensures WriteFrom(conn, tables, parts, order, ts).outcome == Pass
    ensures forall j | 0 <= j < |order| ::
              WriteFrom(conn, tables, parts, order, ts).tables[order[j]] ==
              if parts[order[j]] == [] then tables[order[j]] else WriteOf(conn, tables, parts, order[j], ts).rows
    decreases |order|
  {
    if order != [] {
      var t, rest := order[0], order[1..];
      var tables' := WriteFromFirstPasses(conn, tables, parts, order, ts);
      forall j | 0 <= j < |rest| ensures rest[j] == order[j + 1] && tables'[rest[j]] == tables[rest[j]] {
        assert order[j + 1] != t;
      }
      WriteFromAllPass(conn, tables', parts, rest, ts);
      assert t !in rest by {
        forall j | 0 <= j < |rest| ensures rest[j] != t { assert order[j + 1] != order[0]; }
      }
      WriteFromContained(conn, tables', parts, rest, ts, t);
    }
  }

  /** What log does to the store's tables, and how it ends. */
  function Logged(initSuccessful: bool, dir: map<string, LogChannel>, conn: Connection, tables: map<Table, Rows>,
                  containers: Option<seq<Option<LogRecordContainer>>>, ts: Int64): (w: Written)
    requires tables.Keys == AllTables
    ensures w.tables.Keys == AllTables
    ensures w.outcome.Fail? ==> !IsSqlException(w.outcome.error)
  {
    if !initSuccessful then Written(tables, Pass)
    else if containers.None? || !Routable(containers.value) then Written(tables, Fail(NullPointer))
    else WriteFrom(conn, tables, Partitions(dir, containers.value), WriteOrder, ts)
  }

  /**
   * LONG is written first and a failure ends the writes: when the write of a non-empty LONG list
   * ends in SQLException, log returns normally and the INT, BOOL, STRING and DOUBLE tables stay as
   * they were, whatever their lists hold.
   */
  lemma LoggedLongFailureSkipsRest(dir: map<string, LogChannel>, conn: Connection, tables: map<Table, Rows>,
                                   cs: seq<Option<LogRecordContainer>>, ts: Int64)
    requires tables.Keys == AllTables && Routable(cs) && Partition(dir, cs, LongValues) != []
    requires Inserted(conn, tables[LongValues], LongValues, Some(Partition(dir, cs, LongValues)), ts).outcome.Fail?
    requires IsSqlException(Inserted(conn, tables[LongValues], LongValues, Some(Partition(dir, cs, LongValues)), ts).outcome.error)
    ensures
      var w := Logged(true, dir, conn, tables, Some(cs), ts);
      && w.outcome == Pass
      && w.tables[IntValues] == tables[IntValues] && w.tables[BoolValues] == tables[BoolValues]
      && w.tables[StringValues] == tables[StringValues] && w.tables[DoubleValues] == tables[DoubleValues]
  {
    var parts := Partitions(dir, cs);
    WriteOrderCoversAllTables();
    WriteFromFirstFails(conn, tables, parts, WriteOrder, ts);
  }

  /**
   * A log call whose writes all pass stores every table's new rows: the call returns normally and
   * each value table holds what the write of its own list left, or is unchanged when that list is
   * empty.
   */
  lemma LoggedAllPass(dir: map<string, LogChannel>, conn: Connection, tables: map<Table, Rows>,
                      cs: seq<Option<LogRecordContainer>>, ts: Int64)
    requires tables.Keys == AllTables && Routable(cs)
    requires forall t | t in AllTables ::
      Partition(dir, cs, t) == [] || Inserted(conn, tables[t], t, Some(Partition(dir, cs, t)), ts).outcome.Pass?
    ensures
      var w := Logged(true, dir, conn, tables, Some(cs), ts);
      && w.outcome == Pass
      && forall t | t in AllTables :: w.tables[t] ==
           if Partition(dir, cs, t) == [] then tables[t] else Inserted(conn, tables[t], t, Some(Partition(dir, cs, t)), ts).rows
  {
    var parts := Partitions(dir, cs);
    PartitionsDisplay(dir, cs);
    assert forall t | t in AllTables :: parts[t] == Partition(dir, cs, t);
    WriteOrderCoversAllTables();
    WriteFromAllPassCovers(conn, tables, parts, WriteOrder, ts);
    assert Logged(true, dir, conn, tables, Some(cs), ts) == WriteFrom(conn, tables, parts, WriteOrder, ts);
  }

  /** WriteFromAllPass for an order that names every table, stated table by table. */
  lemma WriteFromAllPassCovers(conn: Connection, tables: map<Table, Rows>,
                               parts: map<Table, seq<Option<LogRecordContainer>>>, order: seq<Table>, ts: Int64)
    requires tables.Keys == AllTables && parts.Keys == AllTables && forall t :: t in AllTables <==> t in order
    requires Distinct(order)
    requires forall t | t in AllTables :: parts[t] == [] || WriteOf(conn, tables, parts, t, ts).outcome.Pass?
    ensures WriteFrom(conn, tables, parts, order, ts).outcome == Pass
    ensures forall t | t in AllTables ::
              WriteFrom(conn, tables, parts, order, ts).tables[t] ==
              if parts[t] == [] then tables[t] else WriteOf(conn, tables, parts, t, ts).rows
  {
    WriteFromAllPass(conn, tables, parts, order, ts);
    forall t | t in AllTables ensures WriteFrom(conn, tables, parts, order, ts).tables[t] ==
      if parts[t] == [] then tables[t] else WriteOf(conn, tables, parts, t, ts).rows
    {
      var j :| 0 <= j < |order| && order[j] == t;
    }
  }

  /** A DuplicateKey in the LONG list: a valid LONG container whose key is already stored. */
  lemma LoggedLongCollisionSkipsRest(dir: map<string, LogChannel>, tables: map<Table, Rows>,
                                     cs: seq<Option<LogRecordContainer>>, ts: Int64, i: int)
    requires tables.Keys == AllTables && Routable(cs)
    requires Batch(LongValues, Partition(dir, cs, LongValues), ts).Success?
    requires 0 <= i < |Samples(Partition(dir, cs, LongValues))|
    requires RowKey(Samples(Partition(dir, cs, LongValues))[i].channelId, ts) in tables[LongValues]
    ensures
      var w := Logged(true, dir, Open, tables, Some(cs), ts);
      && w.outcome == Pass
      && w.tables[IntValues] == tables[IntValues] && w.tables[BoolValues] == tables[BoolValues]
      && w.tables[StringValues] == tables[StringValues] && w.tables[DoubleValues] == tables[DoubleValues]
  {
    StoredKeyFails(Open, tables[LongValues], LongValues, Partition(dir, cs, LongValues), ts, i);
    LoggedLongFailureSkipsRest(dir, Open, tables, cs, ts);
  }

  /** The writes never change or remove a stored row. */
  lemma {:induction false} WriteFromKeepsRows(conn: Connection, tables: map<Table, Rows>, parts: map<Table, seq<Option<LogRecordContainer>>>,
                                              order: seq<Table>, ts: Int64, t: Table, k: RowKey)
    requires tables.Keys == AllTables && parts.Keys == AllTables && forall t | t in order :: t in AllTables
    requires t in tables && k in tables[t]
    ensures WriteFrom(conn, tables, parts, order, ts).tables.Keys == AllTables
    ensures k in WriteFrom(conn, tables, parts, order, ts).tables[t]
    ensures WriteFrom(conn, tables, parts, order, ts).tables[t][k] == tables[t][k]
    decreases |order|
  {
    if order != [] {
      var u := order[0];
      if |parts[u]| != 0 {
        InsertedKeepsRows(conn, tables[u], u, Some(parts[u]), ts);
        var ins := Inserted(conn, tables[u], u, Some(parts[u]), ts);
        if ins.outcome.Pass? {
          WriteFromKeepsRows(conn, tables[u := ins.rows], parts, order[1..], ts, t, k);
        }
      } else {
        WriteFromKeepsRows(conn, tables, parts, order[1..], ts, t, k);
      }
    }
  }

  /**
   * A row the writes add to table t carries the batch timestamp and belongs to a valid container
   * of t's partition.
   */
  lemma {:induction false} WriteFromAddsPartitionRows(conn: Connection, tables: map<Table, Rows>,
                                                      parts: map<Table, seq<Option<LogRecordContainer>>>,
                                                      order: seq<Table>, ts: Int64, t: Table, k: RowKey)
    requires tables.Keys == AllTables && parts.Keys == AllTables && forall t | t in order :: t in AllTables
    requires t in tables && k !in tables[t]
    requires WriteFrom(conn, tables, parts, order, ts).tables.Keys == AllTables
    requires k in WriteFrom(conn, tables, parts, order, ts).tables[t]
    ensures k.timestamp == ts
    ensures exists i | 0 <= i < |Samples(parts[t])| :: Samples(parts[t])[i].channelId == k.id
    decreases |order|
  {
    assert order != [];
    var u := order[0];
    if |parts[u]| != 0 {
      var ins := Inserted(conn, tables[u], u, Some(parts[u]), ts);
      var tables' := tables[u := ins.rows];
      if u == t && k in ins.rows {
        InsertedRowsCarryBatchTimestamp(conn, tables[u], u, Some(parts[u]), ts, k);
      } else {
        assert k !in tables'[t];
        WriteFromAddsPartitionRows(conn, tables', parts, order[1..], ts, t, k);
      }
    } else {
      WriteFromAddsPartitionRows(conn, tables, parts, order[1..], ts, t, k);
    }
  }

  /**
   * Routing: every row log adds to table t carries the batch timestamp and belongs to a valid
   * container whose channel the directory routes to t; containers of channels missing from the
   * directory are never written.
   */
  lemma LoggedRowsAreRouted(initSuccessful: bool, dir: map<string, LogChannel>, conn: Connection, tables: map<Table, Rows>,
                            containers: Option<seq<Option<LogRecordContainer>>>, ts: Int64, t: Table, k: RowKey)
    requires tables.Keys == AllTables && t in tables && k !in tables[t]
    requires Logged(initSuccessful, dir, conn, tables, containers, ts).tables.Keys == AllTables
    requires k in Logged(initSuccessful, dir, conn, tables, containers, ts).tables[t]
    ensures k.timestamp == ts
    ensures k.id in dir && TableFor(dir[k.id].valueType) == t
  {
    var cs := containers.value;
    var parts := Partitions(dir, cs);
    WriteFromAddsPartitionRows(conn, tables, parts, WriteOrder, ts, t, k);
    var i :| 0 <= i < |Samples(parts[t])| && Samples(parts[t])[i].channelId == k.id;
    SamplesFrom(parts[t], i);
    var j :| 0 <= j < |parts[t]| && IsContainerValid(parts[t][j]) && SampleOf(parts[t][j]) == Samples(parts[t])[i];
    assert parts[t][j] in Partition(dir, cs, t);
  }

  /** Every sample comes from a valid container of the list. */
  lemma {:induction false} SamplesFrom(cs: seq<Option<LogRecordContainer>>, i: int)
    requires 0 <= i < |Samples(cs)|
    ensures exists j | 0 <= j < |cs| :: IsContainerValid(cs[j]) && SampleOf(cs[j]) == Samples(cs)[i]
  {
    var n := |cs| - 1;
    if i < |Samples(cs[..n])| {
      SamplesFrom(cs[..n], i);
      var j :| 0 <= j < |cs[..n]| && IsContainerValid(cs[..n][j]) && SampleOf(cs[..n][j]) == Samples(cs[..n])[i];
      assert cs[j] == cs[..n][j];
    } else {
      assert IsContainerValid(cs[n]) && SampleOf(cs[n]) == Samples(cs)[i];
    }
  }

  /** With the connection closed every write fails with SQLException, which log swallows. */
  lemma {:induction false} WriteFromClosed(tables: map<Table, Rows>, parts: map<Table, seq<Option<LogRecordContainer>>>, order: seq<Table>, ts: Int64)
    requires tables.Keys == AllTables && parts.Keys == AllTables && forall t | t in order :: t in AllTables
    ensures WriteFrom(Closed, tables, parts, order, ts) == Written(tables, Pass)
    decreases |order|
  {
    if order != [] {
      var t := order[0];
      if |parts[t]| == 0 {
        WriteFromClosed(tables, parts, order[1..], ts);
      } else {
        assert tables[t := tables[t]] == tables;
      }
    }
  }

  /** A log call on a closed store changes nothing and returns normally. */
  lemma LoggedClosedIsNoOp(dir: map<string, LogChannel>, tables: map<Table, Rows>, cs: seq<Option<LogRecordContainer>>, ts: Int64)
    requires tables.Keys == AllTables && Routable(cs)
    ensures Logged(true, dir, Closed, tables, Some(cs), ts) == Written(tables, Pass)
  {
    WriteFromClosed(tables, Partitions(dir, cs), WriteOrder, ts);
  }

  /** Containers of unknown channels are dropped: a call with none known writes nothing. */
  lemma LoggedUnknownIsNoOp(dir: map<string, LogChannel>, conn: Connection, tables: map<Table, Rows>, cs: seq<Option<LogRecordContainer>>, ts: Int64)
    requires tables.Keys == AllTables && Routable(cs)
    requires forall i | 0 <= i < |cs| :: !Known(dir, cs[i])
    ensures Logged(true, dir, conn, tables, Some(cs), ts) == Written(tables, Pass)
  {
    forall t | t in AllTables ensures Partition(dir, cs, t) == [] {
      NoneKnownEmpty(dir, cs, t);
    }
  }

  lemma {:induction false} NoneKnownEmpty(dir: map<string, LogChannel>, cs: seq<Option<LogRecordContainer>>, t: Table)
    requires forall i | 0 <= i < |cs| :: !Known(dir, cs[i])
    ensures Partition(dir, cs, t) == []
  {
    if cs != [] {
      NoneKnownEmpty(dir, cs[..|cs| - 1], t);
    }
  }

  /** When every container routes to table t, the other four lists are empty and t's is the input. */
  lemma {:induction false} PartitionAllTo(dir: map<string, LogChannel>, cs: seq<Option<LogRecordContainer>>, t: Table, u: Table)
    requires forall i | 0 <= i < |cs| :: Known(dir, cs[i]) && Route(dir, cs[i]) == t
    ensures Partition(dir, cs, u) == if u == t then cs else []
  {
    if cs != [] {
      PartitionAllTo(dir, cs[..|cs| - 1], t, u);
    }
  }

  /** Once every container is routable, log is its writes. */
  lemma LoggedIsWriteFrom(dir: map<string, LogChannel>, conn: Connection, tables: map<Table, Rows>,
                          cs: seq<Option<LogRecordContainer>>, ts: Int64)
    requires tables.Keys == AllTables
    requires forall i | 0 <= i < |cs| :: Known(dir, cs[i])
    ensures Logged(true, dir, conn, tables, Some(cs), ts) == WriteFrom(conn, tables, Partitions(dir, cs), WriteOrder, ts)
  {
    assert Routable(cs);
  }

  /** When every container routes to table t, the list for t is the input and the others are empty. */
  lemma PartitionsAllTo(dir: map<string, LogChannel>, cs: seq<Option<LogRecordContainer>>, t: Table)
    requires forall i | 0 <= i < |cs| :: Known(dir, cs[i]) && Route(dir, cs[i]) == t
    ensures Partitions(dir, cs).Keys == AllTables
    ensures Partitions(dir, cs)[t] == cs
    ensures forall u | u in AllTables && u != t :: Partitions(dir, cs)[u] == []
  {
    forall u | u in AllTables ensures Partition(dir, cs, u) == if u == t then cs else [] {
      PartitionAllTo(dir, cs, t, u);
    }
  }

  /** Writes whose lists are all empty change nothing. */
  lemma {:induction false} NoWrites(conn: Connection, tables: map<Table, Rows>, parts: map<Table, seq<Option<LogRecordContainer>>>,
                                    order: seq<Table>, ts: Int64)
    requires tables.Keys == AllTables && parts.Keys == AllTables && forall u | u in order :: u in AllTables
    requires forall u | u in order :: parts[u] == []
    ensures WriteFrom(conn, tables, parts, order, ts) == Written(tables, Pass)
    decreases |order|
  {
    if order != [] {
      NoWrites(conn, tables, parts, order[1..], ts);
    }
  }

  /** Of the writes for order only the one for table t has a list: the result is that write. */
  lemma {:induction false} WriteFromSingle(conn: Connection, tables: map<Table, Rows>, parts: map<Table, seq<Option<LogRecordContainer>>>,
                                           order: seq<Table>, ts: Int64, t: Table)
    requires tables.Keys == AllTables && parts.Keys == AllTables && forall u | u in order :: u in AllTables
    requires forall u | u in AllTables && u != t :: parts[u] == []
    requires forall i, j | 0 <= i < j < |order| :: order[i] != order[j]
    requires t in order && parts[t] != []
    ensures
      var ins := Inserted(conn, tables[t], t, Some(parts[t]), ts);
      WriteFrom(conn, tables, parts, order, ts)
        == Written(tables[t := ins.rows], Swallowed(ins.outcome))
    decreases |order|
  {
    var ins := Inserted(conn, tables[t], t, Some(parts[t]), ts);
    if order[0] == t {
      assert t !in order[1..] by {
        forall i | 0 <= i < |order[1..]| ensures order[1..][i] != t {
          assert order[1..][i] == order[i + 1];
        }
      }
      if ins.outcome.Pass? {
        NoWrites(conn, tables[t := ins.rows], parts, order[1..], ts);
      }
    } else {
      WriteFromSingle(conn, tables, parts, order[1..], ts, t);
    }
  }

  /**
   * A log call whose containers all belong to channels of one table is that table's single write,
   * with an SQLException swallowed.
   */
  lemma LoggedSingleTable(dir: map<string, LogChannel>, conn: Connection, tables: map<Table, Rows>,
                          cs: seq<Option<LogRecordContainer>>, ts: Int64, t: Table)
    requires tables.Keys == AllTables && cs != []
    requires forall i | 0 <= i < |cs| :: Known(dir, cs[i]) && Route(dir, cs[i]) == t
    ensures
      var ins := Inserted(conn, tables[t], t, Some(cs), ts);
      Logged(true, dir, conn, tables, Some(cs), ts)
        == Written(tables[t := ins.rows], Swallowed(ins.outcome))
  {
    LoggedIsWriteFrom(dir, conn, tables, cs, ts);
    PartitionsAllTo(dir, cs, t);
    WriteOrderCoversAllTables();
    assert t in WriteOrder;
    WriteFromSingle(conn, tables, Partitions(dir, cs), WriteOrder, ts, t);
  }

  // ---------------------------------------------------------------------------------------------
  // The logger

  class H2Logger {
    var database: DatabaseWrapper?
    var initSuccessful: bool
    var storageInterval: Int64
    /** The task the cleanup timer runs; null when no timer was scheduled. */
    var cleanupTask: CleanupTask?
    /** The cleanup timer's schedule; None when no timer was scheduled. */
    var cleanupSchedule: Option<Schedule>
    /** Whether the cleanup timer was cancelled. */
    var cleanupCancelled: bool
    /** The channel directory channelsToLog. */
    var channelsToLog: map<string, LogChannel>

    ghost function Repr(): set<object>
      reads this
    {
      if database == null then {this} else {this, database}
    }

    ghost predicate Valid()
      reads Repr()
    {
      && (database != null ==> database.Valid())
      && (initSuccessful ==> database != null && database.connection != NoConnection)
      && (cleanupTask != null ==> initSuccessful && cleanupTask.database == database && cleanupTask.storageInterval == storageInterval)
    }

    constructor ()
      ensures Valid()
      ensures database == null && !initSuccessful && cleanupTask == null && cleanupSchedule.None?
      ensures !cleanupCancelled && channelsToLog == map[]
    {
      database := null;
      initSuccessful := false;
      storageInterval := 0;
      cleanupTask := null;
      cleanupSchedule := None;
      cleanupCancelled := false;
      channelsToLog := map[];
    }

    /**
     * activate: takes the storage interval from the property (parsed; the default when it is
     * unset), connects to the database and, only when that succeeds and the interval is non-zero,
     * schedules the cleanup task.
     */
    method Activate(storageIntervalProperty: Option<Int64>, driverFound: bool, opens: bool)
      requires Valid() && database == null
      modifies this
      ensures Valid()
      ensures storageInterval == storageIntervalProperty.GetOr(DEFAULT_STORAGE_INTERVAL)
      ensures database != null && fresh(database)
      ensures database.channels == map[] && database.tables == EmptyTables
      ensures initSuccessful == (driverFound && opens)
      ensures database.connection == if initSuccessful then Open else NoConnection
      ensures (cleanupTask != null) == (initSuccessful && storageInterval != 0)
      ensures cleanupTask != null ==> fresh(cleanupTask)
      ensures cleanupSchedule == if cleanupTask != null then Some(Schedule(CLEANUP_DELAY, CLEANUP_PERIOD)) else old(cleanupSchedule)
      ensures channelsToLog == old(channelsToLog) && cleanupCancelled == old(cleanupCancelled)
    {
      storageInterval := if storageIntervalProperty.Some? then storageIntervalProperty.value else DEFAULT_STORAGE_INTERVAL;
      var db := new DatabaseWrapper();
      database := db;
      var connected := db.Connect(driverFound, opens);
      if connected.Pass? {
        initSuccessful := true;
        if storageInterval != 0 {
          cleanupTask := new CleanupTask(db, storageInterval);
          cleanupSchedule := Some(Schedule(CLEANUP_DELAY, CLEANUP_PERIOD));
        }
      }
    }

    /** deactivate: cancels the cleanup timer if there is one and disconnects the store. */
    method Deactivate()
      requires Valid()
      modifies this`cleanupCancelled, database
      ensures Valid()
      ensures cleanupCancelled == (old(cleanupCancelled) || cleanupTask != null)
      ensures database != null ==>
        && database.connection == (if old(database.connection) == NoConnection then NoConnection else Closed)
        && database.channels == old(database.channels) && database.tables == old(database.tables)
    {
      if cleanupTask != null {
        cleanupCancelled := true;
      }
      if database != null {
        database.Disconnect();
      }
    }

    /**
     * setChannelsToLog: replaces the directory by the listed channels and upserts each into
     * CHANNELS; an SQLException on one channel is logged and the others are still processed.
     * Nothing happens when initialisation failed. A null list throws NullPointerException once
     * the directory has been cleared.
     */
    method SetChannelsToLog(channels: Option<seq<LogChannel>>, now: Int64) returns (r: Outcome<Error>)
      requires Valid()
      modifies this`channelsToLog, database
      ensures Valid()
      ensures r == if initSuccessful && channels.None? then Fail(NullPointer) else Pass
      ensures !initSuccessful ==> channelsToLog == old(channelsToLog)
      ensures database != null && (!initSuccessful || channels.None?) ==> database.channels == old(database.channels)
      ensures initSuccessful && channels.None? ==> channelsToLog == map[]
      ensures initSuccessful && channels.Some? ==>
        && channelsToLog == Directory(channels.value)
        && database.channels == (if database.connection == Open then MergeAll(old(database.channels), channels.value, now) else old(database.channels))
      ensures database != null ==> database.connection == old(database.connection) && database.tables == old(database.tables)
    {
      if !initSuccessful {
        return Pass;
      }
      channelsToLog := map[];
      if channels.None? {
        return Fail(NullPointer);
      }
      var chs := channels.value;
      var i := 0;
      while i < |chs|
        invariant 0 <= i <= |chs|
        invariant database.Valid()
        invariant database.connection == old(database.connection) && database.tables == old(database.tables)
        invariant channelsToLog == Directory(chs[..i])
        invariant database.channels == if database.connection == Open then MergeAll(old(database.channels), chs[..i], now) else old(database.channels)
      {
        assert chs[..i + 1][..i] == chs[..i];
        channelsToLog := channelsToLog[chs[i].id := chs[i]];
        // an SQLException is logged and the loop goes on
        var upserted := database.AddOrUpdateChannel(chs[i], now);
        i := i + 1;
      }
      assert chs[..i] == chs;
      r := Pass;
    }

    /**
     * log: sorts the containers of known channels into the five lists by the directory's value
     * type, then writes the non-empty lists in the order long, int, bool, string, double. The
     * first SQLException ends the writes and is logged, not rethrown. A null list, a null
     * container or a null channel id makes the loop throw NullPointerException before anything
     * is written.
     */
    method Log(containers: Option<seq<Option<LogRecordContainer>>>, timestamp: Int64) returns (r: Outcome<Error>)
      requires Valid()
      modifies database
      ensures Valid()
      ensures !initSuccessful ==> r == Pass
      ensures !initSuccessful && database != null ==> database.tables == old(database.tables)
      ensures initSuccessful ==>
        var w := Logged(true, channelsToLog, database.connection, old(database.tables), containers, timestamp);
        database.tables == w.tables && r == w.outcome
      ensures database != null ==> database.connection == old(database.connection) && database.channels == old(database.channels)
    {
      if !initSuccessful {
        return Pass;
      }
      if containers.None? {
        return Fail(NullPointer);
      }
      var cs := containers.value;
      var parts := PartitionContainers(channelsToLog, cs);
      if parts.None? {
        return Fail(NullPointer);
      }
      r := WriteLists(parts.value, timestamp);
    }

    /**
     * The writes of log: the non-empty lists in the order long, int, bool, string, double; the
     * first exception ends them, and an SQLException is then logged, not rethrown.
     */
    method WriteLists(parts: map<Table, seq<Option<LogRecordContainer>>>, timestamp: Int64) returns (r: Outcome<Error>)
      requires Valid() && database != null && parts.Keys == AllTables
      modifies database
      ensures Valid()
      ensures
        var w := WriteFrom(database.connection, old(database.tables), parts, WriteOrder, timestamp);
        database.tables == w.tables && r == w.outcome
      ensures database.connection == old(database.connection) && database.channels == old(database.channels)
    {
      ghost var before := database.tables;
      var k := 0;
      while k < |WriteOrder|
        invariant 0 <= k <= |WriteOrder|
        invariant database.Valid()
        invariant database.connection == old(database.connection) && database.channels == old(database.channels)
        invariant WriteFrom(database.connection, before, parts, WriteOrder, timestamp)
               == WriteFrom(database.connection, database.tables, parts, WriteOrder[k..], timestamp)
      {
        var t := WriteOrder[k];
        assert WriteOrder[k..][1..] == WriteOrder[k + 1..];
        if |parts[t]| > 0 {
          var outcome := database.LogValues(t, Some(parts[t]), timestamp);
          if outcome.Fail? {
            // the first exception ends the writes; an SQLException is logged, not rethrown
            return Swallowed(outcome);
          }
        }
        k := k + 1;
      }
      r := Pass;
    }

    /**
     * getRecords: refuses with IOException when initialisation failed, and rethrows an
     * SQLException of the store as IOException; otherwise the store's answer.
     */
    method GetRecords(channelId: string, startTime: Int64, endTime: Int64) returns (r: Result<seq<Record>, Error>, ghost order: seq<RowKey>)
      requires Valid()
      ensures !initSuccessful ==> r == Failure(IOException(None))
      ensures initSuccessful && database.connection == Closed ==> r == Failure(IOException(Some(ConnectionClosed)))
      ensures initSuccessful && database.connection == Open && channelId !in database.channels ==> r == Success([])
      ensures (initSuccessful && database.connection == Open && channelId in database.channels
               && ValueOf(database.channels[channelId].valueType).None?) ==> r == Failure(IllegalArgument)
      ensures (initSuccessful && database.connection == Open && channelId in database.channels
               && ValueOf(database.channels[channelId].valueType).Some?) ==>
        var vt := ValueOf(database.channels[channelId].valueType).value;
        var sel := Selected(database.tables[TableFor(vt)], channelId, startTime, endTime);
        r.Success? && ListsRows(vt, sel, r.value, order)
    {
      order := [];
      if !initSuccessful {
        return Failure(IOException(None)), order;
      }
      var records;
      records, order := database.GetRecords(channelId, startTime, endTime);
      if records.Failure? && IsSqlException(records.error) {
        return Failure(IOException(Some(records.error.reason))), order;
      }
      r := records;
    }
  }

  /**
   * The partition loop of log: one list per table, the containers of known channels appended to
   * the list of their type's table; None where a null container or a null id makes it throw.
   */
  method PartitionContainers(dir: map<string, LogChannel>, cs: seq<Option<LogRecordContainer>>) returns (parts: Option<map<Table, seq<Option<LogRecordContainer>>>>)
    ensures parts.Some? <==> Routable(cs)
    ensures parts.Some? ==> parts.value == Partitions(dir, cs)
  {
    var longValues, intValues, boolValues, stringValues, doubleValues := [], [], [], [], [];
    var i := 0;
    while i < |cs|
      invariant 0 <= i <= |cs|
      invariant Routable(cs[..i])
      invariant longValues == Partition(dir, cs[..i], LongValues) && intValues == Partition(dir, cs[..i], IntValues)
      invariant boolValues == Partition(dir, cs[..i], BoolValues) && stringValues == Partition(dir, cs[..i], StringValues)
      invariant doubleValues == Partition(dir, cs[..i], DoubleValues)
    {
      assert cs[..i + 1][..i] == cs[..i];
      var c := cs[i];
      if c.None? || c.value.channelId.None? {
        return None;
      }
      var id := c.value.channelId.value;
      if id in dir {
        match TableFor(dir[id].valueType)
        case LongValues => longValues := longValues + [c];
        case IntValues => intValues := intValues + [c];
        case BoolValues => boolValues := boolValues + [c];
        case StringValues => stringValues := stringValues + [c];
        case DoubleValues => doubleValues := doubleValues + [c];
      }
      i := i + 1;
    }
    assert cs[..i] == cs;
    PartitionsDisplay(dir, cs);
    parts := Some(map[LongValues := longValues, IntValues := intValues, BoolValues := boolValues,
                      StringValues := stringValues, DoubleValues := doubleValues]);
  }
}
