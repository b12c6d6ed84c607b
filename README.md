# h2logger storage core in Dafny

This project models the storage core of the OpenMUC H2 data logger:

- **The store** (`DatabaseWrapper`). It holds a `CHANNELS` table and five value tables: `LONG_VALUES`, `INT_VALUES`, `BOOL_VALUES`, `STRING_VALUES` and `DOUBLE_VALUES`. SQL statements are replaced by their effect on maps.
  - A value table maps the primary key (ID, TIMESTAMP) to (VALUE, FLAG).
  - `CHANNELS` maps an ID to (DESCRIPTION, UNIT, LAST_INIT, VALUE_TYPE).
- **The logger** (`H2Logger`). It keeps an in-memory directory of the channels to log. Incoming containers are routed by their channel's value type into five lists, and the non-empty lists are written to the store in a fixed order.
- **The retention task** (`CleanupTask`). It deletes every row older than `now - storageInterval`.

Modules, one per file:

| File | Module | Holds |
|---|---|---|
| `wrappers.dfy` | `Wrappers` | `Option`, `Result`, `Outcome` |
| `types.dfy` | `Types` | value types, values, dispatch from value type to table, records, containers, channels, exceptions |
| `tables.dfy` | `Tables` | pure specifications of what the SQL statements do to rows: batch building, `executeBatch`, `SELECT … BETWEEN`, `DELETE … WHERE TIMESTAMP<?`, `MERGE … KEY(ID)` |
| `database.dfy` | `Database` | class `DatabaseWrapper` and the loops of its methods |
| `cleanup.dfy` | `Cleanup` | class `CleanupTask` |
| `logger.dfy` | `Logger` | class `H2Logger`, the directory, the partition and the write specifications |
| `scenarios.dfy` | `Scenarios` | end-to-end runs of a new logger, mirroring `TestH2Logger` |

Java exceptions are returned as values: `Outcome<Error>` for `void` methods and `Result<T, Error>` otherwise. A Java `null` is `Option.None`. The connection field is `NoConnection` (null), `Open` or `Closed`. A statement on a null connection raises `NullPointerException`; on a closed connection it raises `SQLException`.

`executeBatch` is modelled as H2 runs it under auto-commit. The entries are inserted in order. An entry whose key already exists is rejected and the later entries still run. The call then ends in `SQLException`.

## Model

| member | source | states |
|---|---|---|
| Types.TableFor | src/main/java/org/openmucextensions/datalogger/h2/DatabaseWrapper.java:265-284 | the table a value type is sent to is one that stores that type |
| Types.TableForStoredIn | src/main/java/org/openmucextensions/datalogger/h2/H2Logger.java:117-136 | the dispatch agrees with the table-by-table listing (LONG; INTEGER, SHORT, BYTE; BOOLEAN; BYTE_ARRAY, STRING; DOUBLE, FLOAT), in both directions |
| Types.TableForDefault | src/main/java/org/openmucextensions/datalogger/h2/DatabaseWrapper.java:281-283 | every type no case names goes to DOUBLE_VALUES |
| Types.ValueOf | src/main/java/org/openmucextensions/datalogger/h2/DatabaseWrapper.java:261 | a parsed type name is the name of the type it returns |
| Types.ValueOfName | src/main/java/org/openmucextensions/datalogger/h2/DatabaseWrapper.java:71 | the VALUE_TYPE name stored by a channel upsert parses back to the channel's type |
| Types.Convert | src/main/java/org/openmucextensions/datalogger/h2/DatabaseWrapper.java:93 | a value converts to a table's column exactly when that table is its type's table; the cell then has the column type and the same content |
| Types.Decode | src/main/java/org/openmucextensions/datalogger/h2/DatabaseWrapper.java:297-316 | the value built from a VALUE cell of the dispatched table is the stored cell |
| Types.FlagCodeOf | src/main/java/org/openmucextensions/datalogger/h2/DatabaseWrapper.java:95-99 | a record without a flag is stored with VALID's code, otherwise with its own |
| Tables.SamplesAppend | src/main/java/org/openmucextensions/datalogger/h2/DatabaseWrapper.java:88-104 | the validity filter goes element by element: it distributes over concatenation |
| Tables.SamplesSingle | src/main/java/org/openmucextensions/datalogger/h2/DatabaseWrapper.java:426-436 | one container gives a sample exactly when it is valid |
| Tables.Batch | src/main/java/org/openmucextensions/datalogger/h2/DatabaseWrapper.java:83-101 | the batch fails exactly when some valid container's value does not convert, and the error is TypeConversion; otherwise there is one entry per valid container, in order, keyed by (channel id, batch timestamp), holding the converted value and the flag code |
| Tables.BatchCellsFit | src/main/java/org/openmucextensions/datalogger/h2/DatabaseWrapper.java:92-93 | every bound cell has the table's column type and the batch timestamp |
| Tables.BatchSingle | src/main/java/org/openmucextensions/datalogger/h2/DatabaseWrapper.java:88-101 | one valid container whose value converts gives a batch of exactly one entry, keyed by its channel id and the batch timestamp |
| Tables.BatchFailsAt | src/main/java/org/openmucextensions/datalogger/h2/DatabaseWrapper.java:88-93 | one valid container whose value does not convert makes the whole call fail |
| Tables.ExecuteKeys | src/main/java/org/openmucextensions/datalogger/h2/DatabaseWrapper.java:106 | after the batch the table's keys are the old keys plus the batch's keys |
| Tables.ExecuteKeepsRows | src/main/java/org/openmucextensions/datalogger/h2/DatabaseWrapper.java:106 | the batch never overwrites or removes a stored row |
| Tables.ExecuteFirstWins | src/main/java/org/openmucextensions/datalogger/h2/DatabaseWrapper.java:106 | the first entry with a new key is the one stored under that key |
| Tables.ExecuteSingle | src/main/java/org/openmucextensions/datalogger/h2/DatabaseWrapper.java:106 | a one-entry batch with a new key stores that entry and reports no rejection |
| Tables.ExecuteFails | src/main/java/org/openmucextensions/datalogger/h2/DatabaseWrapper.java:106 | the batch reports a rejection exactly when some entry's key is already stored or appears earlier in the batch |
| Tables.SelectedPoint | src/main/java/org/openmucextensions/datalogger/h2/DatabaseWrapper.java:267 | a read of [t, t] for a stored key (id, t) returns exactly that row |
| Tables.PurgeSelected | src/main/java/org/openmucextensions/datalogger/h2/DatabaseWrapper.java:342-378 | after a DELETE with cutoff c, a read that starts at or after c is unchanged and a read that ends before c is empty |
| Tables.PurgeCount | src/main/java/org/openmucextensions/datalogger/h2/DatabaseWrapper.java:342-344 | a DELETE's count plus the surviving rows is the table's row count |
| Tables.MergeAllKeys | src/main/java/org/openmucextensions/datalogger/h2/H2Logger.java:88-95 | after the upserts, CHANNELS holds the old ids plus the listed ids |
| Tables.MergeAllKeeps | src/main/java/org/openmucextensions/datalogger/h2/DatabaseWrapper.java:64 | a channel not in the list keeps its CHANNELS row |
| Tables.MergeAllLastWins | src/main/java/org/openmucextensions/datalogger/h2/DatabaseWrapper.java:64-72 | the CHANNELS row of an id holds the description, unit, clock reading and type name of the last listed channel with that id |
| Database.InsertedKeepsRows | src/main/java/org/openmucextensions/datalogger/h2/DatabaseWrapper.java:79-110 | a log call never changes or removes a stored row |
| Database.InsertedRowsCarryBatchTimestamp | src/main/java/org/openmucextensions/datalogger/h2/DatabaseWrapper.java:83-92 | every row a log call adds carries the call's timestamp, not the record's own, and the channel id of a valid container |
| Database.InsertedSkipsInvalid | src/main/java/org/openmucextensions/datalogger/h2/DatabaseWrapper.java:90 | a list holding no valid container writes nothing and does not fail on an open connection |
| Database.InsertedStoresSample | src/main/java/org/openmucextensions/datalogger/h2/DatabaseWrapper.java:88-106 | the first valid container of a channel whose key is new is stored with its converted value and flag code |
| Database.SameChannelTwiceFails | src/main/java/org/openmucextensions/datalogger/h2/DatabaseWrapper.java:88-106 | two valid containers of one channel in one call collide on the primary key and the call ends in SQLException |
| Database.StoredKeyFails | src/main/java/org/openmucextensions/datalogger/h2/DatabaseWrapper.java:106 | a container whose key is already stored makes the call end in SQLException |
| Database.InsertedCellsFit | src/main/java/org/openmucextensions/datalogger/h2/DatabaseWrapper.java:409-413 | a log call keeps every cell of its table's column type |
| Database.SumRemovedIsRowsRemoved | src/main/java/org/openmucextensions/datalogger/h2/DatabaseWrapper.java:336-382 | the summed DELETE counts are the number of rows the deletes removed |
| Database.DeleteOrderCoversAllTables | src/main/java/org/openmucextensions/datalogger/h2/DatabaseWrapper.java:342-378 | the five DELETEs visit every value table exactly once |
| Database.PurgeAllKeeps | src/main/java/org/openmucextensions/datalogger/h2/DatabaseWrapper.java:342-378 | a row survives exactly when its timestamp is at or after the cutoff, and it keeps its value |
| Database.PurgeAllValid | src/main/java/org/openmucextensions/datalogger/h2/DatabaseWrapper.java:336-382 | the deletes keep all five tables and their column types |
| Database.SelectedCellsFit | src/main/java/org/openmucextensions/datalogger/h2/DatabaseWrapper.java:267-282 | a selection keeps the table's column types |
| Database.AddBatch | src/main/java/org/openmucextensions/datalogger/h2/DatabaseWrapper.java:88-104 | the addBatch loop computes Batch |
| Database.ExecuteBatch | src/main/java/org/openmucextensions/datalogger/h2/DatabaseWrapper.java:106 | the executeBatch loop computes Execute and keeps the column types |
| Database.PurgeTables | src/main/java/org/openmucextensions/datalogger/h2/DatabaseWrapper.java:338-381 | the five deletes leave exactly the rows at or after the cutoff and return the summed counts |
| Database.DatabaseWrapper.constructor | src/main/java/org/openmucextensions/datalogger/h2/DatabaseWrapper.java:33 | a new store has a null connection and empty tables |
| Database.DatabaseWrapper.Connect | src/main/java/org/openmucextensions/datalogger/h2/DatabaseWrapper.java:42-46 | a missing driver raises ClassNotFoundException, a failed open raises SQLException, and either way the connection is unchanged; otherwise the connection is open |
| Database.DatabaseWrapper.Disconnect | src/main/java/org/openmucextensions/datalogger/h2/DatabaseWrapper.java:52-54 | an existing connection is closed; a null one stays null |
| Database.DatabaseWrapper.AddOrUpdateChannel | src/main/java/org/openmucextensions/datalogger/h2/DatabaseWrapper.java:61-77 | the MERGE replaces exactly the channel's CHANNELS row; it fails and changes nothing on a connection that is not open; after it succeeds, getChannelValueType (lines 384-400) of the id returns the type's name, which parses back to the channel's type |
| Database.DatabaseWrapper.LogValues | src/main/java/org/openmucextensions/datalogger/h2/DatabaseWrapper.java:79-242 | only table t changes: a null list is a no-op, a connection not open or a failed conversion writes nothing, and otherwise the batch runs |
| Database.DatabaseWrapper.GetRecords | src/main/java/org/openmucextensions/datalogger/h2/DatabaseWrapper.java:252-329 | an unknown channel gives an empty list; otherwise one record per row of the dispatched table with that id and startTime <= TIMESTAMP <= endTime, each with the row's value, timestamp and flag |
| Database.DatabaseWrapper.DeleteRecordsBefore | src/main/java/org/openmucextensions/datalogger/h2/DatabaseWrapper.java:336-382 | the rows with TIMESTAMP < cutoff are removed from all five tables, CHANNELS is untouched, and the summed counts are returned |
| Cleanup.Sub64 | src/main/java/org/openmucextensions/datalogger/h2/CleanupTask.java:32 | the threshold is now - storageInterval, wrapped as a Java long |
| Cleanup.PurgeAllIdempotent | src/main/java/org/openmucextensions/datalogger/h2/CleanupTask.java:30-41 | a second run with the same threshold deletes nothing more |
| Cleanup.PurgeAllLater | src/main/java/org/openmucextensions/datalogger/h2/CleanupTask.java:30-41 | two runs delete what the later threshold alone deletes |
| Cleanup.CleanupTask.constructor | src/main/java/org/openmucextensions/datalogger/h2/CleanupTask.java:20-27 | the task keeps the store and interval it is given; both are constant |
| Cleanup.CleanupTask.Run | src/main/java/org/openmucextensions/datalogger/h2/CleanupTask.java:30-41 | exactly the store's delete with threshold now - storageInterval; an SQLException is swallowed |
| Logger.DirectoryKeys | src/main/java/org/openmucextensions/datalogger/h2/H2Logger.java:87-89 | after registration the directory's ids are exactly the listed ids; earlier entries are gone |
| Logger.DirectoryLastWins | src/main/java/org/openmucextensions/datalogger/h2/H2Logger.java:89 | a later channel with the same id overrides an earlier one |
| Logger.MergeAllIsDirectory | src/main/java/org/openmucextensions/datalogger/h2/H2Logger.java:87-95 | CHANNELS after the upserts is the old CHANNELS overridden by the directory's channels |
| Logger.PartitionRouted | src/main/java/org/openmucextensions/datalogger/h2/H2Logger.java:114-136 | a list holds only known containers routed to its table |
| Logger.PartitionAppend | src/main/java/org/openmucextensions/datalogger/h2/H2Logger.java:112-138 | each list keeps input order |
| Logger.Partitions | src/main/java/org/openmucextensions/datalogger/h2/H2Logger.java:106-138 | there is one list per value table, and each list holds only known containers routed to its table |
| Logger.PartitionsCoverKnown | src/main/java/org/openmucextensions/datalogger/h2/H2Logger.java:112-138 | the five lists together are, as a multiset, exactly the known containers: each known container lands in exactly one list and each unknown one in none |
| Logger.WriteOrderCoversAllTables | src/main/java/org/openmucextensions/datalogger/h2/H2Logger.java:141-145 | the five writes visit each table once |
| Logger.Swallowed | src/main/java/org/openmucextensions/datalogger/h2/H2Logger.java:140-149 | after a write, log fails exactly on an exception other than SQLException, and then with that exception |
| Logger.WriteFromKeepsRows | src/main/java/org/openmucextensions/datalogger/h2/H2Logger.java:140-149 | the writes never change or remove a stored row |
| Logger.WriteFromAddsPartitionRows | src/main/java/org/openmucextensions/datalogger/h2/H2Logger.java:140-149 | a row added to a table carries the batch timestamp and comes from that table's list |
| Logger.WriteFrom | src/main/java/org/openmucextensions/datalogger/h2/H2Logger.java:140-149 | the writes keep all five tables, and no SQLException escapes them |
| Logger.WriteFromContained | src/main/java/org/openmucextensions/datalogger/h2/H2Logger.java:140-149 | a table whose list is empty, or that is not in the write order, is not touched |
| Logger.WriteFromStopsAtFailure | src/main/java/org/openmucextensions/datalogger/h2/H2Logger.java:140-149 | when every write before position i passes and the write at i fails, the outcome is that failure with SQLException swallowed; each earlier table holds what its write left (or is unchanged when its list is empty), table i holds what its write left, and every later table is not touched |
| Logger.WriteFromFirstFails | src/main/java/org/openmucextensions/datalogger/h2/H2Logger.java:140-147 | when the first write fails, the later writes do not run |
| Logger.WriteFromFirstPasses | src/main/java/org/openmucextensions/datalogger/h2/H2Logger.java:141-145 | when the first write passes or is skipped, the remaining writes run on the tables it left: its own table holds what the write left (unchanged when its list is empty) and no other table changed |
| Logger.WriteFromAllPass | src/main/java/org/openmucextensions/datalogger/h2/H2Logger.java:140-149 | when every write passes or is skipped, the outcome is normal and each table of the order holds what its own write left, or is unchanged when its list is empty |
| Logger.WriteFromAllPassCovers | src/main/java/org/openmucextensions/datalogger/h2/H2Logger.java:141-145 | the same for an order that names every value table, stated for each table |
| Logger.LoggedAllPass | src/main/java/org/openmucextensions/datalogger/h2/H2Logger.java:112-149 | a log call whose writes all pass returns normally and every value table holds what the write of its own list left, or is unchanged when that list is empty |
| Logger.LoggedLongFailureSkipsRest | src/main/java/org/openmucextensions/datalogger/h2/H2Logger.java:140-149 | a LONG write ending in SQLException leaves INT, BOOL, STRING and DOUBLE untouched, and log returns normally |
| Logger.LoggedLongCollisionSkipsRest | src/main/java/org/openmucextensions/datalogger/h2/H2Logger.java:140-149 | a LONG sample whose key is already stored: log returns normally and INT, BOOL, STRING and DOUBLE are untouched |
| Logger.WriteFromClosed | src/main/java/org/openmucextensions/datalogger/h2/H2Logger.java:140-149 | on a closed connection the first write fails, the exception is swallowed and nothing changes |
| Logger.Logged | src/main/java/org/openmucextensions/datalogger/h2/H2Logger.java:102-151 | log keeps all five tables, and no SQLException escapes it |
| Logger.LoggedRowsAreRouted | src/main/java/org/openmucextensions/datalogger/h2/H2Logger.java:112-149 | every row log adds to a table belongs to a directory channel whose type is sent to that table, with the batch timestamp |
| Logger.LoggedClosedIsNoOp | src/main/java/org/openmucextensions/datalogger/h2/H2Logger.java:140-149 | log on a closed store changes nothing and returns normally |
| Logger.LoggedUnknownIsNoOp | src/main/java/org/openmucextensions/datalogger/h2/H2Logger.java:114 | containers of channels missing from the directory are dropped |
| Logger.LoggedSingleTable | src/main/java/org/openmucextensions/datalogger/h2/H2Logger.java:112-149 | a call whose containers all go to one table is that table's single write, with SQLException swallowed |
| Logger.PartitionContainers | src/main/java/org/openmucextensions/datalogger/h2/H2Logger.java:106-138 | the partition loop builds the five lists, or fails when a container or its channel id is null |
| Logger.H2Logger.constructor | src/main/java/org/openmucextensions/datalogger/h2/H2Logger.java:23-30 | a new logger has no store, no timer and an empty directory, and is not initialised |
| Logger.H2Logger.Activate | src/main/java/org/openmucextensions/datalogger/h2/H2Logger.java:32-57 | the interval defaults to fourteen days; initialisation succeeds exactly when connect does; the cleanup task is scheduled, with a 10 s delay and a one-day period, exactly when initialisation succeeded and the interval is non-zero |
| Logger.H2Logger.Deactivate | src/main/java/org/openmucextensions/datalogger/h2/H2Logger.java:59-71 | the timer is cancelled if there is one and the store's connection is closed |
| Logger.H2Logger.SetChannelsToLog | src/main/java/org/openmucextensions/datalogger/h2/H2Logger.java:79-99 | nothing changes before a successful initialisation; a null list clears the directory and then raises NullPointerException; otherwise the directory is the list's Directory and CHANNELS is upserted with every listed channel |
| Logger.H2Logger.WriteLists | src/main/java/org/openmucextensions/datalogger/h2/H2Logger.java:140-149 | the write loop computes WriteFrom over the write order and changes only the value tables |
| Logger.H2Logger.Log | src/main/java/org/openmucextensions/datalogger/h2/H2Logger.java:102-151 | nothing changes before a successful initialisation; otherwise the tables and the outcome are Logged's |
| Logger.H2Logger.GetRecords | src/main/java/org/openmucextensions/datalogger/h2/H2Logger.java:154-163 | IOException before a successful initialisation, an SQLException of the store rethrown as IOException, otherwise the store's records |
| Scenarios.RoundTrip | src/test/java/org/openmucextensions/datalogger/h2/TestH2Logger.java:50-142 | register, log one VALID record at t, read [t, t]: exactly that record comes back, with the value converted to the column and the same content |
| Scenarios.UnregisteredChannel | src/main/java/org/openmucextensions/datalogger/h2/H2Logger.java:114 | logging for a channel never registered returns normally, all five tables stay empty, and the read is empty |
| Scenarios.AfterDeactivate | src/main/java/org/openmucextensions/datalogger/h2/H2Logger.java:59-71 | after deactivate, log returns normally and getRecords raises IOException |
| Scenarios.DriverMissing | src/main/java/org/openmucextensions/datalogger/h2/H2Logger.java:42-57 | without the driver, log is ignored, getRecords raises IOException and no timer is scheduled |
| Scenarios.CleanupScheduled | src/main/java/org/openmucextensions/datalogger/h2/H2Logger.java:47-50 | the cleanup timer is scheduled exactly when the interval is non-zero, with a 10 s delay and a one-day period |
| Scenarios.SameChannelTwice | src/main/java/org/openmucextensions/datalogger/h2/DatabaseWrapper.java:88-106 | two containers of one channel in one log call: the first is stored, the SQLException is swallowed |

## Left out

- JDBC and H2 plumbing are replaced by map updates: `Class.forName` and `DriverManager` become the `driverFound` and `opens` parameters of `Connect`, and statement preparation and closing, result sets and the SQL text are gone.
- `createTables` is not a member of its own. A new store starts with five empty value tables and an empty `CHANNELS`. Its failure, and the rows an existing database file already holds, are not modelled.
- The VARCHAR size limits of the schema are database constraints and are not modelled.
- Types.Convert: the `asDouble`, `asInt`, `asLong`, `asBoolean` and `asString` conversions belong to OpenMUC's value classes, which are not part of this model. Only conversions within a value's own family are modelled: Byte and Short widen to INT, and Float widens to DOUBLE. Any other pairing, such as a number logged for a STRING channel, is treated as a failing conversion (TypeConversion). Nothing of that call is written.
- Floating-point numbers are exact reals. Float-to-double widening and precision are not modelled.
- `BYTE_ARRAY` values have no constructor of their own. A BYTE_ARRAY channel is dispatched to STRING_VALUES like STRING, but no byte-array value is modelled.
- `Flag.newFlag` is taken as the identity on flag codes, and `Flag.VALID`'s code is the constant 1.
- Database.DatabaseWrapper.GetRecords: the records come in the order of a ghost `order`, which is any enumeration of the selected keys. The SELECT has no ORDER BY, so no sort order is claimed.
- Database.DatabaseWrapper.GetRecords: a null channel id is not modelled, because channel ids are strings.
- Database.DatabaseWrapper.DeleteRecordsBefore: the sum of the counts is an unbounded integer. The 32-bit overflow of the Java `int` is not modelled.
- Failures short-circuit as in the code. `deleteRecordsBefore` stops at the first failing DELETE and `log` stops at the first failing write. In the model a DELETE can only fail on a connection that is not open, which already fails the first statement.
- The host's clock is the `now` parameter of `AddOrUpdateChannel`, `SetChannelsToLog` and `Run`. `SetChannelsToLog` takes one clock reading for the whole call.
- `Timer` scheduling is reduced to whether a cleanup task exists (`cleanupTask`), the delay and period it was scheduled with (`cleanupSchedule`) and whether it was cancelled (`cleanupCancelled`). Runs of the task are calls of `CleanupTask.Run`.
- Null elements of the channel list, a channel whose `getId()` is null and a channel whose `getValueType()` is null are not modelled: a `LogChannel` always has an id and a value type. In the code these raise NullPointerException in `put`, in `addOrUpdateChannel` (`getValueType().name()`) or in log's switch. A null list itself is modelled.
- `synchronized`, `ConcurrentHashMap` and the timer thread are modelled sequentially.
- Configuration: `System.getProperty` for the database file name is not modelled. The storage interval property arrives already parsed, so the `NumberFormatException` of `Long.parseLong` is not modelled. slf4j logging is not modelled.
- `getId` returns a constant and is not modelled.
- `TestDatabaseSize` is a benchmark with no behaviour to state.
