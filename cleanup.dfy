/**
 * CleanupTask: the periodic retention run that deletes every record older than the storage
 * interval. The timer that triggers it is not modelled; the clock reading is a parameter of Run.
 */
module Cleanup {
  import opened Wrappers
  import opened Types
  import opened Tables
  import opened Database

  /** Java's long subtraction: the exact difference, wrapped into the 64-bit range. */
  function Sub64(a: Int64, b: Int64): (r: Int64)
    ensures -0x8000_0000_0000_0000 <= a - b < 0x8000_0000_0000_0000 ==> r == a - b
    ensures (r - (a - b)) % 0x1_0000_0000_0000_0000 == 0
  {
    var d := a - b;
    if d < -0x8000_0000_0000_0000 then d + 0x1_0000_0000_0000_0000
    else if d >= 0x8000_0000_0000_0000 then d - 0x1_0000_0000_0000_0000
    else d
  }

  /** A past retention run leaves nothing for a run with the same cutoff to delete. */
  lemma PurgeAllIdempotent(tables: map<Table, Rows>, cutoff: Int64)
    ensures PurgeAll(PurgeAll(tables, cutoff), cutoff) == PurgeAll(tables, cutoff)
  {
    forall t | t in tables ensures Purge(Purge(tables[t], cutoff), cutoff) == Purge(tables[t], cutoff) {
    }
  }

  /** Two runs delete what the second run alone would when its cutoff is the later one. */
  lemma PurgeAllLater(tables: map<Table, Rows>, first: Int64, second: Int64)
    requires first <= second
    ensures PurgeAll(PurgeAll(tables, first), second) == PurgeAll(tables, second)
  {
    forall t | t in tables ensures Purge(Purge(tables[t], first), second) == Purge(tables[t], second) {
    }
  }

  class CleanupTask {
    /** The store the task deletes from; final in the source. */
    const database: DatabaseWrapper
    /** The retention window in milliseconds; final in the source. */
    const storageInterval: Int64

    constructor (database: DatabaseWrapper, storageInterval: Int64)
      ensures this.database == database && this.storageInterval == storageInterval
    {
      this.database := database;
      this.storageInterval := storageInterval;
    }

    /**
     * run: deletes the records before now - storageInterval from all five tables. An
     * SQLException is caught and run returns normally; CHANNELS and the connection are untouched.
     * Only a NullPointerException (a store that never connected) escapes.
     */
    method Run(now: Int64) returns (r: Outcome<Error>)
      requires database.Valid()
      modifies database`tables
      ensures database.Valid()
      ensures database.tables ==
        if database.connection == Open then PurgeAll(old(database.tables), Sub64(now, storageInterval))
        else old(database.tables)
      ensures r == if database.connection == NoConnection then Fail(NullPointer) else Pass
    {
      var threshold := Sub64(now, storageInterval);
      var deleted := database.DeleteRecordsBefore(threshold);
      if deleted.Failure? && !IsSqlException(deleted.error) {
        return Fail(deleted.error);
      }
      // the count is only logged; an SQLException is logged and swallowed
      r := Pass;
    }
  }
}
