/**
 * The contents of the H2 database as values: the rows of the CHANNELS table and of the five value
 * tables, and the row-level meaning of the SQL statements the store issues on them (MERGE, a
 * batched INSERT, SELECT ... BETWEEN, DELETE ... WHERE TIMESTAMP < ?).
 */
module Tables {
  import opened Wrappers
  import opened Types

  // ---------------------------------------------------------------------------------------------
  // Rows

  /** The primary key (ID, TIMESTAMP) of every value table. */
  datatype RowKey = RowKey(id: string, timestamp: Int64)

  /** The VALUE and FLAG columns of a value table row. */
  datatype Row = Row(value: Value, flag: FlagCode)

  /** One value table: at most one row per primary key. */
  type Rows = map<RowKey, Row>

  /** Every VALUE cell of a table has that table's column type. */
  ghost predicate CellsFit(t: Table, rows: Rows) {
    forall k | k in rows :: Fits(t, rows[k].value)
  }

  /** One row of the CHANNELS table (keyed by ID). */
  datatype ChannelRow = ChannelRow(description: Option<string>, unit: Option<string>, lastInit: Int64, valueType: string)

  // ---------------------------------------------------------------------------------------------
  // The batch of one log call

  /** A container that passed IsContainerValid, with its null checks done. */
  datatype Sample = Sample(channelId: string, value: Value, flag: Option<FlagCode>)

  function SampleOf(c: Option<LogRecordContainer>): Sample
    requires IsContainerValid(c)
  {
    Sample(c.value.channelId.value, c.value.record.value.value.value, c.value.record.value.flag)
  }

  /** The valid containers of a list, in list order; the invalid ones are skipped. */
  function Samples(cs: seq<Option<LogRecordContainer>>): seq<Sample> {
    if cs == [] then []
    else
      var init := Samples(cs[..|cs| - 1]);
      if IsContainerValid(cs[|cs| - 1]) then init + [SampleOf(cs[|cs| - 1])] else init
  }

  /** Skipping is done element by element, so it distributes over concatenation. */
  lemma {:induction false} SamplesAppend(a: seq<Option<LogRecordContainer>>, b: seq<Option<LogRecordContainer>>)
    ensures Samples(a + b) == Samples(a) + Samples(b)
    decreases |b|
  {
    if b == [] {
      assert a + b == a;
    } else {
      var b' := b[..|b| - 1];
      assert (a + b)[..|a + b| - 1] == a + b';
      SamplesAppend(a, b');
    }
  }

  /** An element of the list is skipped exactly when it is not valid. */
  lemma {:induction false} SamplesSingle(c: Option<LogRecordContainer>)
    ensures Samples([c]) == if IsContainerValid(c) then [SampleOf(c)] else []
  {
    assert [c][..0] == [];
  }

  /** A row to insert: its primary key and its columns. */
  datatype Entry = Entry(key: RowKey, row: Row)

  /**
   * The addBatch loop of a log call for table t with batch timestamp ts: one entry per valid
   * container, in order, or TypeConversion when a value cannot be converted to the table's column.
   */
  function Batch(t: Table, cs: seq<Option<LogRecordContainer>>, ts: Int64): (r: Result<seq<Entry>, Error>)
    ensures r.Failure? <==> exists i | 0 <= i < |Samples(cs)| :: Convert(t, Samples(cs)[i].value).None?
    ensures r.Failure? ==> r.error == TypeConversion
    ensures r.Success? ==>
      && |r.value| == |Samples(cs)|
      && forall i | 0 <= i < |r.value| ::
           && r.value[i].key == RowKey(Samples(cs)[i].channelId, ts)
           && Some(r.value[i].row.value) == Convert(t, Samples(cs)[i].value)
           && r.value[i].row.flag == FlagCodeOf(Samples(cs)[i].flag)
  {
    if cs == [] then Success([])
    else
      var init := cs[..|cs| - 1];
      assert Samples(cs) == Samples(init) + (if IsContainerValid(cs[|cs| - 1]) then [SampleOf(cs[|cs| - 1])] else []);
      match Batch(t, init, ts)
      case Failure(e) =>
        var i :| 0 <= i < |Samples(init)| && Convert(t, Samples(init)[i].value).None?;
        assert Samples(cs)[i] == Samples(init)[i];
        Failure(e)
      case Success(b) =>
        if !IsContainerValid(cs[|cs| - 1]) then Success(b)
        else
          var s := SampleOf(cs[|cs| - 1]);
          match Convert(t, s.value)
          case None =>
            assert Samples(cs)[|Samples(init)|] == s;
            Failure(TypeConversion)
          case Some(cell) => Success(b + [Entry(RowKey(s.channelId, ts), Row(cell, FlagCodeOf(s.flag)))])
  }

  /** Every cell a successful batch for table t binds has t's column type. */
  lemma BatchCellsFit(t: Table, cs: seq<Option<LogRecordContainer>>, ts: Int64)
    requires Batch(t, cs, ts).Success?
    ensures forall e | e in Batch(t, cs, ts).value :: Fits(t, e.row.value) && e.key.timestamp == ts
  {
    var b := Batch(t, cs, ts).value;
    forall e | e in b ensures Fits(t, e.row.value) && e.key.timestamp == ts {
      var i :| 0 <= i < |b| && b[i] == e;
    }
  }

  /** One valid container whose value does not convert makes the whole batch fail. */
  lemma BatchFailsAt(t: Table, cs: seq<Option<LogRecordContainer>>, ts: Int64, i: int)
    requires 0 <= i < |cs| && IsContainerValid(cs[i]) && Convert(t, SampleOf(cs[i]).value).None?
    ensures Batch(t, cs, ts) == Failure(TypeConversion)
  {
    SamplesAppend(cs[..i + 1], cs[i + 1..]);
    assert cs[..i + 1] + cs[i + 1..] == cs;
    assert cs[..i + 1][..i] == cs[..i];
    assert Samples(cs[..i + 1]) == Samples(cs[..i]) + [SampleOf(cs[i])];
    assert Samples(cs)[|Samples(cs[..i])|] == SampleOf(cs[i]);
  }

  /** A list of one valid container whose value converts is a batch of one entry. */
  lemma BatchSingle(t: Table, c: Option<LogRecordContainer>, ts: Int64)
    requires IsContainerValid(c) && Convert(t, SampleOf(c).value).Some?
    ensures Batch(t, [c], ts) == Success([Entry(RowKey(SampleOf(c).channelId, ts), Row(Convert(t, SampleOf(c).value).value, FlagCodeOf(SampleOf(c).flag)))])
  {
    var cs := [c];
    assert cs[..|cs| - 1] == [];
    assert cs[|cs| - 1] == c;
    var s := SampleOf(c);
    var e := Entry(RowKey(s.channelId, ts), Row(Convert(t, s.value).value, FlagCodeOf(s.flag)));
    assert Batch(t, cs, ts) == Success(Batch(t, [], ts).value + [e]);
    assert [] + [e] == [e];
  }

  // ---------------------------------------------------------------------------------------------
  // executeBatch

  /** The state after executing a batch, and whether some entry was rejected. */
  datatype Executed = Executed(rows: Rows, failed: bool)

  /**
   * executeBatch as H2 runs it under auto-commit: the entries are inserted one after the other;
   * an entry whose key is already present is rejected and the rest still run; the caller learns
   * of a rejection only after the whole batch.
   */
  function Execute(rows: Rows, batch: seq<Entry>): Executed {
    if batch == [] then Executed(rows, false)
    else
      var e := Execute(rows, batch[..|batch| - 1]);
      var last := batch[|batch| - 1];
      if last.key in e.rows then Executed(e.rows, true)
      else Executed(e.rows[last.key := last.row], e.failed)
  }

  ghost function KeysOf(batch: seq<Entry>): set<RowKey> {
    set i | 0 <= i < |batch| :: batch[i].key
  }

  /** No entry before position i has the key of entry i. */
  ghost predicate FirstWithKey(batch: seq<Entry>, i: int)
    requires 0 <= i < |batch|
  {
    forall j | 0 <= j < i :: batch[j].key != batch[i].key
  }

  /** Some entry collides with a stored row or with an earlier entry of the same batch. */
  ghost predicate HasConflict(rows: Rows, batch: seq<Entry>) {
    exists i | 0 <= i < |batch| :: batch[i].key in rows || !FirstWithKey(batch, i)
  }

  lemma KeysOfSnoc(batch: seq<Entry>)
    requires batch != []
    ensures KeysOf(batch) == KeysOf(batch[..|batch| - 1]) + {batch[|batch| - 1].key}
  {
    var n := |batch| - 1;
    var init := batch[..n];
    forall k | k in KeysOf(batch) ensures k in KeysOf(init) + {batch[n].key} {
      var i :| 0 <= i < |batch| && batch[i].key == k;
      if i < n { assert init[i].key == k; }
    }
    forall k | k in KeysOf(init) ensures k in KeysOf(batch) {
      var i :| 0 <= i < |init| && init[i].key == k;
      assert batch[i].key == k;
    }
  }

  /** One entry with a new key is inserted. */
  lemma ExecuteSingle(rows: Rows, e: Entry)
    requires e.key !in rows
    ensures Execute(rows, [e]) == Executed(rows[e.key := e.row], false)
  {
    assert [e][..0] == [];
  }

  /** Every entry's key is present afterwards, and no other new key. */
  lemma {:induction false} ExecuteKeys(rows: Rows, batch: seq<Entry>)
    ensures Execute(rows, batch).rows.Keys == rows.Keys + KeysOf(batch)
  {
    if batch != [] {
      ExecuteKeys(rows, batch[..|batch| - 1]);
      KeysOfSnoc(batch);
    }
  }

  /** Stored rows are never overwritten: the INSERT has no upsert semantics. */
  lemma {:induction false} ExecuteKeepsRows(rows: Rows, batch: seq<Entry>)
    ensures forall k | k in rows :: k in Execute(rows, batch).rows && Execute(rows, batch).rows[k] == rows[k]
  {
    if batch != [] {
      ExecuteKeepsRows(rows, batch[..|batch| - 1]);
    }
  }

  /** A new key holds the row of the first entry with that key. */
  lemma {:induction false} ExecuteFirstWins(rows: Rows, batch: seq<Entry>, i: int)
    requires 0 <= i < |batch| && batch[i].key !in rows && FirstWithKey(batch, i)
    ensures batch[i].key in Execute(rows, batch).rows
    ensures Execute(rows, batch).rows[batch[i].key] == batch[i].row
    decreases |batch|
  {
    var n := |batch| - 1;
    var init := batch[..n];
    ExecuteKeys(rows, init);
    if i < n {
      assert init[i] == batch[i];
      assert FirstWithKey(init, i);
      ExecuteFirstWins(rows, init, i);
    } else {
      forall j | 0 <= j < |init| ensures init[j].key != batch[i].key {
        assert init[j] == batch[j];
      }
    }
  }

  /** The last entry of a batch collides exactly when its key is stored or was entered earlier. */
  lemma LastCollides(rows: Rows, batch: seq<Entry>)
    requires batch != []
    ensures var n := |batch| - 1;
      batch[n].key in Execute(rows, batch[..n]).rows <==> batch[n].key in rows || !FirstWithKey(batch, n)
  {
    var n := |batch| - 1;
    var init := batch[..n];
    ExecuteKeys(rows, init);
    if !FirstWithKey(batch, n) {
      var j :| 0 <= j < n && batch[j].key == batch[n].key;
      assert init[j].key == batch[n].key;
    }
    if batch[n].key in KeysOf(init) {
      var j :| 0 <= j < |init| && init[j].key == batch[n].key;
      assert batch[j].key == batch[n].key;
    }
  }

  lemma HasConflictSnoc(rows: Rows, batch: seq<Entry>)
    requires batch != []
    ensures var n := |batch| - 1;
      HasConflict(rows, batch) <==> HasConflict(rows, batch[..n]) || batch[n].key in rows || !FirstWithKey(batch, n)
  {
    var n := |batch| - 1;
    var init := batch[..n];
    if HasConflict(rows, init) {
      var i :| 0 <= i < |init| && (init[i].key in rows || !FirstWithKey(init, i));
      assert batch[i] == init[i];
      if !FirstWithKey(init, i) {
        var j :| 0 <= j < i && init[j].key == init[i].key;
        assert batch[j] == init[j];
      }
    }
    if HasConflict(rows, batch) {
      var i :| 0 <= i < |batch| && (batch[i].key in rows || !FirstWithKey(batch, i));
      if i < n {
        assert batch[i] == init[i];
        if !FirstWithKey(batch, i) {
          var j :| 0 <= j < i && batch[j].key == batch[i].key;
          assert init[j] == batch[j];
        }
        assert HasConflict(rows, init);
      }
    }
  }

  /** The batch reports a failure exactly when some entry collides with a stored or earlier key. */
  lemma {:induction false} ExecuteFails(rows: Rows, batch: seq<Entry>)
    ensures Execute(rows, batch).failed <==> HasConflict(rows, batch)
  {
    if batch != [] {
      ExecuteFails(rows, batch[..|batch| - 1]);
      LastCollides(rows, batch);
      HasConflictSnoc(rows, batch);
    }
  }

  // ---------------------------------------------------------------------------------------------
  // SELECT and DELETE

  /** SELECT * FROM <table> WHERE ID=? AND TIMESTAMP BETWEEN ? AND ?: both bounds included. */
  function Selected(rows: Rows, id: string, startTime: Int64, endTime: Int64): Rows {
    map k | k in rows && k.id == id && startTime <= k.timestamp <= endTime :: rows[k]
  }

  /** What DELETE FROM <table> WHERE TIMESTAMP<? leaves: the rows at or after the cutoff. */
  function Purge(rows: Rows, cutoff: Int64): Rows {
    map k | k in rows && !(k.timestamp < cutoff) :: rows[k]
  }

  /** The update count of that DELETE: the rows strictly before the cutoff. */
  function RemovedCount(rows: Rows, cutoff: Int64): nat {
    |set k | k in rows && k.timestamp < cutoff|
  }

  /** The rows removed and the rows kept add up to the table. */
  lemma PurgeCount(rows: Rows, cutoff: Int64)
    ensures |Purge(rows, cutoff).Keys| + RemovedCount(rows, cutoff) == |rows.Keys|
  {
    var kept := Purge(rows, cutoff).Keys;
    var gone := set k | k in rows && k.timestamp < cutoff;
    assert rows.Keys == kept + gone;
    assert kept * gone == {};
  }

  /** Both bounds of BETWEEN are included: the interval [ts, ts] finds the row stored at (id, ts). */
  lemma SelectedPoint(rows: Rows, k: RowKey)
    requires k in rows
    ensures Selected(rows, k.id, k.timestamp, k.timestamp) == map[k := rows[k]]
  {
    assert Selected(rows, k.id, k.timestamp, k.timestamp).Keys == {k};
  }

  /**
   * A read after a DELETE with a cutoff: an interval that starts at or after the cutoff reads what
   * it read before, and an interval that ends before the cutoff reads nothing.
   */
  lemma PurgeSelected(rows: Rows, cutoff: Int64, id: string, startTime: Int64, endTime: Int64)
    ensures cutoff <= startTime ==> Selected(Purge(rows, cutoff), id, startTime, endTime) == Selected(rows, id, startTime, endTime)
    ensures endTime < cutoff ==> Selected(Purge(rows, cutoff), id, startTime, endTime) == map[]
  {
  }

  // ---------------------------------------------------------------------------------------------
  // The CHANNELS table

  /** The CHANNELS row a MERGE writes for a channel, stamped with the current time. */
  function ChannelRowOf(ch: LogChannel, now: Int64): ChannelRow {
    ChannelRow(ch.description, ch.unit, now, Name(ch.valueType))
  }

  /** No later channel of the list has the id of channel i: channel i is the one that wins. */
  ghost predicate LastWithId(chs: seq<LogChannel>, i: int)
    requires 0 <= i < |chs|
  {
    forall j | i < j < |chs| :: chs[j].id != chs[i].id
  }

  ghost function IdsOf(chs: seq<LogChannel>): set<string> {
    set i | 0 <= i < |chs| :: chs[i].id
  }

  /** The CHANNELS table after one MERGE ... KEY(ID) per channel of a list, in order. */
  function MergeAll(channels: map<string, ChannelRow>, chs: seq<LogChannel>, now: Int64): map<string, ChannelRow> {
    if chs == [] then channels
    else MergeAll(channels, chs[..|chs| - 1], now)[chs[|chs| - 1].id := ChannelRowOf(chs[|chs| - 1], now)]
  }

  lemma IdsOfSnoc(chs: seq<LogChannel>)
    requires chs != []
    ensures IdsOf(chs) == IdsOf(chs[..|chs| - 1]) + {chs[|chs| - 1].id}
  {
    var n := |chs| - 1;
    var init := chs[..n];
    forall id | id in IdsOf(chs) ensures id in IdsOf(init) + {chs[n].id} {
      var i :| 0 <= i < |chs| && chs[i].id == id;
      if i < n { assert init[i].id == id; }
    }
    forall id | id in IdsOf(init) ensures id in IdsOf(chs) {
      var i :| 0 <= i < |init| && init[i].id == id;
      assert chs[i].id == id;
    }
  }

  /** After the merges the ids are the old ones and the listed ones. */
  lemma {:induction false} MergeAllKeys(channels: map<string, ChannelRow>, chs: seq<LogChannel>, now: Int64)
    ensures MergeAll(channels, chs, now).Keys == channels.Keys + IdsOf(chs)
  {
    if chs != [] {
      MergeAllKeys(channels, chs[..|chs| - 1], now);
      IdsOfSnoc(chs);
    }
  }

  /** A row whose id is not listed is left as it was. */
  lemma {:induction false} MergeAllKeeps(channels: map<string, ChannelRow>, chs: seq<LogChannel>, now: Int64, id: string)
    requires id in channels && id !in IdsOf(chs)
    ensures id in MergeAll(channels, chs, now) && MergeAll(channels, chs, now)[id] == channels[id]
  {
    MergeAllKeys(channels, chs, now);
    if chs != [] {
      MergeAllKeys(channels, chs[..|chs| - 1], now);
      IdsOfSnoc(chs);
      MergeAllKeeps(channels, chs[..|chs| - 1], now, id);
    }
  }

  /** Upsert keyed by id: a listed id holds the row of the last channel of the list with that id. */
  lemma {:induction false} MergeAllLastWins(channels: map<string, ChannelRow>, chs: seq<LogChannel>, now: Int64, i: int)
    requires 0 <= i < |chs| && LastWithId(chs, i)
    ensures chs[i].id in MergeAll(channels, chs, now)
    ensures MergeAll(channels, chs, now)[chs[i].id] == ChannelRowOf(chs[i], now)
  {
    MergeAllKeys(channels, chs, now);
    var n := |chs| - 1;
    if i < n {
      var init := chs[..n];
      assert init[i] == chs[i];
      assert LastWithId(init, i);
      MergeAllLastWins(channels, init, now, i);
    }
  }
}
