/** Rows, the target table, and `INSERT ... ON CONFLICT DO NOTHING`. */
module TargetTable {

  /** The primary-key columns of a row, and its remaining columns. */
  type Key(==)
  type Data(==)

  datatype Row = Row(key: Key, data: Data)

  type Table = map<Key, Row>

  /** One row inserted with ON CONFLICT DO NOTHING: a stored key is left alone. */
  function InsertRow(table: Table, row: Row): Table {
    if row.key in table then table else table[row.key := row]
  }

  /** Rows inserted one after another, in order. */
  function InsertAll(table: Table, rows: seq<Row>): Table
    decreases |rows|
  {
    if rows == [] then table
    else InsertRow(InsertAll(table, rows[..|rows| - 1]), rows[|rows| - 1])
  }

  /** `small` is what is left of `big` when some keys are forgotten: nothing in it was overwritten. */
  ghost predicate Extends(small: Table, big: Table) {
    forall k :: k in small ==> k in big && big[k] == small[k]
  }

  /** Every row is filed under its own key. */
  ghost predicate KeyedByKey(table: Table) {
    forall k :: k in table ==> table[k].key == k
  }

  /** What an insert means: old keys keep their row, each new key gets the first row that carries it. */
  lemma {:induction false} InsertIsFirstWins(table: Table, rows: seq<Row>)
    ensures Extends(table, InsertAll(table, rows))
    ensures forall i :: 0 <= i < |rows| ==> rows[i].key in InsertAll(table, rows)
    ensures forall k :: k in InsertAll(table, rows) && k !in table ==>
              exists i :: 0 <= i < |rows| && rows[i].key == k && InsertAll(table, rows)[k] == rows[i]
                          && forall j :: 0 <= j < i ==> rows[j].key != k
    decreases |rows|
  {
    if rows != [] {
      var n := |rows| - 1;
      var front := rows[..n];
      InsertIsFirstWins(table, front);
      var before, after := InsertAll(table, front), InsertAll(table, rows);
      assert forall i :: 0 <= i < n ==> front[i] == rows[i];
      forall k | k in after && k !in table
        ensures exists i :: 0 <= i < |rows| && rows[i].key == k && after[k] == rows[i]
                            && forall j :: 0 <= j < i ==> rows[j].key != k
      {
        if k in before {
          var i :| 0 <= i < n && front[i].key == k && before[k] == front[i]
                   && forall j :: 0 <= j < i ==> front[j].key != k;
          assert rows[i].key == k && after[k] == rows[i];
        } else {
          assert rows[n].key == k && after[k] == rows[n];
          assert forall j :: 0 <= j < n ==> front[j].key in before;
        }
      }
    }
  }

  /** Inserting a concatenation is inserting its halves one after the other. */
  lemma {:induction false} InsertConcat(table: Table, a: seq<Row>, b: seq<Row>)
    ensures InsertAll(table, a + b) == InsertAll(InsertAll(table, a), b)
    decreases |b|
  {
    if b == [] {
      assert a + b == a;
    } else {
      var n := |b| - 1;
      assert (a + b)[..|a + b| - 1] == a + b[..n];
      InsertConcat(table, a, b[..n]);
    }
  }

  /** Redelivery is absorbed: rows whose keys are all stored change nothing. */
  lemma {:induction false} InsertOfStoredKeysIsNoop(table: Table, rows: seq<Row>)
    requires forall i :: 0 <= i < |rows| ==> rows[i].key in table
    ensures InsertAll(table, rows) == table
    decreases |rows|
  {
    if rows != [] {
      var front := rows[..|rows| - 1];
      assert forall i :: 0 <= i < |front| ==> front[i] == rows[i];
      InsertOfStoredKeysIsNoop(table, front);
    }
  }
}

/** Stream entries as a reader receives them, and how a batch of them is decoded. */
module StreamEntries {
  import opened TargetTable

  /** Position of a message in the stream: ids grow in publication order. */
  type MsgId = nat

  /** What the `d` field of an entry holds when it is read. */
  datatype Payload = Absent | Undecodable | Rows(rows: seq<Row>)

  datatype Entry = Entry(id: MsgId, payload: Payload)

  /** Ids of the decodable entries, in order. */
  function GoodIds(entries: seq<Entry>): seq<MsgId>
    decreases |entries|
  {
    if entries == [] then []
    else
      var n := |entries| - 1;
      GoodIds(entries[..n]) + (if entries[n].payload.Rows? then [entries[n].id] else [])
  }

  /** The rows of the decodable entries, flattened in order. */
  function GoodRows(entries: seq<Entry>): seq<Row>
    decreases |entries|
  {
    if entries == [] then []
    else
      var n := |entries| - 1;
      GoodRows(entries[..n]) + (if entries[n].payload.Rows? then entries[n].payload.rows else [])
  }

  /** Ids of the entries that are acknowledged at once because they cannot be decoded. */
  function PoisonIds(entries: seq<Entry>): seq<MsgId>
    decreases |entries|
  {
    if entries == [] then []
    else
      var n := |entries| - 1;
      PoisonIds(entries[..n]) + (if entries[n].payload.Rows? then [] else [entries[n].id])
  }

  /** Decoding neither loses nor invents anything: ids split by payload, rows are exactly the decodable ones. */
  lemma {:induction false} DecodingIsExact(entries: seq<Entry>)
    ensures forall m :: m in GoodIds(entries) <==>
              exists e :: e in entries && e.id == m && e.payload.Rows?
    ensures forall m :: m in PoisonIds(entries) <==>
              exists e :: e in entries && e.id == m && !e.payload.Rows?
    ensures forall r :: r in GoodRows(entries) <==>
              exists e :: e in entries && e.payload.Rows? && r in e.payload.rows
    ensures |GoodIds(entries)| + |PoisonIds(entries)| == |entries|
    decreases |entries|
  {
    if entries != [] {
      var n := |entries| - 1;
      DecodingIsExact(entries[..n]);
      assert entries == entries[..n] + [entries[n]];
      assert forall e :: e in entries <==> e in entries[..n] || e == entries[n];
    }
  }

  /** The decoding loop of `_enqueue_entries`. */
  method DecodeEntries(entries: seq<Entry>)
    returns (messageIds: seq<MsgId>, allRows: seq<Row>, poisonIds: seq<MsgId>)
    ensures messageIds == GoodIds(entries)
    ensures allRows == GoodRows(entries)
    ensures poisonIds == PoisonIds(entries)
  {
    messageIds, allRows, poisonIds := [], [], [];
    for i := 0 to |entries|
      invariant messageIds == GoodIds(entries[..i])
      invariant allRows == GoodRows(entries[..i])
      invariant poisonIds == PoisonIds(entries[..i])
    {
      assert entries[..i + 1][..i] == entries[..i];
      match entries[i].payload {
        case Rows(rows) =>
          allRows := allRows + rows;
          messageIds := messageIds + [entries[i].id];
        case _ =>
          poisonIds := poisonIds + [entries[i].id];
      }
    }
    assert entries[..|entries|] == entries;
  }
}

/** One worker's database session: a private staging table in front of the shared target. */
module StagingWriter {
  import opened Numbers
  import opened TargetTable
  import opened StreamEntries

  class Session {
    /** What the UNLOGGED staging table holds; anything may be left in it by a crash. */
    var staging: seq<Row>
    var target: Table
    /** Message ids acknowledged to the consumer group. */
    var acked: set<MsgId>

    constructor (leftover: seq<Row>, table: Table)
      ensures staging == leftover && target == table && acked == {}
    {
      staging, target, acked := leftover, table, {};
    }

    /** TRUNCATE, COPY, INSERT ... SELECT, as one transaction. An error rolls all three back. */
    method CommitChunk(chunk: seq<Row>, fails: bool) returns (ok: bool)
      modifies this`staging, this`target
      ensures ok <==> !fails
      ensures ok ==> staging == chunk && target == InsertAll(old(target), chunk)
      ensures !ok ==> staging == old(staging) && target == old(target)
    {
      var before := (staging, target);
      staging := [];
      staging := staging + chunk;
      target := InsertAll(target, staging);
      if fails {
        staging, target := before.0, before.1;
      }
      return !fails;
    }

    /** `_write_batch`: commits `rows` in chunks. `budget` is how many transactions the database lets
        through before one is rolled back with an error. */
    method WriteBatch(rows: seq<Row>, chunkSize: nat, budget: nat) returns (ok: bool, committed: nat)
      requires chunkSize > 0
      modifies this`staging, this`target
      ensures committed <= |rows| && (ok <==> committed == |rows|)
      ensures committed == MinInt(budget * chunkSize, |rows|)
      ensures target == InsertAll(old(target), rows[..committed])
      ensures ok ==> target == InsertAll(old(target), rows)
      ensures Extends(old(target), target)
    {
      committed := 0;
      var left := budget;
      while committed < |rows|
        invariant committed <= |rows| && 0 <= left <= budget
        invariant committed == MinInt((budget - left) * chunkSize, |rows|)
        invariant target == InsertAll(old(target), rows[..committed])
        decreases |rows| - committed
      {
        var end := MinInt(committed + chunkSize, |rows|);
        var done := CommitChunk(rows[committed..end], left == 0);
        if !done {
          InsertIsFirstWins(old(target), rows[..committed]);
          return false, committed;
        }
        InsertConcat(old(target), rows[..committed], rows[committed..end]);
        assert rows[..committed] + rows[committed..end] == rows[..end];
        ChunkProgress(budget - left, chunkSize, |rows|);
        committed, left := end, left - 1;
      }
      assert rows[..committed] == rows;
      MinGrows(budget - left, budget, chunkSize, |rows|);
      InsertIsFirstWins(old(target), rows);
      ok := true;
    }

    /** One batch in `_worker_loop`: written, then acknowledged; on any error nothing is acknowledged. */
    method HandleBatch(messageIds: seq<MsgId>, rows: seq<Row>, chunkSize: nat, budget: nat, ackFails: bool)
      requires chunkSize > 0
      modifies this
      ensures acked == old(acked) || acked == old(acked) + (set m | m in messageIds)
      ensures acked != old(acked) ==> forall row :: row in rows ==> row.key in target
      ensures !ackFails && |rows| <= budget * chunkSize ==> acked == old(acked) + (set m | m in messageIds)
      ensures target == InsertAll(old(target), rows[..MinInt(budget * chunkSize, |rows|)])
      ensures Extends(old(target), target)
    {
      var ok := true;
      if rows != [] {
        var committed;
        ok, committed := WriteBatch(rows, chunkSize, budget);
      } else {
        assert rows[..MinInt(budget * chunkSize, |rows|)] == [];
      }
      if ok && !ackFails {
        InsertIsFirstWins(old(target), rows);
        acked := acked + (set m | m in messageIds);
      }
    }
  }

  lemma ChunkProgress(done: nat, chunkSize: nat, total: nat)
    requires chunkSize > 0
    requires done * chunkSize < total
    ensures MinInt(done * chunkSize + chunkSize, total) == MinInt((done + 1) * chunkSize, total)
  {
    assert (done + 1) * chunkSize == done * chunkSize + chunkSize;
  }

  lemma MinGrows(done: nat, budget: nat, chunkSize: nat, total: nat)
    requires done <= budget && MinInt(done * chunkSize, total) == total
    ensures MinInt(budget * chunkSize, total) == total
  {
    assert budget * chunkSize == done * chunkSize + (budget - done) * chunkSize;
  }
}
