/** The Migrator of migration/migrator.go: a catalog of migrations and the
    database it manages, with the loops of UpWithBatch, DownWithBatch and
    Status. The database is represented by the rows of its `migrations`
    table and the log of statements executed on it; every method is proved
    to do what the functions of module Ledger say. */
module Migrator {
  import opened Wrappers
  import opened Sorting
  import opened Migration
  import opened Validation
  import opened Ledger

  class Migrator {
    /** The catalog, in the order Add received it (UpWithBatch sorts it in place). */
    var migrations: seq<Migration>
    /** The rows of the `migrations` table. */
    var ledger: seq<Record>
    /** The statements executed on the database so far. */
    var log: seq<Stmt>

    /** NewMigrator: an empty catalog over a database in the given state. */
    constructor(ledger0: seq<Record>, log0: seq<Stmt>)
      ensures migrations == [] && ledger == ledger0 && log == log0
    {
      migrations := [];
      ledger := ledger0;
      log := log0;
    }

    function DB(): Store
      reads this
    {
      Store(ledger, log)
    }

    method Add(m: Migration)
      modifies this`migrations
      ensures migrations == old(migrations) + [m]
    {
      migrations := migrations + [m];
    }

    /** getAppliedMigrations: the rows ordered by timestamp. */
    function Records(): (records: seq<Record>)
      reads this
      ensures SortedBy(records, RecordTime) && multiset(records) == multiset(ledger)
      ensures |records| == |ledger|
    {
      SortBy(ledger, RecordTime)
    }

    /** The `applied` set UpWithBatch builds from the records. */
    method AppliedIds() returns (applied: set<string>)
      ensures applied == Ids(ledger)
    {
      var records := Records();
      applied := {};
      for i := 0 to |records|
        invariant applied == Ids(records[..i])
      {
        IdsPrefix(records, i);
        applied := applied + {records[i].id};
      }
      assert records[..|records|] == records;
      IdsSortBy(ledger);
    }

    /** Executes the SQL of each operation, stopping at the first failure. */
    method ExecuteOps(ops: seq<Operation>, accept: Oracle) returns (ok: bool)
      modifies this`log
      ensures Step(DB(), ok) == RunOps(old(DB()), ops, accept)
    {
      for i := 0 to |ops|
        invariant RunOps(old(DB()), ops, accept) == RunOps(DB(), ops[i..], accept)
      {
        assert ops[i..][1..] == ops[i + 1..];
        var sql := Sql(ops[i]);
        if !accept(log, Exec(sql)) {
          return false;
        }
        log := log + [Exec(sql)];
      }
      return true;
    }

    /** One iteration of UpWithBatch's loop. */
    method ApplyMigration(m: Migration, applied: set<string>, batch: int, clock: Clock, accept: Oracle)
      returns (err: Option<Error>)
      modifies this`ledger, this`log
      ensures Outcome(DB(), err) == ApplyOne(old(DB()), m, applied, batch, clock, accept)
    {
      if m.id in applied {
        return None;
      }
      var invalid := ValidateOperations(m.up);
      if invalid.Some? {
        return Some(InvalidOperation(m.name, invalid.value));
      }
      var ok := ExecuteOps(m.up, accept);
      if !ok {
        return Some(ExecFailed(m.name));
      }
      var row := RowFor(m, batch, clock(log));
      if !accept(log, InsertRecord(row)) || row.id in Ids(ledger) {
        return Some(RecordFailed(m.name));
      }
      ledger, log := ledger + [row], log + [InsertRecord(row)];
      return None;
    }

    /** UpWithBatch's loop over the sorted catalog. */
    method ApplyMigrations(applied: set<string>, batch: int, clock: Clock, accept: Oracle)
      returns (err: Option<Error>)
      modifies this`ledger, this`log
      ensures Outcome(DB(), err) == ApplyAll(old(DB()), migrations, applied, batch, clock, accept)
    {
      for i := 0 to |migrations|
        invariant ApplyAll(old(DB()), migrations, applied, batch, clock, accept)
               == ApplyAll(DB(), migrations[i..], applied, batch, clock, accept)
      {
        assert migrations[i..][1..] == migrations[i + 1..];
        err := ApplyMigration(migrations[i], applied, batch, clock, accept);
        if err.Some? {
          return;
        }
      }
      return None;
    }

    /** UpWithBatch: sorts the catalog by timestamp and applies the pending
        migrations under the next batch number. With a transaction, an
        error or a failed commit leaves the database as it was. */
    method UpWithBatch(useTx: bool, clock: Clock, accept: Oracle) returns (err: Option<Error>)
      modifies this
      ensures migrations == SortBy(old(migrations), MigrationTime)
      ensures Outcome(DB(), err) == UpSpec(old(DB()), old(migrations), useTx, clock, accept)
      ensures old(UniqueIds(ledger)) ==> UniqueIds(ledger)
    {
      var applied := AppliedIds();
      migrations := SortBy(migrations, MigrationTime);
      var batch := NextBatch(ledger);
      var before := DB();
      if useTx && !accept(log, Begin) {
        err := Some(BeginFailed);
      } else {
        err := ApplyMigrations(applied, batch, clock, accept);
        if useTx && err.None? && !accept(log, Commit) {
          err := Some(CommitFailed);
        }
        if useTx && err.Some? {
          ledger, log := before.ledger, before.log;
        }
      }
      if UniqueIds(before.ledger) {
        UpKeepsUniqueIds(before, old(migrations), useTx, clock, accept);
      }
    }

    /** Up: UpWithBatch in a transaction. */
    method Up(clock: Clock, accept: Oracle) returns (err: Option<Error>)
      modifies this
      ensures migrations == SortBy(old(migrations), MigrationTime)
      ensures Outcome(DB(), err) == UpSpec(old(DB()), old(migrations), true, clock, accept)
      ensures err.Some? ==> DB() == old(DB())
    {
      err := UpWithBatch(true, clock, accept);
      UpAtomicWithTx(old(DB()), old(migrations), clock, accept);
    }

    /** The first migration of the catalog with the given id. */
    method LookupMigration(id: string) returns (r: Option<Migration>)
      ensures r == FindMigration(migrations, id)
    {
      for i := 0 to |migrations|
        invariant FindMigration(migrations, id) == FindMigration(migrations[i..], id)
      {
        assert migrations[i..][1..] == migrations[i + 1..];
        if migrations[i].id == id {
          return Some(migrations[i]);
        }
      }
      return None;
    }

    /** One iteration of DownWithBatch's loop. */
    method RollbackMigration(rec: Record, accept: Oracle) returns (err: Option<Error>)
      modifies this`ledger, this`log
      ensures Outcome(DB(), err) == RollbackOne(old(DB()), rec, migrations, accept)
    {
      var found := LookupMigration(rec.id);
      if found.None? {
        return Some(NotFound(rec.id));
      }
      var m := found.value;
      var ok := ExecuteOps(m.down, accept);
      if !ok {
        return Some(RollbackFailed(m.name));
      }
      if !accept(log, DeleteRecord(rec.id)) {
        return Some(RemoveFailed(m.name));
      }
      ledger, log := RemoveId(ledger, rec.id), log + [DeleteRecord(rec.id)];
      return None;
    }

    /** The rows of the last record's batch, in timestamp order. */
    method SelectBatch(records: seq<Record>, lastBatch: int) returns (toRollback: seq<Record>)
      ensures toRollback == InBatch(records, lastBatch)
    {
      toRollback := [];
      for i := 0 to |records|
        invariant toRollback == InBatch(records[..i], lastBatch)
      {
        assert records[..i + 1][..i] == records[..i];
        if records[i].batch == lastBatch {
          toRollback := toRollback + [records[i]];
        }
      }
      assert records[..|records|] == records;
    }

    /** DownWithBatch's loop, from the last record to the first. */
    method RollbackMigrations(toRollback: seq<Record>, accept: Oracle) returns (err: Option<Error>)
      modifies this`ledger, this`log
      ensures Outcome(DB(), err) == RollbackAll(old(DB()), toRollback, migrations, accept)
    {
      var i := |toRollback|;
      assert toRollback[..i] == toRollback;
      while i > 0
        invariant 0 <= i <= |toRollback|
        invariant RollbackAll(old(DB()), toRollback, migrations, accept)
               == RollbackAll(DB(), toRollback[..i], migrations, accept)
      {
        assert toRollback[..i][..i - 1] == toRollback[..i - 1];
        err := RollbackMigration(toRollback[i - 1], accept);
        if err.Some? {
          return;
        }
        i := i - 1;
      }
      return None;
    }

    /** DownWithBatch: rolls back the batch of the newest row, newest
        first. With a transaction, an error or a failed commit leaves the
        database as it was. */
    method DownWithBatch(useTx: bool, accept: Oracle) returns (err: Option<Error>)
      modifies this`ledger, this`log
      ensures Outcome(DB(), err) == DownSpec(old(DB()), migrations, useTx, accept)
      ensures old(UniqueIds(ledger)) ==> UniqueIds(ledger)
    {
      var before := DB();
      var records := Records();
      if |records| == 0 {
        return None;
      }
      var lastBatch := records[|records| - 1].batch;
      var toRollback := SelectBatch(records, lastBatch);
      assert toRollback == InBatch(SortBy(before.ledger, RecordTime), RollbackBatch(before.ledger));
      err := RollbackInTx(useTx, toRollback, accept);
      if UniqueIds(before.ledger) {
        DownOnlyDeletes(before, migrations, useTx, accept);
      }
    }

    /** The rollback loop, inside a transaction when one is used. */
    method RollbackInTx(useTx: bool, toRollback: seq<Record>, accept: Oracle) returns (err: Option<Error>)
      modifies this`ledger, this`log
      ensures useTx && !accept(old(log), Begin) ==> Outcome(DB(), err) == Outcome(old(DB()), Some(BeginFailed))
      ensures !(useTx && !accept(old(log), Begin)) ==>
        var o := RollbackAll(old(DB()), toRollback, migrations, accept);
        Outcome(DB(), err) == if !useTx then o
                              else if o.err.Some? then Outcome(old(DB()), o.err)
                              else if !accept(o.store.log, Commit) then Outcome(old(DB()), Some(CommitFailed))
                              else o
    {
      var before := DB();
      if useTx && !accept(log, Begin) {
        return Some(BeginFailed);
      }
      err := RollbackMigrations(toRollback, accept);
      if useTx && err.None? && !accept(log, Commit) {
        err := Some(CommitFailed);
      }
      if useTx && err.Some? {
        ledger, log := before.ledger, before.log;
      }
    }

    /** Down: DownWithBatch in a transaction. */
    method Down(accept: Oracle) returns (err: Option<Error>)
      modifies this`ledger, this`log
      ensures Outcome(DB(), err) == DownSpec(old(DB()), migrations, true, accept)
      ensures err.Some? ==> DB() == old(DB())
    {
      err := DownWithBatch(true, accept);
      DownAtomicWithTx(old(DB()), migrations, accept);
    }

    /** The `applied` map Status builds: the last row of each id wins. */
    method AppliedTimes(records: seq<Record>) returns (applied: map<string, (int, int)>)
      ensures applied == AppliedMap(records)
    {
      applied := map[];
      for i := 0 to |records|
        invariant applied == AppliedMap(records[..i])
      {
        assert records[..i + 1][..i] == records[..i];
        applied := applied[records[i].id := (records[i].applied, records[i].batch)];
      }
      assert records[..|records|] == records;
    }

    /** Status: one entry per migration of the catalog, in its order. */
    method Status() returns (entries: seq<StatusEntry>)
      ensures entries == StatusOf(migrations, ledger)
    {
      var records := Records();
      var applied := AppliedTimes(records);
      entries := [];
      for i := 0 to |migrations|
        invariant |entries| == i
        invariant forall j :: 0 <= j < i ==> entries[j] == EntryFor(migrations[j], applied)
      {
        var m := migrations[i];
        if m.id in applied {
          entries := entries + [StatusEntry(m, Some(applied[m.id].0), applied[m.id].1)];
        } else {
          entries := entries + [StatusEntry(m, None, 0)];
        }
      }
      StatusOfEntries(migrations, ledger, entries);
    }
  }
}
