/** What UpWithBatch, DownWithBatch and Status do to the database, as
    functions of its state (migration/migrator.go).

    The database is abstracted as the ledger (the rows of the `migrations`
    table) and the log of statements executed so far. Whether a statement
    succeeds is decided by an oracle that sees the log and the statement; the
    one rule the model adds is the ledger's PRIMARY KEY on `id`, so inserting
    a row whose id is already present fails. A transaction that fails, or is
    never committed, leaves the database as it was before it began. */
module Ledger {
  import opened Wrappers
  import opened Sorting
  import opened Migration
  import opened Validation

  /** MigrationRecord: one ledger row; times are Unix seconds. */
  datatype Record = Record(id: string, name: string, timestamp: int, applied: int, batch: int)

  /** The statements the migrator issues. Begin and Commit are asked of the
      oracle but leave no trace in the log. */
  datatype Stmt =
    | Begin
    | Exec(sql: string)
    | InsertRecord(row: Record)
    | DeleteRecord(id: string)
    | Commit

  datatype Store = Store(ledger: seq<Record>, log: seq<Stmt>)

  /** Decides whether a statement succeeds, given the statements executed before it. */
  type Oracle = (seq<Stmt>, Stmt) -> bool

  /** time.Now().Unix() at the moment a migration is recorded, given the
      statements executed before that moment. */
  type Clock = seq<Stmt> -> int

  /** The errors UpWithBatch and DownWithBatch return, by their cause. */
  datatype Error =
    | BeginFailed
    | InvalidOperation(migration: string, sqlType: string)
    | ExecFailed(migration: string)
    | RecordFailed(migration: string)
    | CommitFailed
    | NotFound(id: string)
    | RollbackFailed(migration: string)
    | RemoveFailed(migration: string)

  datatype Outcome = Outcome(store: Store, err: Option<Error>)

  function MigrationTime(m: Migration): int { m.timestamp }

  function RecordTime(r: Record): int { r.timestamp }

  function Ids(ledger: seq<Record>): set<string>
  {
    set r | r in ledger :: r.id
  }

  /** No two rows share an id: what the PRIMARY KEY guarantees. */
  ghost predicate UniqueIds(ledger: seq<Record>)
  {
    forall i, j :: 0 <= i < j < |ledger| ==> ledger[i].id != ledger[j].id
  }

  /** `DELETE FROM migrations WHERE id = ?`: the rows with another id, in order. */
  function RemoveId(ledger: seq<Record>, id: string): (r: seq<Record>)
    ensures forall x :: x in r <==> x in ledger && x.id != id
  {
    if |ledger| == 0 then []
    else
      var rest := RemoveId(ledger[..|ledger| - 1], id);
      assert ledger == ledger[..|ledger| - 1] + [ledger[|ledger| - 1]];
      if ledger[|ledger| - 1].id != id then rest + [ledger[|ledger| - 1]] else rest
  }

  /** One statement, when the oracle and the primary key allow it. */
  function Perform(st: Store, s: Stmt, accept: Oracle): Option<Store>
    requires s.Exec? || s.InsertRecord? || s.DeleteRecord?
  {
    if !accept(st.log, s) then None
    else match s
      case Exec(_) => Some(Store(st.ledger, st.log + [s]))
      case InsertRecord(row) =>
        if row.id in Ids(st.ledger) then None else Some(Store(st.ledger + [row], st.log + [s]))
      case DeleteRecord(id) => Some(Store(RemoveId(st.ledger, id), st.log + [s]))
  }

  datatype Step = Step(store: Store, ok: bool)

  /** Executes the SQL of the operations in order, stopping at the first failure. */
  function RunOps(st: Store, ops: seq<Operation>, accept: Oracle): Step
    decreases |ops|
  {
    if |ops| == 0 then Step(st, true)
    else match Perform(st, Exec(Render(ops[0])), accept)
      case None => Step(st, false)
      case Some(st') => RunOps(st', ops[1..], accept)
  }

  /** The Exec statements of the operations' SQL, in order. */
  function Rendered(ops: seq<Operation>): seq<Stmt>
  {
    seq(|ops|, i requires 0 <= i < |ops| => Exec(Render(ops[i])))
  }

  // ---------------------------------------------------------------------------
  // Up

  /** getNextBatchNumber: `COALESCE(MAX(batch), 0) + 1`. */
  function NextBatch(ledger: seq<Record>): (b: int)
    ensures forall r :: r in ledger ==> r.batch < b
    ensures |ledger| == 0 ==> b == 1
    ensures |ledger| > 0 ==> exists r :: r in ledger && b == r.batch + 1
  {
    if |ledger| == 0 then 1
    else
      var init := ledger[..|ledger| - 1];
      var last := ledger[|ledger| - 1];
      assert ledger == init + [last];
      if |init| == 0 || last.batch + 1 >= NextBatch(init) then last.batch + 1 else NextBatch(init)
  }

  function RowFor(m: Migration, batch: int, now: int): Record
  {
    Record(m.id, m.name, m.timestamp, now, batch)
  }

  /** `r` is the row recording `m` in the given batch, whatever its applied time. */
  predicate RowMatches(r: Record, m: Migration, batch: int)
  {
    r.id == m.id && r.name == m.name && r.timestamp == m.timestamp && r.batch == batch
  }

  ghost predicate RowsMatch(rows: seq<Record>, ms: seq<Migration>, batch: int)
  {
    |rows| == |ms| && forall i :: 0 <= i < |ms| ==> RowMatches(rows[i], ms[i], batch)
  }

  /** The migrations of the catalog whose ids are not in the ledger, in order. */
  function Pending(ms: seq<Migration>, applied: set<string>): (p: seq<Migration>)
    ensures forall m :: m in p <==> m in ms && m.id !in applied
  {
    if |ms| == 0 then []
    else (if ms[0].id in applied then [] else [ms[0]]) + Pending(ms[1..], applied)
  }

  /** One iteration of UpWithBatch's loop: skip an applied migration, else
      validate its operations, execute them and record it. */
  function ApplyOne(st: Store, m: Migration, applied: set<string>, batch: int, clock: Clock, accept: Oracle): Outcome
  {
    if m.id in applied then Outcome(st, None)
    else match FirstInvalidOperation(m.up)
      case Some(t) => Outcome(st, Some(InvalidOperation(m.name, t)))
      case None =>
        var run := RunOps(st, m.up, accept);
        if !run.ok then Outcome(run.store, Some(ExecFailed(m.name)))
        else match Perform(run.store, InsertRecord(RowFor(m, batch, clock(run.store.log))), accept)
          case None => Outcome(run.store, Some(RecordFailed(m.name)))
          case Some(st') => Outcome(st', None)
  }

  /** UpWithBatch's loop over the sorted catalog, stopping at the first error. */
  function ApplyAll(st: Store, ms: seq<Migration>, applied: set<string>, batch: int, clock: Clock, accept: Oracle): Outcome
    decreases |ms|
  {
    if |ms| == 0 then Outcome(st, None)
    else
      var o := ApplyOne(st, ms[0], applied, batch, clock, accept);
      if o.err.Some? then o else ApplyAll(o.store, ms[1..], applied, batch, clock, accept)
  }

  /** UpWithBatch: the pending migrations, in timestamp order, under one
      batch number. In a transaction, any error (including a validation
      error, after which the transaction is never committed) leaves the
      database as it was. */
  function UpSpec(st: Store, ms: seq<Migration>, useTx: bool, clock: Clock, accept: Oracle): Outcome
  {
    var sorted := SortBy(ms, MigrationTime);
    var applied := Ids(st.ledger);
    var batch := NextBatch(st.ledger);
    if !useTx then ApplyAll(st, sorted, applied, batch, clock, accept)
    else if !accept(st.log, Begin) then Outcome(st, Some(BeginFailed))
    else
      var o := ApplyAll(st, sorted, applied, batch, clock, accept);
      if o.err.Some? then Outcome(st, o.err)
      else if !accept(o.store.log, Commit) then Outcome(st, Some(CommitFailed))
      else o
  }

  /** The statements Up executes for the pending migrations `p`, recorded as
      `rows`: each migration's up operations, then the insert of its row. */
  function UpScript(p: seq<Migration>, rows: seq<Record>): seq<Stmt>
    requires |rows| == |p|
    decreases |p|
  {
    if |p| == 0 then [] else Rendered(p[0].up) + [InsertRecord(rows[0])] + UpScript(p[1..], rows[1..])
  }

  // ---------------------------------------------------------------------------
  // Down

  /** The batch DownWithBatch rolls back: the batch of the last row in
      timestamp order. */
  function RollbackBatch(ledger: seq<Record>): int
    requires |ledger| > 0
  {
    var records := SortBy(ledger, RecordTime);
    records[|records| - 1].batch
  }

  /** The rows of one batch, in the order given. */
  function InBatch(records: seq<Record>, batch: int): (r: seq<Record>)
    ensures forall x :: x in r <==> x in records && x.batch == batch
  {
    if |records| == 0 then []
    else
      var rest := InBatch(records[..|records| - 1], batch);
      assert records == records[..|records| - 1] + [records[|records| - 1]];
      if records[|records| - 1].batch == batch then rest + [records[|records| - 1]] else rest
  }

  /** The first migration of the catalog with the given id. */
  function FindMigration(ms: seq<Migration>, id: string): (r: Option<Migration>)
    ensures r.None? <==> forall i :: 0 <= i < |ms| ==> ms[i].id != id
    ensures r.Some? ==> exists k :: 0 <= k < |ms| && ms[k] == r.value && r.value.id == id
                                    && forall j :: 0 <= j < k ==> ms[j].id != id
  {
    if |ms| == 0 then None
    else if ms[0].id == id then Some(ms[0])
    else
      var rest := FindMigration(ms[1..], id);
      assert forall i :: 1 <= i < |ms| ==> ms[i] == ms[1..][i - 1];
      rest
  }

  /** One iteration of DownWithBatch's loop: find the migration, run its
      down operations, delete its row. */
  function RollbackOne(st: Store, rec: Record, ms: seq<Migration>, accept: Oracle): Outcome
  {
    match FindMigration(ms, rec.id)
    case None => Outcome(st, Some(NotFound(rec.id)))
    case Some(m) =>
      var run := RunOps(st, m.down, accept);
      if !run.ok then Outcome(run.store, Some(RollbackFailed(m.name)))
      else match Perform(run.store, DeleteRecord(rec.id), accept)
        case None => Outcome(run.store, Some(RemoveFailed(m.name)))
        case Some(st') => Outcome(st', None)
  }

  /** DownWithBatch's loop: the records from the last to the first. */
  function RollbackAll(st: Store, recs: seq<Record>, ms: seq<Migration>, accept: Oracle): Outcome
    decreases |recs|
  {
    if |recs| == 0 then Outcome(st, None)
    else
      var o := RollbackOne(st, recs[|recs| - 1], ms, accept);
      if o.err.Some? then o else RollbackAll(o.store, recs[..|recs| - 1], ms, accept)
  }

  /** DownWithBatch: nothing on an empty ledger; otherwise the rows of the
      rollback batch, newest first, with the transaction's all-or-nothing
      effect when one is used. */
  function DownSpec(st: Store, ms: seq<Migration>, useTx: bool, accept: Oracle): Outcome
  {
    if |st.ledger| == 0 then Outcome(st, None)
    else
      var toRollback := InBatch(SortBy(st.ledger, RecordTime), RollbackBatch(st.ledger));
      if !useTx then RollbackAll(st, toRollback, ms, accept)
      else if !accept(st.log, Begin) then Outcome(st, Some(BeginFailed))
      else
        var o := RollbackAll(st, toRollback, ms, accept);
        if o.err.Some? then Outcome(st, o.err)
        else if !accept(o.store.log, Commit) then Outcome(st, Some(CommitFailed))
        else o
  }

  /** The down operations of the migration recorded under `id`, if any. */
  function DownOps(ms: seq<Migration>, id: string): seq<Operation>
  {
    match FindMigration(ms, id)
    case None => []
    case Some(m) => m.down
  }

  /** The statements Down executes for the records, from the last to the
      first: each one's down operations, then the delete of its row. */
  function DownScript(recs: seq<Record>, ms: seq<Migration>): seq<Stmt>
    decreases |recs|
  {
    if |recs| == 0 then []
    else
      var last := recs[|recs| - 1];
      Rendered(DownOps(ms, last.id)) + [DeleteRecord(last.id)] + DownScript(recs[..|recs| - 1], ms)
  }

  // ---------------------------------------------------------------------------
  // Status

  /** One entry of Status: the applied time is None for a pending migration. */
  datatype StatusEntry = StatusEntry(migration: Migration, applied: Option<int>, batch: int)

  /** The `applied` map of Status: for each id, the applied time and batch of
      its last row in timestamp order. */
  function AppliedMap(records: seq<Record>): (m: map<string, (int, int)>)
    ensures forall id :: id in m <==> id in Ids(records)
    ensures forall id :: id in m ==> exists r :: r in records && r.id == id && m[id] == (r.applied, r.batch)
  {
    if |records| == 0 then map[]
    else
      var last := records[|records| - 1];
      assert records == records[..|records| - 1] + [last];
      AppliedMap(records[..|records| - 1])[last.id := (last.applied, last.batch)]
  }

  function EntryFor(m: Migration, applied: map<string, (int, int)>): StatusEntry
  {
    if m.id in applied then StatusEntry(m, Some(applied[m.id].0), applied[m.id].1)
    else StatusEntry(m, None, 0)
  }

  function StatusOf(ms: seq<Migration>, ledger: seq<Record>): (entries: seq<StatusEntry>)
    ensures |entries| == |ms|
  {
    var applied := AppliedMap(SortBy(ledger, RecordTime));
    seq(|ms|, i requires 0 <= i < |ms| => EntryFor(ms[i], applied))
  }

  /** A list holding the entry of each migration, in the catalog's order, is
      the status. */
  lemma StatusOfEntries(ms: seq<Migration>, ledger: seq<Record>, entries: seq<StatusEntry>)
    requires |entries| == |ms|
    requires forall j :: 0 <= j < |ms| ==> entries[j] == EntryFor(ms[j], AppliedMap(SortBy(ledger, RecordTime)))
    ensures entries == StatusOf(ms, ledger)
  {
  }

  // ---------------------------------------------------------------------------
  // properties: statements and the primary key

  /** Executing operations never touches the ledger and appends one Exec per
      operation executed. */
  lemma {:induction false} RunOpsKeepsLedger(st: Store, ops: seq<Operation>, accept: Oracle)
    ensures RunOps(st, ops, accept).store.ledger == st.ledger
    ensures DeletedIds(RunOps(st, ops, accept).store.log) == DeletedIds(st.log)
    decreases |ops|
  {
    if |ops| > 0 {
      var s := Exec(Render(ops[0]));
      match Perform(st, s, accept)
      case None =>
      case Some(st') =>
        assert (st.log + [s])[..|st.log|] == st.log;
        RunOpsKeepsLedger(st', ops[1..], accept);
    }
  }

  /** Operations that all succeed append exactly their SQL to the log, in order. */
  lemma {:induction false} RunOpsLog(st: Store, ops: seq<Operation>, accept: Oracle)
    requires RunOps(st, ops, accept).ok
    ensures RunOps(st, ops, accept).store.log == st.log + Rendered(ops)
    decreases |ops|
  {
    if |ops| > 0 {
      var st' := Perform(st, Exec(Render(ops[0])), accept).value;
      RunOpsLog(st', ops[1..], accept);
      assert Rendered(ops) == [Exec(Render(ops[0]))] + Rendered(ops[1..]);
    }
  }

  lemma UniqueSnoc(ledger: seq<Record>, r: Record)
    requires UniqueIds(ledger) && r.id !in Ids(ledger)
    ensures UniqueIds(ledger + [r])
  {
    forall i, j | 0 <= i < j < |ledger + [r]| ensures (ledger + [r])[i].id != (ledger + [r])[j].id {
      if j == |ledger| {
        assert ledger[i] in ledger;
      }
    }
  }

  lemma {:induction false} RemoveIdUnique(ledger: seq<Record>, id: string)
    requires UniqueIds(ledger)
    ensures UniqueIds(RemoveId(ledger, id))
  {
    if |ledger| > 0 {
      var init, last := ledger[..|ledger| - 1], ledger[|ledger| - 1];
      RemoveIdUnique(init, id);
      if last.id != id {
        forall x | x in RemoveId(init, id) ensures x.id != last.id {
          var k :| 0 <= k < |init| && init[k] == x;
        }
        UniqueSnoc(RemoveId(init, id), last);
      }
    }
  }

  /** Reading the rows in timestamp order yields the same ids. */
  lemma IdsSortBy(ledger: seq<Record>)
    ensures Ids(SortBy(ledger, RecordTime)) == Ids(ledger)
  {
    forall x ensures x in SortBy(ledger, RecordTime) <==> x in ledger {
      SortByMembers(ledger, RecordTime, x);
    }
  }

  /** In a ledger without repeated ids, a row is determined by its id. */
  lemma UniqueIdsRow(ledger: seq<Record>, x: Record, y: Record)
    requires UniqueIds(ledger) && x in ledger && y in ledger && x.id == y.id
    ensures x == y
  {
    var i :| 0 <= i < |ledger| && ledger[i] == x;
    var j :| 0 <= j < |ledger| && ledger[j] == y;
    assert !(i < j) && !(j < i);
  }

  /** The primary key holds after any statement. */
  lemma PerformUnique(st: Store, s: Stmt, accept: Oracle)
    requires s.Exec? || s.InsertRecord? || s.DeleteRecord?
    requires UniqueIds(st.ledger) && Perform(st, s, accept).Some?
    ensures UniqueIds(Perform(st, s, accept).value.ledger)
  {
    if s.InsertRecord? {
      UniqueSnoc(st.ledger, s.row);
    } else if s.DeleteRecord? {
      RemoveIdUnique(st.ledger, s.id);
    }
  }

  // ---------------------------------------------------------------------------
  // properties: Up

  /** A sub-sequence of a sorted sequence is sorted: the pending migrations
      stay in timestamp order. */
  lemma {:induction false} PendingSorted(ms: seq<Migration>, applied: set<string>)
    requires SortedBy(ms, MigrationTime)
    ensures SortedBy(Pending(ms, applied), MigrationTime)
  {
    if |ms| > 0 {
      SortedHead(ms, MigrationTime);
      PendingSorted(ms[1..], applied);
      if ms[0].id !in applied {
        SortedCons(ms[0], Pending(ms[1..], applied), MigrationTime);
      }
    }
  }

  /** One step of Up's loop: skipped, rejected, failed or recorded. */
  lemma ApplyOneEffect(st: Store, m: Migration, applied: set<string>, batch: int, clock: Clock, accept: Oracle)
    ensures var o := ApplyOne(st, m, applied, batch, clock, accept);
      && (m.id in applied ==> o == Outcome(st, None))
      && (m.id !in applied && o.err.None? ==>
            |o.store.ledger| == |st.ledger| + 1 && o.store.ledger[..|st.ledger|] == st.ledger
            && RowMatches(o.store.ledger[|st.ledger|], m, batch)
            && FirstInvalidOperation(m.up).None?)
      && (m.id !in applied && o.err.Some? ==> o.store.ledger == st.ledger)
      && (UniqueIds(st.ledger) ==> UniqueIds(o.store.ledger))
  {
    if m.id !in applied && FirstInvalidOperation(m.up).None? {
      var run := RunOps(st, m.up, accept);
      RunOpsKeepsLedger(st, m.up, accept);
      if run.ok {
        var row := RowFor(m, batch, clock(run.store.log));
        match Perform(run.store, InsertRecord(row), accept)
        case None =>
        case Some(st') =>
          assert st'.ledger == st.ledger + [row];
          if UniqueIds(st.ledger) {
            PerformUnique(run.store, InsertRecord(row), accept);
          }
      }
    }
  }

  /** UpWithBatch's loop only appends rows, and keeps the primary key. */
  lemma {:induction false} ApplyAllGrows(st: Store, ms: seq<Migration>, applied: set<string>, batch: int, clock: Clock, accept: Oracle)
    ensures var o := ApplyAll(st, ms, applied, batch, clock, accept);
      && |st.ledger| <= |o.store.ledger| && o.store.ledger[..|st.ledger|] == st.ledger
      && (UniqueIds(st.ledger) ==> UniqueIds(o.store.ledger))
    decreases |ms|
  {
    if |ms| > 0 {
      var o1 := ApplyOne(st, ms[0], applied, batch, clock, accept);
      ApplyOneEffect(st, ms[0], applied, batch, clock, accept);
      if o1.err.None? {
        ApplyAllGrows(o1.store, ms[1..], applied, batch, clock, accept);
        var o := ApplyAll(o1.store, ms[1..], applied, batch, clock, accept);
        assert o.store.ledger[..|st.ledger|] == o.store.ledger[..|o1.store.ledger|][..|st.ledger|];
      }
    }
  }

  lemma RowsMatchCons(r: Record, rows: seq<Record>, m: Migration, ms: seq<Migration>, batch: int)
    requires RowMatches(r, m, batch) && RowsMatch(rows, ms, batch)
    ensures RowsMatch([r] + rows, [m] + ms, batch)
  {
    assert forall i :: 1 <= i < |ms| + 1 ==> ([r] + rows)[i] == rows[i - 1] && ([m] + ms)[i] == ms[i - 1];
  }

  /** The ledger after one more pending migration: its row, then the rest. */
  lemma ApplyAllStep(st: Store, ms: seq<Migration>, applied: set<string>, batch: int, clock: Clock, accept: Oracle)
    requires |ms| > 0 && ms[0].id !in applied
    requires ApplyOne(st, ms[0], applied, batch, clock, accept).err.None?
    ensures var o1 := ApplyOne(st, ms[0], applied, batch, clock, accept);
      var o := ApplyAll(o1.store, ms[1..], applied, batch, clock, accept);
      && |o1.store.ledger| == |st.ledger| + 1 <= |o.store.ledger|
      && o == ApplyAll(st, ms, applied, batch, clock, accept)
      && o.store.ledger[|st.ledger|..] == [o.store.ledger[|st.ledger|]] + o.store.ledger[|o1.store.ledger|..]
      && RowMatches(o.store.ledger[|st.ledger|], ms[0], batch)
      && Pending(ms, applied) == [ms[0]] + Pending(ms[1..], applied)
      && FirstInvalidOperation(ms[0].up).None?
  {
    var o1 := ApplyOne(st, ms[0], applied, batch, clock, accept);
    ApplyOneEffect(st, ms[0], applied, batch, clock, accept);
    ApplyAllGrows(o1.store, ms[1..], applied, batch, clock, accept);
    var o := ApplyAll(o1.store, ms[1..], applied, batch, clock, accept);
    var n0 := |st.ledger|;
    assert o.store.ledger[n0] == o.store.ledger[..n0 + 1][n0];
  }

  /** On success, UpWithBatch's loop appends one matching row per pending
      migration, in order. */
  lemma {:induction false} ApplyAllSuccess(st: Store, ms: seq<Migration>, applied: set<string>, batch: int, clock: Clock, accept: Oracle)
    requires ApplyAll(st, ms, applied, batch, clock, accept).err.None?
    ensures var o := ApplyAll(st, ms, applied, batch, clock, accept);
      && |st.ledger| <= |o.store.ledger|
      && RowsMatch(o.store.ledger[|st.ledger|..], Pending(ms, applied), batch)
    decreases |ms|
  {
    ApplyAllGrows(st, ms, applied, batch, clock, accept);
    if |ms| > 0 {
      var o1 := ApplyOne(st, ms[0], applied, batch, clock, accept);
      ApplyAllSuccess(o1.store, ms[1..], applied, batch, clock, accept);
      if ms[0].id !in applied {
        ApplyAllStep(st, ms, applied, batch, clock, accept);
        var o := ApplyAll(st, ms, applied, batch, clock, accept);
        RowsMatchCons(o.store.ledger[|st.ledger|], o.store.ledger[|o1.store.ledger|..],
                      ms[0], Pending(ms[1..], applied), batch);
      }
    }
  }

  /** On success, every migration UpWithBatch's loop recorded passed validation. */
  lemma {:induction false} ApplyAllValidated(st: Store, ms: seq<Migration>, applied: set<string>, batch: int, clock: Clock, accept: Oracle)
    requires ApplyAll(st, ms, applied, batch, clock, accept).err.None?
    ensures forall m :: m in Pending(ms, applied) ==> FirstInvalidOperation(m.up).None?
    decreases |ms|
  {
    if |ms| > 0 {
      var o1 := ApplyOne(st, ms[0], applied, batch, clock, accept);
      ApplyOneEffect(st, ms[0], applied, batch, clock, accept);
      ApplyAllValidated(o1.store, ms[1..], applied, batch, clock, accept);
    }
  }

  /** After an error, UpWithBatch's loop has appended the rows of the pending
      migrations before the one that failed, and no more. */
  lemma {:induction false} ApplyAllFailure(st: Store, ms: seq<Migration>, applied: set<string>, batch: int, clock: Clock, accept: Oracle)
    requires ApplyAll(st, ms, applied, batch, clock, accept).err.Some?
    ensures var o := ApplyAll(st, ms, applied, batch, clock, accept);
      && |st.ledger| <= |o.store.ledger| < |st.ledger| + |Pending(ms, applied)|
      && RowsMatch(o.store.ledger[|st.ledger|..], Pending(ms, applied)[..|o.store.ledger| - |st.ledger|], batch)
    decreases |ms|
  {
    ApplyAllGrows(st, ms, applied, batch, clock, accept);
    var o1 := ApplyOne(st, ms[0], applied, batch, clock, accept);
    ApplyOneEffect(st, ms[0], applied, batch, clock, accept);
    if o1.err.None? {
      ApplyAllFailure(o1.store, ms[1..], applied, batch, clock, accept);
      if ms[0].id !in applied {
        ApplyAllStep(st, ms, applied, batch, clock, accept);
        var o := ApplyAll(st, ms, applied, batch, clock, accept);
        var rest := Pending(ms[1..], applied);
        var k := |o.store.ledger| - |o1.store.ledger|;
        assert Pending(ms, applied)[..k + 1] == [ms[0]] + rest[..k];
        RowsMatchCons(o.store.ledger[|st.ledger|], o.store.ledger[|o1.store.ledger|..], ms[0], rest[..k], batch);
      }
    }
  }

  /** Up on success: the ledger gains one row per pending migration (a
      migration of the catalog whose id is not yet recorded), in ascending
      timestamp order, all in the next batch; each of them passed validation,
      and no id appears twice. */
  lemma UpSuccess(st: Store, ms: seq<Migration>, useTx: bool, clock: Clock, accept: Oracle)
    requires UniqueIds(st.ledger)
    requires UpSpec(st, ms, useTx, clock, accept).err.None?
    ensures var o := UpSpec(st, ms, useTx, clock, accept);
      var p := Pending(SortBy(ms, MigrationTime), Ids(st.ledger));
      && |st.ledger| <= |o.store.ledger| && o.store.ledger[..|st.ledger|] == st.ledger
      && RowsMatch(o.store.ledger[|st.ledger|..], p, NextBatch(st.ledger))
      && SortedBy(o.store.ledger[|st.ledger|..], RecordTime)
      && (forall i :: 0 <= i < |p| ==> FirstInvalidOperation(p[i].up).None?)
      && UniqueIds(o.store.ledger)
  {
    var sorted := SortBy(ms, MigrationTime);
    var applied := Ids(st.ledger);
    ApplyAllGrows(st, sorted, applied, NextBatch(st.ledger), clock, accept);
    ApplyAllSuccess(st, sorted, applied, NextBatch(st.ledger), clock, accept);
    ApplyAllValidated(st, sorted, applied, NextBatch(st.ledger), clock, accept);
    PendingSorted(sorted, applied);
    var added := UpSpec(st, ms, useTx, clock, accept).store.ledger[|st.ledger|..];
    var p := Pending(sorted, applied);
    forall i, j | 0 <= i < j < |added| ensures added[i].timestamp <= added[j].timestamp {
      assert RowMatches(added[i], p[i], NextBatch(st.ledger));
      assert RowMatches(added[j], p[j], NextBatch(st.ledger));
    }
  }

  /** One pending migration recorded: its up operations, then the insert of its row. */
  lemma ApplyOneLog(st: Store, m: Migration, applied: set<string>, batch: int, clock: Clock, accept: Oracle)
    requires m.id !in applied && ApplyOne(st, m, applied, batch, clock, accept).err.None?
    ensures var o := ApplyOne(st, m, applied, batch, clock, accept);
      && |o.store.ledger| == |st.ledger| + 1 && o.store.ledger[..|st.ledger|] == st.ledger
      && o.store.log == st.log + Rendered(m.up) + [InsertRecord(o.store.ledger[|st.ledger|])]
  {
    var run := RunOps(st, m.up, accept);
    RunOpsLog(st, m.up, accept);
    RunOpsKeepsLedger(st, m.up, accept);
    var row := RowFor(m, batch, clock(run.store.log));
    assert ApplyOne(st, m, applied, batch, clock, accept).store
        == Store(st.ledger + [row], run.store.log + [InsertRecord(row)]);
  }

  /** On success, UpWithBatch's loop executes each pending migration's up
      operations followed by the insert of its row, one migration after the other. */
  lemma {:induction false} ApplyAllLog(st: Store, ms: seq<Migration>, applied: set<string>, batch: int, clock: Clock, accept: Oracle)
    requires ApplyAll(st, ms, applied, batch, clock, accept).err.None?
    ensures var o := ApplyAll(st, ms, applied, batch, clock, accept);
      && |o.store.ledger| == |st.ledger| + |Pending(ms, applied)|
      && o.store.log == st.log + UpScript(Pending(ms, applied), o.store.ledger[|st.ledger|..])
    decreases |ms|
  {
    if |ms| > 0 {
      var o1 := ApplyOne(st, ms[0], applied, batch, clock, accept);
      var o := ApplyAll(o1.store, ms[1..], applied, batch, clock, accept);
      assert o == ApplyAll(st, ms, applied, batch, clock, accept);
      ApplyAllLog(o1.store, ms[1..], applied, batch, clock, accept);
      var rest := Pending(ms[1..], applied);
      if ms[0].id !in applied {
        ApplyOneLog(st, ms[0], applied, batch, clock, accept);
        ApplyAllGrows(o1.store, ms[1..], applied, batch, clock, accept);
        assert Pending(ms, applied) == [ms[0]] + rest;
        UpScriptStep(st, o1.store, o.store, ms[0], rest);
      } else {
        assert Pending(ms, applied) == rest;
      }
    }
  }

  /** The log of one recorded migration followed by the log of the rest. */
  lemma UpScriptStep(st: Store, st1: Store, st2: Store, m: Migration, rest: seq<Migration>)
    requires |st1.ledger| == |st.ledger| + 1
    requires st1.log == st.log + Rendered(m.up) + [InsertRecord(st1.ledger[|st.ledger|])]
    requires |st1.ledger| <= |st2.ledger| && st2.ledger[..|st1.ledger|] == st1.ledger
    requires |st2.ledger| == |st1.ledger| + |rest|
    requires st2.log == st1.log + UpScript(rest, st2.ledger[|st1.ledger|..])
    ensures |st2.ledger| == |st.ledger| + |[m] + rest|
    ensures st2.log == st.log + UpScript([m] + rest, st2.ledger[|st.ledger|..])
  {
    var n := |st.ledger|;
    var row := st1.ledger[n];
    assert st2.ledger[n] == row by {
      assert st2.ledger[n] == st2.ledger[..n + 1][n];
    }
    var rows := st2.ledger[n + 1..];
    assert st2.ledger[n..] == [row] + rows;
    assert ([m] + rest)[1..] == rest && ([row] + rows)[1..] == rows;
  }

  /** Up on success executes, for each pending migration in ascending
      timestamp order, the SQL of its up operations and then the insert of
      its row, and nothing else. */
  lemma UpExecutes(st: Store, ms: seq<Migration>, useTx: bool, clock: Clock, accept: Oracle)
    requires UpSpec(st, ms, useTx, clock, accept).err.None?
    ensures var o := UpSpec(st, ms, useTx, clock, accept);
      var p := Pending(SortBy(ms, MigrationTime), Ids(st.ledger));
      && |o.store.ledger| == |st.ledger| + |p|
      && o.store.log == st.log + UpScript(p, o.store.ledger[|st.ledger|..])
  {
    ApplyAllLog(st, SortBy(ms, MigrationTime), Ids(st.ledger), NextBatch(st.ledger), clock, accept);
  }

  /** Without a transaction, an error keeps the rows recorded before it: the
      ledger gains the rows of a strict prefix of the pending migrations. */
  lemma UpPartialWithoutTx(st: Store, ms: seq<Migration>, clock: Clock, accept: Oracle)
    requires UpSpec(st, ms, false, clock, accept).err.Some?
    ensures var o := UpSpec(st, ms, false, clock, accept);
      var p := Pending(SortBy(ms, MigrationTime), Ids(st.ledger));
      && |st.ledger| <= |o.store.ledger| && o.store.ledger[..|st.ledger|] == st.ledger
      && |o.store.ledger| - |st.ledger| < |p|
      && RowsMatch(o.store.ledger[|st.ledger|..], p[..|o.store.ledger| - |st.ledger|], NextBatch(st.ledger))
  {
    ApplyAllGrows(st, SortBy(ms, MigrationTime), Ids(st.ledger), NextBatch(st.ledger), clock, accept);
    ApplyAllFailure(st, SortBy(ms, MigrationTime), Ids(st.ledger), NextBatch(st.ledger), clock, accept);
  }

  /** In a transaction, Up is all or nothing: on any error the ledger and
      the statements executed are those before the call. */
  lemma UpAtomicWithTx(st: Store, ms: seq<Migration>, clock: Clock, accept: Oracle)
    ensures UpSpec(st, ms, true, clock, accept).err.Some? ==> UpSpec(st, ms, true, clock, accept).store == st
  {
  }

  /** The primary key of the ledger holds after Up, whatever the outcome. */
  lemma UpKeepsUniqueIds(st: Store, ms: seq<Migration>, useTx: bool, clock: Clock, accept: Oracle)
    requires UniqueIds(st.ledger)
    ensures UniqueIds(UpSpec(st, ms, useTx, clock, accept).store.ledger)
  {
    ApplyAllGrows(st, SortBy(ms, MigrationTime), Ids(st.ledger), NextBatch(st.ledger), clock, accept);
  }

  lemma {:induction false} NothingPending(st: Store, ms: seq<Migration>, applied: set<string>, batch: int, clock: Clock, accept: Oracle)
    requires forall i :: 0 <= i < |ms| ==> ms[i].id in applied
    ensures ApplyAll(st, ms, applied, batch, clock, accept) == Outcome(st, None)
    decreases |ms|
  {
    if |ms| > 0 {
      NothingPending(st, ms[1..], applied, batch, clock, accept);
    }
  }

  /** When every migration of the catalog is recorded, Up executes nothing
      and records nothing; without a transaction it reports no error. */
  lemma UpNothingPending(st: Store, ms: seq<Migration>, useTx: bool, clock: Clock, accept: Oracle)
    requires forall m :: m in ms ==> m.id in Ids(st.ledger)
    ensures UpSpec(st, ms, useTx, clock, accept).store == st
    ensures !useTx ==> UpSpec(st, ms, useTx, clock, accept).err.None?
  {
    var sorted := SortBy(ms, MigrationTime);
    forall i | 0 <= i < |sorted| ensures sorted[i].id in Ids(st.ledger) {
      SortByMembers(ms, MigrationTime, sorted[i]);
    }
    NothingPending(st, sorted, Ids(st.ledger), NextBatch(st.ledger), clock, accept);
  }

  /** The ids of one more row of a sequence. */
  lemma IdsPrefix(records: seq<Record>, i: nat)
    requires i < |records|
    ensures Ids(records[..i + 1]) == Ids(records[..i]) + {records[i].id}
  {
    assert records[..i + 1] == records[..i] + [records[i]];
    IdsConcat(records[..i], [records[i]]);
    assert Ids([records[i]]) == {records[i].id};
  }

  lemma IdsConcat(a: seq<Record>, b: seq<Record>)
    ensures Ids(a + b) == Ids(a) + Ids(b)
  {
    forall id | id in Ids(a + b) ensures id in Ids(a) + Ids(b) {
      var r :| r in a + b && r.id == id;
    }
    forall id | id in Ids(a) + Ids(b) ensures id in Ids(a + b) {
      if id in Ids(a) {
        var r :| r in a && r.id == id;
        assert r in a + b;
      } else {
        var r :| r in b && r.id == id;
        assert r in a + b;
      }
    }
  }

  lemma MatchedIds(rows: seq<Record>, ms: seq<Migration>, batch: int)
    requires RowsMatch(rows, ms, batch)
    ensures forall m :: m in ms ==> m.id in Ids(rows)
  {
    forall m | m in ms ensures m.id in Ids(rows) {
      var k :| 0 <= k < |ms| && ms[k] == m;
      assert RowMatches(rows[k], ms[k], batch);
      assert rows[k] in rows;
    }
  }

  /** Once the pending migrations' rows are added, every migration of the
      catalog is recorded. */
  lemma PendingRecorded(ledger: seq<Record>, ledger': seq<Record>, ms: seq<Migration>, batch: int)
    requires |ledger| <= |ledger'| && ledger'[..|ledger|] == ledger
    requires RowsMatch(ledger'[|ledger|..], Pending(SortBy(ms, MigrationTime), Ids(ledger)), batch)
    ensures forall m :: m in ms ==> m.id in Ids(ledger')
  {
    var added := ledger'[|ledger|..];
    assert ledger' == ledger + added;
    IdsConcat(ledger, added);
    MatchedIds(added, Pending(SortBy(ms, MigrationTime), Ids(ledger)), batch);
    forall m | m in ms ensures m.id in Ids(ledger') {
      SortByMembers(ms, MigrationTime, m);
    }
  }

  /** After a successful Up, every migration of the catalog is recorded. */
  lemma UpRecordsAll(st: Store, ms: seq<Migration>, useTx: bool, clock: Clock, accept: Oracle)
    requires UniqueIds(st.ledger)
    requires UpSpec(st, ms, useTx, clock, accept).err.None?
    ensures forall m :: m in ms ==> m.id in Ids(UpSpec(st, ms, useTx, clock, accept).store.ledger)
  {
    UpSuccess(st, ms, useTx, clock, accept);
    PendingRecorded(st.ledger, UpSpec(st, ms, useTx, clock, accept).store.ledger, ms, NextBatch(st.ledger));
  }

  /** Up is idempotent: after a successful Up, a second Up over the same
      catalog (or any part of it) changes nothing. */
  lemma UpIdempotent(st: Store, ms: seq<Migration>, ms2: seq<Migration>, useTx: bool, useTx2: bool,
                     clock: Clock, clock2: Clock, accept: Oracle, accept2: Oracle)
    requires UniqueIds(st.ledger)
    requires UpSpec(st, ms, useTx, clock, accept).err.None?
    requires forall m :: m in ms2 ==> m in ms
    ensures var st' := UpSpec(st, ms, useTx, clock, accept).store;
      UpSpec(st', ms2, useTx2, clock2, accept2).store == st'
  {
    UpRecordsAll(st, ms, useTx, clock, accept);
    UpNothingPending(UpSpec(st, ms, useTx, clock, accept).store, ms2, useTx2, clock2, accept2);
  }

  // ---------------------------------------------------------------------------
  // properties: Down

  /** The ids deleted from the ledger by the statements of a log, in order. */
  function DeletedIds(log: seq<Stmt>): seq<string>
  {
    if |log| == 0 then []
    else
      var last := log[|log| - 1];
      DeletedIds(log[..|log| - 1]) + (if last.DeleteRecord? then [last.id] else [])
  }

  /** The ids of the rows, from the last to the first. */
  function ReversedIds(recs: seq<Record>): (ids: seq<string>)
    ensures |ids| == |recs|
    ensures forall i :: 0 <= i < |recs| ==> ids[i] == recs[|recs| - 1 - i].id
  {
    if |recs| == 0 then [] else [recs[|recs| - 1].id] + ReversedIds(recs[..|recs| - 1])
  }

  /** DownWithBatch's loop never adds a row and keeps the primary key. */
  lemma {:induction false} RollbackAllShrinks(st: Store, recs: seq<Record>, ms: seq<Migration>, accept: Oracle)
    ensures var o := RollbackAll(st, recs, ms, accept);
      && (forall x :: x in o.store.ledger ==> x in st.ledger)
      && (UniqueIds(st.ledger) ==> UniqueIds(o.store.ledger))
    decreases |recs|
  {
    if |recs| > 0 {
      var last := recs[|recs| - 1];
      match FindMigration(ms, last.id)
      case None =>
      case Some(m) =>
        var run := RunOps(st, m.down, accept);
        RunOpsKeepsLedger(st, m.down, accept);
        if run.ok {
          match Perform(run.store, DeleteRecord(last.id), accept)
          case None =>
          case Some(st1) =>
            if UniqueIds(st.ledger) {
              PerformUnique(run.store, DeleteRecord(last.id), accept);
            }
            RollbackAllShrinks(st1, recs[..|recs| - 1], ms, accept);
        }
    }
  }

  /** On success, DownWithBatch's loop deletes every row whose id is one of
      the records' ids, and nothing else. */
  lemma {:induction false} RollbackAllRemoves(st: Store, recs: seq<Record>, ms: seq<Migration>, accept: Oracle)
    requires RollbackAll(st, recs, ms, accept).err.None?
    ensures forall x :: x in RollbackAll(st, recs, ms, accept).store.ledger <==> x in st.ledger && x.id !in Ids(recs)
    decreases |recs|
  {
    if |recs| > 0 {
      var last := recs[|recs| - 1];
      var init := recs[..|recs| - 1];
      IdsPrefix(recs, |recs| - 1);
      assert recs[..|recs|] == recs;
      var m := FindMigration(ms, last.id).value;
      var run := RunOps(st, m.down, accept);
      RunOpsKeepsLedger(st, m.down, accept);
      var st1 := Perform(run.store, DeleteRecord(last.id), accept).value;
      assert st1.ledger == RemoveId(st.ledger, last.id);
      assert RollbackAll(st, recs, ms, accept) == RollbackAll(st1, init, ms, accept);
      RollbackAllRemoves(st1, init, ms, accept);
    }
  }

  /** On success, DownWithBatch's loop deletes the records from the last to
      the first. */
  lemma {:induction false} RollbackAllOrder(st: Store, recs: seq<Record>, ms: seq<Migration>, accept: Oracle)
    requires RollbackAll(st, recs, ms, accept).err.None?
    ensures DeletedIds(RollbackAll(st, recs, ms, accept).store.log) == DeletedIds(st.log) + ReversedIds(recs)
    decreases |recs|
  {
    if |recs| > 0 {
      var last := recs[|recs| - 1];
      var init := recs[..|recs| - 1];
      var m := FindMigration(ms, last.id).value;
      var run := RunOps(st, m.down, accept);
      RunOpsKeepsLedger(st, m.down, accept);
      var s := DeleteRecord(last.id);
      var st1 := Perform(run.store, s, accept).value;
      assert (run.store.log + [s])[..|run.store.log|] == run.store.log;
      assert DeletedIds(st1.log) == DeletedIds(st.log) + [last.id];
      RollbackAllOrder(st1, init, ms, accept);
    }
  }

  /** A sub-sequence of a sorted sequence is sorted: the rows of a batch
      stay in timestamp order. */
  lemma {:induction false} InBatchSorted(records: seq<Record>, batch: int)
    requires SortedBy(records, RecordTime)
    ensures SortedBy(InBatch(records, batch), RecordTime)
  {
    if |records| > 0 {
      var init := records[..|records| - 1];
      var last := records[|records| - 1];
      assert SortedBy(init, RecordTime);
      InBatchSorted(init, batch);
      var rest := InBatch(init, batch);
      if last.batch == batch {
        forall y | y in rest ensures y.timestamp <= last.timestamp {
          var k :| 0 <= k < |init| && init[k] == y;
        }
        var r := rest + [last];
        forall i, j | 0 <= i < j < |r| ensures r[i].timestamp <= r[j].timestamp {
          if j < |rest| {
            assert r[i] == rest[i] && r[j] == rest[j];
          } else {
            assert r[i] in rest;
          }
        }
      }
    }
  }

  /** Down on an empty ledger does nothing and reports no error. */
  lemma DownEmptyLedger(st: Store, ms: seq<Migration>, useTx: bool, accept: Oracle)
    requires |st.ledger| == 0
    ensures DownSpec(st, ms, useTx, accept) == Outcome(st, None)
  {
  }

  /** In a transaction, Down is all or nothing. */
  lemma DownAtomicWithTx(st: Store, ms: seq<Migration>, accept: Oracle)
    ensures DownSpec(st, ms, true, accept).err.Some? ==> DownSpec(st, ms, true, accept).store == st
  {
  }

  /** Down never adds a row, and the primary key holds after it. */
  lemma DownOnlyDeletes(st: Store, ms: seq<Migration>, useTx: bool, accept: Oracle)
    ensures forall x :: x in DownSpec(st, ms, useTx, accept).store.ledger ==> x in st.ledger
    ensures UniqueIds(st.ledger) ==> UniqueIds(DownSpec(st, ms, useTx, accept).store.ledger)
  {
    if |st.ledger| > 0 {
      var toRollback := InBatch(SortBy(st.ledger, RecordTime), RollbackBatch(st.ledger));
      RollbackAllShrinks(st, toRollback, ms, accept);
    }
  }

  /** Down on success removes exactly the rows of the rollback batch, keeps
      every other row, and works newest first: the batch's rows are in
      ascending timestamp order and the log gains, from the last row to the
      first, its migration's down SQL followed by the delete of its row. */
  lemma DownSuccess(st: Store, ms: seq<Migration>, useTx: bool, accept: Oracle)
    requires UniqueIds(st.ledger) && |st.ledger| > 0
    requires DownSpec(st, ms, useTx, accept).err.None?
    ensures var o := DownSpec(st, ms, useTx, accept);
      var b := RollbackBatch(st.ledger);
      var toRollback := InBatch(SortBy(st.ledger, RecordTime), b);
      && (forall x :: x in o.store.ledger <==> x in st.ledger && x.batch != b)
      && SortedBy(toRollback, RecordTime)
      && DeletedIds(o.store.log) == DeletedIds(st.log) + ReversedIds(toRollback)
      && o.store.log == st.log + DownScript(toRollback, ms)
  {
    var b := RollbackBatch(st.ledger);
    var records := SortBy(st.ledger, RecordTime);
    var toRollback := InBatch(records, b);
    RollbackAllRemoves(st, toRollback, ms, accept);
    RollbackAllOrder(st, toRollback, ms, accept);
    InBatchSorted(records, b);
    BatchIds(st.ledger, b);
    RollbackAllLog(st, toRollback, ms, accept);
  }

  /** One record rolled back: its migration exists, and the log gains its
      down operations, then the delete of its row. */
  lemma RollbackOneLog(st: Store, rec: Record, ms: seq<Migration>, accept: Oracle)
    requires RollbackOne(st, rec, ms, accept).err.None?
    ensures FindMigration(ms, rec.id).Some?
    ensures RollbackOne(st, rec, ms, accept).store.log
         == st.log + Rendered(DownOps(ms, rec.id)) + [DeleteRecord(rec.id)]
  {
    var m := FindMigration(ms, rec.id).value;
    RunOpsLog(st, m.down, accept);
  }

  /** On success, every record had a migration in the catalog. */
  lemma {:induction false} RollbackAllFound(st: Store, recs: seq<Record>, ms: seq<Migration>, accept: Oracle)
    requires RollbackAll(st, recs, ms, accept).err.None?
    ensures forall r :: r in recs ==> FindMigration(ms, r.id).Some?
    decreases |recs|
  {
    if |recs| > 0 {
      var last := recs[|recs| - 1];
      var o := RollbackOne(st, last, ms, accept);
      RollbackOneLog(st, last, ms, accept);
      assert RollbackAll(st, recs, ms, accept) == RollbackAll(o.store, recs[..|recs| - 1], ms, accept);
      RollbackAllFound(o.store, recs[..|recs| - 1], ms, accept);
      assert recs == recs[..|recs| - 1] + [last];
    }
  }

  /** On success, DownWithBatch's loop executes, from the last record to the
      first, its migration's down operations and then the delete of its row. */
  lemma {:induction false} RollbackAllLog(st: Store, recs: seq<Record>, ms: seq<Migration>, accept: Oracle)
    requires RollbackAll(st, recs, ms, accept).err.None?
    ensures RollbackAll(st, recs, ms, accept).store.log == st.log + DownScript(recs, ms)
    decreases |recs|
  {
    if |recs| > 0 {
      var last := recs[|recs| - 1];
      var o := RollbackOne(st, last, ms, accept);
      RollbackOneLog(st, last, ms, accept);
      assert RollbackAll(st, recs, ms, accept) == RollbackAll(o.store, recs[..|recs| - 1], ms, accept);
      RollbackAllLog(o.store, recs[..|recs| - 1], ms, accept);
      var step := Rendered(DownOps(ms, last.id)) + [DeleteRecord(last.id)];
      var later := DownScript(recs[..|recs| - 1], ms);
      assert DownScript(recs, ms) == step + later;
      assert (st.log + step) + later == st.log + (step + later);
    }
  }

  /** Down on success executes, for each row of the rollback batch from the
      newest to the oldest, the SQL of its migration's down operations and
      then the delete of its row; every row of the batch has a migration. */
  lemma DownExecutes(st: Store, ms: seq<Migration>, useTx: bool, accept: Oracle)
    requires |st.ledger| > 0
    requires DownSpec(st, ms, useTx, accept).err.None?
    ensures var toRollback := InBatch(SortBy(st.ledger, RecordTime), RollbackBatch(st.ledger));
      && (forall r :: r in toRollback ==> FindMigration(ms, r.id).Some?)
      && DownSpec(st, ms, useTx, accept).store.log == st.log + DownScript(toRollback, ms)
  {
    var toRollback := InBatch(SortBy(st.ledger, RecordTime), RollbackBatch(st.ledger));
    RollbackAllFound(st, toRollback, ms, accept);
    RollbackAllLog(st, toRollback, ms, accept);
  }

  /** A rollback fails when any of its records has no migration: the loop
      either stops earlier or reaches that record. */
  lemma {:induction false} RollbackAllMissing(st: Store, recs: seq<Record>, ms: seq<Migration>, accept: Oracle, k: nat)
    requires k < |recs| && FindMigration(ms, recs[k].id).None?
    ensures RollbackAll(st, recs, ms, accept).err.Some?
    decreases |recs|
  {
    var o := RollbackOne(st, recs[|recs| - 1], ms, accept);
    if o.err.None? {
      var init := recs[..|recs| - 1];
      assert k < |init| && init[k] == recs[k];
      RollbackAllMissing(o.store, init, ms, accept, k);
    }
  }

  /** Down fails when any row of the rollback batch, not only the newest,
      has no migration in the catalog; in a transaction the database is
      then unchanged. */
  lemma DownMissing(st: Store, ms: seq<Migration>, useTx: bool, accept: Oracle, r: Record)
    requires r in st.ledger && r.batch == RollbackBatch(st.ledger)
    requires forall m :: m in ms ==> m.id != r.id
    ensures DownSpec(st, ms, useTx, accept).err.Some?
    ensures useTx ==> DownSpec(st, ms, useTx, accept).store == st
  {
    var toRollback := InBatch(SortBy(st.ledger, RecordTime), RollbackBatch(st.ledger));
    SortByMembers(st.ledger, RecordTime, r);
    var k :| 0 <= k < |toRollback| && toRollback[k] == r;
    assert FindMigration(ms, r.id).None? by {
      forall i | 0 <= i < |ms| ensures ms[i].id != r.id {
        assert ms[i] in ms;
      }
    }
    RollbackAllMissing(st, toRollback, ms, accept, k);
  }

  /** With unique ids, a row's id is among the ids of a batch exactly when
      the row belongs to that batch. */
  lemma BatchIds(ledger: seq<Record>, b: int)
    requires UniqueIds(ledger)
    ensures var toRollback := InBatch(SortBy(ledger, RecordTime), b);
      forall x :: x in ledger ==> (x.id in Ids(toRollback) <==> x.batch == b)
  {
    var toRollback := InBatch(SortBy(ledger, RecordTime), b);
    forall x | x in ledger ensures x.id in Ids(toRollback) <==> x.batch == b {
      SortByMembers(ledger, RecordTime, x);
      if x.id in Ids(toRollback) {
        var y :| y in toRollback && y.id == x.id;
        SortByMembers(ledger, RecordTime, y);
        UniqueIdsRow(ledger, x, y);
      }
    }
  }

  /** The rollback batch is the batch of a row with the latest timestamp. */
  lemma RollbackBatchOfLatest(ledger: seq<Record>)
    requires |ledger| > 0
    ensures exists r :: r in ledger && r.batch == RollbackBatch(ledger)
                        && forall y :: y in ledger ==> y.timestamp <= r.timestamp
  {
    var records := SortBy(ledger, RecordTime);
    var r := records[|records| - 1];
    LastHasLargestKey(records, RecordTime);
    SortByMembers(ledger, RecordTime, r);
    forall y | y in ledger ensures y.timestamp <= r.timestamp {
      SortByMembers(ledger, RecordTime, y);
      assert RecordTime(y) <= RecordTime(r);
    }
    assert r in ledger && r.batch == RollbackBatch(ledger);
  }

  /** The rollback batch need not be the most recent batch. A migration
      whose timestamp is older than one already applied, added to the
      catalog later, is recorded in batch 2 with timestamp 1, while the
      batch 1 row has timestamp 2: Down then rolls back batch 1, although
      batch 2 is the latest. */
  lemma RollbackBatchNotLatest()
    ensures var ledger := [Record("2_b", "b", 2, 10, 1), Record("1_a", "a", 1, 20, 2)];
      RollbackBatch(ledger) == 1 && NextBatch(ledger) == 3
  {
    var r1, r2 := Record("2_b", "b", 2, 10, 1), Record("1_a", "a", 1, 20, 2);
    assert SortBy([r1], RecordTime) == [r1];
    assert [r1, r2][..1] == [r1];
    assert SortBy([r1, r2], RecordTime) == [r2, r1];
  }

  /** The batch of the last record ends with that record. */
  lemma InBatchOfLast(records: seq<Record>)
    requires |records| > 0
    ensures var toRollback := InBatch(records, records[|records| - 1].batch);
      |toRollback| > 0 && toRollback[|toRollback| - 1] == records[|records| - 1]
  {
  }

  /** A rollback whose newest row has no migration stops at once. */
  lemma RollbackAllNotFound(st: Store, recs: seq<Record>, ms: seq<Migration>, accept: Oracle)
    requires |recs| > 0
    requires forall m :: m in ms ==> m.id != recs[|recs| - 1].id
    ensures RollbackAll(st, recs, ms, accept) == Outcome(st, Some(NotFound(recs[|recs| - 1].id)))
  {
    var id := recs[|recs| - 1].id;
    assert FindMigration(ms, id).None? by {
      forall i | 0 <= i < |ms| ensures ms[i].id != id {
        assert ms[i] in ms;
      }
    }
  }

  /** When the catalog has no migration for the newest row, Down stops with
      NotFound before executing anything, and the database is unchanged. */
  lemma DownNotFound(st: Store, ms: seq<Migration>, useTx: bool, accept: Oracle)
    requires |st.ledger| > 0
    requires var records := SortBy(st.ledger, RecordTime);
      forall m :: m in ms ==> m.id != records[|records| - 1].id
    requires useTx ==> accept(st.log, Begin)
    ensures var records := SortBy(st.ledger, RecordTime);
      DownSpec(st, ms, useTx, accept) == Outcome(st, Some(NotFound(records[|records| - 1].id)))
  {
    var records := SortBy(st.ledger, RecordTime);
    assert RollbackBatch(st.ledger) == records[|records| - 1].batch;
    NewestNotFound(st, records, ms, accept);
    DownStopsAtFirst(st, ms, useTx, accept, NotFound(records[|records| - 1].id));
  }

  /** The rollback loop over the batch of the last record stops at that
      record when it has no migration. */
  lemma NewestNotFound(st: Store, records: seq<Record>, ms: seq<Migration>, accept: Oracle)
    requires |records| > 0
    requires forall m :: m in ms ==> m.id != records[|records| - 1].id
    ensures RollbackAll(st, InBatch(records, records[|records| - 1].batch), ms, accept)
         == Outcome(st, Some(NotFound(records[|records| - 1].id)))
  {
    InBatchOfLast(records);
    RollbackAllNotFound(st, InBatch(records, records[|records| - 1].batch), ms, accept);
  }

  /** A rollback that fails before changing anything leaves Down's outcome
      the same with or without a transaction. */
  lemma DownStopsAtFirst(st: Store, ms: seq<Migration>, useTx: bool, accept: Oracle, e: Error)
    requires |st.ledger| > 0
    requires RollbackAll(st, InBatch(SortBy(st.ledger, RecordTime), RollbackBatch(st.ledger)), ms, accept)
          == Outcome(st, Some(e))
    requires useTx ==> accept(st.log, Begin)
    ensures DownSpec(st, ms, useTx, accept) == Outcome(st, Some(e))
  {
  }

  // ---------------------------------------------------------------------------
  // properties: Status

  /** Status lists the catalog in its order; a migration is reported applied
      exactly when its id is recorded, with the applied time and batch of its
      row; a pending one has batch 0. */
  lemma StatusEntries(ms: seq<Migration>, ledger: seq<Record>)
    requires UniqueIds(ledger)
    ensures var entries := StatusOf(ms, ledger);
      forall i :: 0 <= i < |ms| ==>
        && entries[i].migration == ms[i]
        && (entries[i].applied.Some? <==> ms[i].id in Ids(ledger))
        && (entries[i].applied.None? ==> entries[i].batch == 0)
        && (forall r :: r in ledger && r.id == ms[i].id ==>
              entries[i].applied == Some(r.applied) && entries[i].batch == r.batch)
  {
    var records := SortBy(ledger, RecordTime);
    var applied := AppliedMap(records);
    forall x ensures x in records <==> x in ledger {
      SortByMembers(ledger, RecordTime, x);
    }
    assert Ids(records) == Ids(ledger);
    forall i, r | 0 <= i < |ms| && r in ledger && r.id == ms[i].id
      ensures applied[ms[i].id] == (r.applied, r.batch)
    {
      var y :| y in records && y.id == ms[i].id && applied[ms[i].id] == (y.applied, y.batch);
      UniqueIdsRow(ledger, r, y);
    }
  }
}
