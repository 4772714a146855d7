# theory: a Dafny model of the ORM core

This project models the core of `theory`, a small Go ORM for SQLite, in Dafny 4.11, and proves properties of that model. It covers five parts:

- **model**: `model/model.go` turns a Go struct into `Metadata`, meaning a table name and an ordered list of `Field`s. The field list is built from `db` tags (`pk`, `auto`, `-`) and snake_case names. `PrimaryKey` returns the first key field.
- **query builder**: `query/builder.go` is a fluent `Builder`. `Select`, `Where`, `OrderBy`, `Limit` and `Offset` update it in place, and `Build` renders a `SELECT` statement with its arguments.
- **migrations**: `migration/migration.go` defines the schema operations. These are CREATE/DROP TABLE, ADD/DROP/RENAME COLUMN, CREATE/DROP INDEX and ADD/DROP CONSTRAINT. The file renders each one as SQLite text, maps Go kinds to storage classes, and derives a `CreateTable` from a model.
- **migrator**: `migration/migrator.go` keeps a catalog of migrations and a `migrations` ledger table. `Up` applies the pending migrations as a new batch, `Down` rolls back the newest batch, and `Status` reports each migration. Each can run inside a transaction or without one.
- **CRUD statement text**: `theory.go` builds the INSERT, UPDATE and DELETE statements and their arguments from `Metadata`. `toFieldName` maps a column name to a Go field name.

## How the model is organised

- `wrappers.dfy`: `Option` and `Result`.
- `strings.dfy`: the `strings` helpers the source uses. These are `Join`, `Split`, `ToUpper`, `ToLower`, `Title` and decimal formatting. The file also has counting lemmas.
- `sorting.dfy`: a stable insertion sort by an integer key. It stands in for `sort.Slice` and for `ORDER BY timestamp`.
- `values.dfy`: column values passed as statement arguments.
- `model.dfy` (module `Model`): the struct description is a value.
  - A struct is its type name, its fields (name, `db` tag, kind) and the optional `Model` / `MetadataProvider` methods.
  - `ExtractMetadata` and its helpers are methods with loops, each proved equal to a specification function.
- `migration.dfy` (module `Migration`): the operations are a datatype. `Render` gives the SQL of each one, and methods with loops build the `CreateTable` text.
- `validation.dfy` (module `Validation`): `validateSQLType` and `validateOperation`.
- `ledger.dfy` (module `Ledger`): what the migrator does to the database, written as functions of its state.
  - The database is the ledger (the rows of `migrations`) plus the log of statements executed.
  - Whether a statement succeeds is decided by an `Oracle` parameter. The ledger's `PRIMARY KEY` on `id` is the one rule the model itself enforces.
  - `time.Now()` is a `Clock` parameter.
- `migrator.dfy` (module `Migrator`): class `Migrator` with fields `migrations`, `ledger` and `log`. Its methods follow the loops of `UpWithBatch`, `DownWithBatch` and `Status`, and each is proved equal to the `Ledger` function for it.
- `builder.dfy` (module `Builder`): class `Builder` with the fields of the Go struct. Its setters have `modifies this` and return `this`. `QueryText` specifies `Build`.
- `theory.dfy` (module `Theory`): the three statement builders and `toFieldName`. Each is a method with the source's loop, specified by a function.

### Where the code and its documentation differ (the model follows the code)

- Validation checks only the column types of `CreateTable` and `AddColumn` operations.
  - The allowed types are `INTEGER`, `TEXT`, `REAL` and `BLOB`, in any letter case. `NULL` is rejected (`NullTypeRejected`).
  - `ModifyColumn` is not validated.
  - Validation runs for one migration just before that migration executes. It does not run over the whole pending set first.
- Without a transaction, `Up` is not atomic. The migrations applied before an error stay applied and recorded (`UpPartialWithoutTx`).
- `Down` rolls back the batch of the row with the latest migration timestamp (migrator.go:204). That is not necessarily the largest batch number.
  - A migration whose timestamp is older than one already applied, when applied later, gets a higher batch number. It is then not the one `Down` removes.
  - `Ledger.RollbackBatchNotLatest` gives a two-row ledger where the rollback batch is 1 while batch 2 exists.
- If validation fails inside a transaction, `UpWithBatch` returns from a shadowing `err :=`. The deferred `Rollback` then does not run, and the transaction is simply never committed.
  - The model treats this outcome like a rolled-back transaction, so the database is as it was.
- `DownWithBatch` has the same leak when a row's migration is not in the catalog (migrator.go:240-241). It returns `fmt.Errorf` directly without setting the outer `err`, so the deferred `Rollback` does not fire. The transaction is never committed, and the model again restores the database.
- `buildUpdateQuery` on a model with no primary key emits `UPDATE t SET a = ?, b = ? ` with a trailing space and no `WHERE`. That statement updates every row. `buildDeleteQuery` likewise emits `DELETE FROM t `, which deletes every row (`Theory.NoKeyNoCondition`).
  - When every field is a key field, the SET list is empty (`UPDATE t SET  WHERE id = ?`).

## Model

| member | source | states |
|---|---|---|
| Model.SnakeCase | model/model.go:153-163 | returns the snake_case name of a type name: an underscore before every upper-case letter except the first, and all letters lower-cased |
| Model.SnakeNameShape | model/model.go:155-163 | the snake_case name has no upper-case letter, and its length is the input length plus the number of upper-case letters after the first position |
| Model.SnakeNameUserWithTags | model/model_test.go:188-191 | the derived table name of `UserWithTags` is `user_with_tags` |
| Model.SnakeNameTestUser | model/model.go:153-163 | the derived table name of `TestUser` is `test_user` |
| Model.SnakeNameWords | model/model.go:169-179 | untagged fields `Name` and `Email` get the column names `name` and `email` |
| Model.TableName | model/model.go:147-164 | a model's own `TableName()` wins; otherwise the snake_case type name |
| Model.DbFieldName | model/model.go:167-188 | no tag gives the snake_case field name; a tag gives its first comma-separated part, which holds no comma; an empty first part gives the lower-cased field name |
| Model.ContainsField | model/model.go:117-124 | true exactly when some field has the given name |
| Model.ContainsPKHandledField | model/model.go:127-134 | true exactly when some field has the given name and is marked as a key supplied by the model |
| Model.BuildField | model/model.go:86-108 | the field built from a struct field: its column name, and `pk`, `auto` and `null` from the tag options after the first, except that `pk` is ignored when the model already supplied that key |
| Model.ExtractMetadata | model/model.go:39-114 | a nil model fails with the nil-model error, a non-struct fails with `ErrNotAStruct`, a metadata provider's own answer is returned, and otherwise it returns the table name with the model's key field followed by the collected struct fields |
| Model.AddStructFieldNeverHandled | model/model.go:76-110 | a struct field is skipped when its name is already present or its tag is `-`; otherwise it is appended, never marked as handled by the model |
| Model.CollectFieldsKeepsInit | model/model.go:63-111 | the field list starts with the model-supplied key unchanged |
| Model.CollectFieldsOrigin | model/model.go:73-111 | every field after the model-supplied ones comes from a struct field whose tag is not `-` |
| Model.CollectFieldsCovers | model/model.go:73-111 | every struct field whose tag is not `-` has a field of that name in the result |
| Model.CollectFieldsAppend | model/model.go:73-111 | collecting over two runs of struct fields equals collecting over the first run and then the second |
| Model.CollectFieldsFresh | model/model.go:73-111 | with distinct new names and no `-` tag, the result is the initial list followed by one field per struct field, in declaration order |
| Model.CollectFieldsDistinct | model/model.go:76-79 | field names stay distinct: no struct field is added twice |
| Model.FirstPK | model/model.go:137-144 | none exactly when no field is a key; otherwise a field of the list that is a key |
| Model.PrimaryKey | model/model.go:137-144 | returns the first key field of the metadata, or none |
| Model.TagIdPkAuto | model/model_test.go:9-14 | the tag `id,pk,auto` gives column `id`, primary key, auto-increment |
| Model.PlainTag | model/model.go:86-108 | a one-part tag gives that column name and no key flags |
| Model.TagNull | model/model.go:86-108 | a tag `col,null` gives column `col`, nullable, and no key flags |
| Model.CollectFive | model/model.go:73-111 | five struct fields with distinct names and no `-` tag give one field each, in declaration order |
| Model.TestUserNewFields | migration/migration_test.go:10-16 | the tags of `TestUser` give `id` (pk, auto), `name`, `email` (nullable), `age`, `created_at` |
| Model.MigrationTestUserFields | migration/migration_test.go:10-16 | the field loop over `TestUser` gives those five fields in declaration order |
| Model.ExtractMigrationTestUser | migration/migration_test.go:10-16 | metadata of `TestUser` is table `test_user` with those five fields |
| Model.UserWithTagsTagged | model/model_test.go:67-79 | the fields of `UserWithTags` are `id` (key, auto), `name` and `email`, in that order |
| Model.UserWithTagsFields | model/model_test.go:67-79 | the collected fields of `UserWithTags` are exactly those the test expects |
| Model.ExtractUserWithTags | model/model_test.go:67-79 | metadata of `UserWithTags` is table `user_with_tags` with `id` (pk, auto), `name`, `email` |
| Model.ExtractUserWithTableName | model/model_test.go:80-92 | metadata of `UserWithTableName` is table `custom_users` with its model-supplied key first (marked handled) and then `name`, `email` |
| Migration.ColumnDefinition | migration/migration.go:112-125 | a column's text: name and type, `PRIMARY KEY` (plus `AUTOINCREMENT`) for a key, `NOT NULL` for a non-nullable non-key |
| Migration.ColumnDefIgnoredFlags | migration/migration.go:112-125 | `auto` matters only for a key, nullability only for a non-key, and the maximum length never |
| Migration.ForeignKeyDefinition | migration/migration.go:128-141 | a foreign key's text: `FOREIGN KEY (cols) REFERENCES table (cols)`, then `ON DELETE` and `ON UPDATE` only when set |
| Migration.WithActions | migration/migration.go:134-139 | appending the two optional action clauses in turn gives the action-clause text |
| Migration.TableDefinitions | migration/migration.go:111-141 | the definitions are the column texts in order followed by the foreign-key texts in order |
| Migration.CreateTableSql | migration/migration.go:110-161 | the CREATE TABLE text joins the definitions with `,\n\t`, and when there are indexes it adds `;\n` and their statements joined by `;\n` |
| Migration.CreateTableStatementCount | migration/migration.go:143-158 | with no `;` in any name, the CREATE TABLE text holds exactly one `;` per index: one statement per index follows the table |
| Migration.DefinitionsAvoid | migration/migration.go:111-141 | with no `;` in any name, no column or foreign-key definition contains `;` |
| Migration.AddColumnDefinition | migration/migration.go:177-183 | ADD COLUMN renders the column as a non-key column, whatever its key flag says |
| Migration.ModifyColumnOnlyRenames | migration/migration.go:199-201 | ModifyColumn's text depends only on the new column's name: its type and flags are ignored |
| Migration.AddForeignKeySql | migration/migration.go:230-247 | returns the rendered ADD CONSTRAINT statement of the operation |
| Migration.AddForeignKeyClause | migration/migration.go:230-247 | the constraint is named `table_cols_fk` and carries the same foreign-key clause as in CREATE TABLE |
| Migration.CreateIndexStatement | migration/migration.go:208-214 | CREATE INDEX renders like an index inside CREATE TABLE, `UNIQUE ` included when set |
| Migration.Sql | migration/migration.go:110-256 | returns the SQL of every operation variant |
| Migration.SqlType | migration/migration.go:274-295 | always one of the four SQLite storage classes; `BLOB` exactly for byte slices; `REAL` exactly for floats |
| Migration.NewMigration | migration/migration.go:263-271 | a new migration has the given name and time and no operations; its id is the decimal text of the time, `_`, then the name |
| Migration.NewMigrationIdsDistinct | migration/migration.go:263-271 | two new migrations get the same id exactly when they have the same name and second |
| Migration.TableFromMetadata | migration/migration.go:304-319 | the table of the metadata: one column per field, in order, named by its column name, typed by the storage class of its kind, with the field's primary-key, auto-increment and nullable flags and max length 0; no foreign keys or indexes |
| Migration.TableFromTestUserMetadata | migration/migration_test.go:31-37 | the columns built from `TestUser`'s metadata: `id INTEGER` pk auto, `name TEXT`, `email TEXT` nullable, `age INTEGER`, `created_at INTEGER` |
| Migration.TableFromMigrationTestUser | migration/migration_test.go:18-49 | CreateTableFromModel on `TestUser` gives table `test_user` with those columns and nothing else |
| Migration.CreateTableThree | migration/migration.go:110-143 | CREATE TABLE with three columns and no keys or indexes is the header, the three column definitions joined by `,\n\t`, and `\n)` |
| Migration.GoldenUsersColumnDefs | migration/migration_test.go:61-67 | the definitions `id INTEGER PRIMARY KEY AUTOINCREMENT`, `name TEXT NOT NULL`, `email TEXT` |
| Migration.GoldenCreateTable | migration/migration_test.go:57-68 | the users table renders as `CREATE TABLE users (\n\tid INTEGER PRIMARY KEY AUTOINCREMENT,\n\tname TEXT NOT NULL,\n\temail TEXT\n)` |
| Migration.GoldenDropTable | migration/migration_test.go:69-75 | `DROP TABLE users` |
| Migration.GoldenAddColumn | migration/migration_test.go:76-83 | a non-null `age INTEGER` column renders `ALTER TABLE users ADD COLUMN age INTEGER NOT NULL` |
| Migration.GoldenDropColumn | migration/migration_test.go:84-91 | `ALTER TABLE users DROP COLUMN age` |
| Migration.GoldenModifyColumn | migration/migration_test.go:92-100 | `ALTER TABLE users RENAME COLUMN name TO full_name` |
| Migration.CreateTableFromModel | migration/migration.go:298-320 | fails exactly when metadata extraction fails; otherwise the CREATE TABLE of the extracted metadata |
| Validation.ValidSqlTypeIgnoresCase | migration/migrator.go:55-63 | a type is valid regardless of letter case |
| Validation.NullTypeRejected | migration/migrator.go:55-63 | `NULL` is not a valid column type |
| Validation.FirstInvalidType | migration/migrator.go:69-73 | none exactly when every column type is valid; otherwise an invalid type of some column |
| Validation.OperationError | migration/migrator.go:66-80 | only CreateTable and AddColumn can fail, and each fails exactly when one of its column types is invalid |
| Validation.ValidateOperation | migration/migrator.go:66-80 | returns the error of the operation, as specified above |
| Validation.FirstInvalidOperation | migration/migrator.go:139-143 | none exactly when every operation of a migration is valid; otherwise the error of the first invalid one |
| Validation.ValidateOperations | migration/migrator.go:139-143 | returns the first operation error of a migration, or none |
| Validation.SqlTypeValid | migration/migration.go:274-295 | every type that SqlType produces passes validation |
| Validation.TableFromModelValid | migration/migration.go:298-320 | a table derived from a model always passes validation |
| Sorting.SortBy | migration/migrator.go:110-113 | the result is ordered by the key and is a permutation of the input |
| Sorting.SortByMembers | migration/migrator.go:110-113 | sorting keeps exactly the same elements |
| Ledger.RemoveId | migration/migrator.go:258-263 | deleting by id keeps exactly the rows with another id |
| Ledger.NextBatch | migration/migrator.go:83-90 | the next batch is 1 on an empty ledger and otherwise one more than some row's batch, and it exceeds every batch recorded |
| Ledger.Pending | migration/migrator.go:136-137 | the pending migrations are exactly the catalog's migrations whose id is not applied |
| Ledger.PendingSorted | migration/migrator.go:110-137 | pending migrations of a sorted catalog are in timestamp order |
| Ledger.PerformUnique | migration/migrator.go:42-44 | a successful statement keeps ledger ids unique (the `id` primary key) |
| Ledger.RunOpsKeepsLedger | migration/migrator.go:146-156 | executing a migration's operations changes no ledger row and deletes no record |
| Ledger.RunOpsLog | migration/migrator.go:146-156 | operations that all succeed add exactly their SQL to the log, in order |
| Ledger.ApplyOneEffect | migration/migrator.go:137-171 | an applied migration is skipped; a pending one either adds exactly one matching row after validating or leaves the ledger as it was |
| Ledger.ApplyAllGrows | migration/migrator.go:136-173 | Up's loop only appends rows and keeps ids unique |
| Ledger.ApplyAllSuccess | migration/migrator.go:136-173 | after a successful loop, the new rows match the pending migrations one for one and in order |
| Ledger.ApplyAllValidated | migration/migrator.go:139-143 | after a successful loop, every pending migration passed validation |
| Ledger.ApplyAllFailure | migration/migrator.go:136-173 | after an error, the new rows match a strict prefix of the pending migrations |
| Ledger.ApplyOneLog | migration/migrator.go:137-171 | a pending migration that is recorded logs its up SQL and then the insert of its row, and adds that one row |
| Ledger.UpScriptStep | migration/migrator.go:136-173 | the log of one recorded migration followed by the log of the rest is the log of both |
| Ledger.ApplyAllLog | migration/migrator.go:136-173 | after a successful loop, the log gains, migration by migration, its up SQL and the insert of its row |
| Ledger.UpExecutes | migration/migrator.go:98-184 | a successful Up executes, for each pending migration in timestamp order, the SQL of its up operations and then the insert of its row, and nothing else |
| Ledger.UpSuccess | migration/migrator.go:98-184 | a successful Up keeps the old rows and appends one row per pending migration, in timestamp order, all under the next batch number, with all of them validated and ids unique |
| Ledger.UpPartialWithoutTx | migration/migrator.go:146-171 | without a transaction, an error keeps the rows recorded before it: a strict prefix of the pending migrations |
| Ledger.UpAtomicWithTx | migration/migrator.go:122-133 | in a transaction, any error leaves the ledger and log as before |
| Ledger.UpKeepsUniqueIds | migration/migrator.go:158-171 | Up keeps ledger ids unique |
| Ledger.UpNothingPending | migration/migrator.go:136-137 | when every migration is already applied, Up changes nothing |
| Ledger.UpRecordsAll | migration/migrator.go:98-184 | after a successful Up, every catalog migration is recorded |
| Ledger.UpIdempotent | migration/migrator.go:98-184 | running Up again after a successful Up (with any clock or outcome of statements) changes nothing |
| Ledger.InBatch | migration/migrator.go:207-212 | the selection keeps exactly the rows of the given batch |
| Ledger.InBatchSorted | migration/migrator.go:207-212 | the selected batch keeps timestamp order |
| Ledger.BatchIds | migration/migrator.go:207-212 | with unique ids, a row's id is selected exactly when the row is in the batch |
| Ledger.RollbackBatchOfLatest | migration/migrator.go:203-204 | the rollback batch is the batch of a row with the latest timestamp |
| Ledger.RollbackBatchNotLatest | migration/migrator.go:203-204 | a ledger where the rollback batch (1) is not the largest batch (the next would be 3) |
| Ledger.FindMigration | migration/migrator.go:233-239 | none exactly when no catalog migration has the id; otherwise a catalog migration with that id |
| Ledger.ReversedIds | migration/migrator.go:229 | the ids of the rows, newest first |
| Ledger.RollbackAllShrinks | migration/migrator.go:229-267 | rolling back only removes rows and keeps ids unique |
| Ledger.RollbackAllRemoves | migration/migrator.go:257-266 | after a successful rollback, the rows left are exactly the old ones whose id was not rolled back |
| Ledger.RollbackAllOrder | migration/migrator.go:229-267 | records are deleted newest first: the deletions logged are the ids in reverse order |
| Ledger.RollbackOneLog | migration/migrator.go:230-266 | a record rolled back has a migration, and the log gains its down SQL and then the delete of its row |
| Ledger.RollbackAllFound | migration/migrator.go:233-242 | after a successful rollback, every record had a migration in the catalog |
| Ledger.RollbackAllLog | migration/migrator.go:229-267 | after a successful rollback, the log gains, from the last record to the first, its down SQL and the delete of its row |
| Ledger.DownExecutes | migration/migrator.go:192-278 | a successful Down executes, for each row of the rollback batch from the newest to the oldest, its migration's down SQL and then the delete of its row; every row of the batch has a migration |
| Ledger.RollbackAllMissing | migration/migrator.go:229-242 | a rollback fails when any of its records, not only the newest, has no migration |
| Ledger.DownMissing | migration/migrator.go:192-242 | Down fails when any row of the rollback batch has no migration in the catalog; in a transaction the database is then unchanged |
| Ledger.RollbackAllNotFound | migration/migrator.go:240-242 | when the newest row has no migration in the catalog, the rollback stops at once with NotFound and changes nothing |
| Ledger.NewestNotFound | migration/migrator.go:229-242 | the same for the batch of the newest row |
| Ledger.DownNotFound | migration/migrator.go:192-242 | when the catalog lacks the newest row's migration, Down fails with NotFound and leaves the database unchanged, with or without a transaction |
| Ledger.DownStopsAtFirst | migration/migrator.go:214-242 | a rollback that fails before any change gives the same outcome with and without a transaction |
| Ledger.DownEmptyLedger | migration/migrator.go:199-201 | Down on an empty ledger succeeds and changes nothing |
| Ledger.DownAtomicWithTx | migration/migrator.go:214-226 | in a transaction, any error leaves the ledger and log as before |
| Ledger.DownOnlyDeletes | migration/migrator.go:192-278 | Down never adds a row, and it keeps ids unique |
| Ledger.DownSuccess | migration/migrator.go:192-278 | a successful Down removes exactly the rows of the rollback batch and keeps the others; the batch is taken in timestamp order and the log gains, newest row first, its migration's down SQL and then the delete of its row |
| Ledger.AppliedMap | migration/migrator.go:298-310 | the map's keys are exactly the recorded ids, each mapped to the applied time and batch of a row with that id |
| Ledger.StatusOf | migration/migrator.go:319-342 | one entry per catalog migration |
| Ledger.StatusOfEntries | migration/migrator.go:319-342 | entries built one per migration from the applied map are the status |
| Ledger.StatusEntries | migration/migrator.go:281-345 | the status lists the catalog in order; a migration is marked applied exactly when its id is recorded, with that row's applied time and batch, and batch 0 otherwise |
| Migrator.Migrator.constructor | migration/migrator.go:27-32 | a new migrator has an empty catalog over the given database |
| Migrator.Migrator.Add | migration/migrator.go:35-37 | appends the migration to the catalog |
| Migrator.Migrator.Records | migration/migrator.go:348-378 | the rows in timestamp order: a sorted permutation of the ledger |
| Migrator.Migrator.AppliedIds | migration/migrator.go:105-108 | the applied set is exactly the ids in the ledger |
| Migrator.Migrator.ExecuteOps | migration/migrator.go:146-156 | executes the operations' SQL in order, stopping at the first failure |
| Migrator.Migrator.ApplyMigration | migration/migrator.go:137-172 | one loop iteration: skip, validate, execute, record |
| Migrator.Migrator.ApplyMigrations | migration/migrator.go:136-173 | the loop over the sorted catalog, stopping at the first error |
| Migrator.Migrator.UpWithBatch | migration/migrator.go:98-184 | sorts the catalog by timestamp, gives the outcome of the Up specification, and keeps ids unique |
| Migrator.Migrator.Up | migration/migrator.go:93-95 | UpWithBatch in a transaction: on error, the database is as before |
| Migrator.Migrator.LookupMigration | migration/migrator.go:233-239 | the first catalog migration with the id, or none |
| Migrator.Migrator.RollbackMigration | migration/migrator.go:230-266 | one loop iteration: find, execute the down operations, delete the record |
| Migrator.Migrator.SelectBatch | migration/migrator.go:207-212 | the rows of the given batch, in timestamp order |
| Migrator.Migrator.RollbackMigrations | migration/migrator.go:229-267 | the loop from the newest selected row to the oldest, stopping at the first error |
| Migrator.Migrator.RollbackInTx | migration/migrator.go:214-276 | a failed Begin changes nothing; in a transaction, an error or failed Commit restores the database; without one, the loop's outcome stands |
| Migrator.Migrator.DownWithBatch | migration/migrator.go:192-278 | gives the outcome of the Down specification and keeps ids unique |
| Migrator.Migrator.Down | migration/migrator.go:187-189 | DownWithBatch in a transaction: on error, the database is as before |
| Migrator.Migrator.AppliedTimes | migration/migrator.go:298-310 | the map from id to applied time and batch, the last row of an id winning |
| Migrator.Migrator.Status | migration/migrator.go:281-345 | one entry per catalog migration, as the status specification says |
| Builder.Builder.constructor | query/builder.go:21-28 | a new builder for the table: no operation, columns, conditions, arguments or order, and limit and offset 0 |
| Builder.Builder.Select | query/builder.go:31-35 | sets the operation to SELECT and replaces the columns; returns the same builder |
| Builder.Builder.Where | query/builder.go:38-42 | appends one condition and its arguments; returns the same builder |
| Builder.Builder.OrderBy | query/builder.go:45-48 | replaces the order clause; returns the same builder |
| Builder.Builder.Limit | query/builder.go:51-54 | replaces the limit; returns the same builder |
| Builder.Builder.Offset | query/builder.go:57-60 | replaces the offset; returns the same builder |
| Builder.Builder.WriteSelect | query/builder.go:66-76 | `SELECT * FROM t` with no columns, `SELECT a, b FROM t` otherwise, and nothing unless SELECT was chosen |
| Builder.Builder.WriteWhere | query/builder.go:78-81 | appends ` WHERE c1 AND c2 …` when there are conditions |
| Builder.Builder.WriteOrderBy | query/builder.go:83-86 | appends ` ORDER BY o` when an order is set |
| Builder.Builder.WriteLimitOffset | query/builder.go:88-94 | appends ` LIMIT n` and ` OFFSET n` only for positive values |
| Builder.Builder.Build | query/builder.go:63-97 | returns the rendered query and the arguments of all conditions, leaving the builder unchanged |
| Builder.ChainAppendsWhere | query/builder.go:38-42 | after any chain of calls, conditions and arguments are the old ones followed by those of each Where, in call order |
| Builder.ChainLastSetterWins | query/builder.go:31-60 | every setter other than Where overwrites its field, so the last call wins, and the table never changes |
| Builder.WhereClauseAppend | query/builder.go:78-81 | one more condition adds ` WHERE c` to none, or ` AND c` to the existing clause |
| Builder.NonPositiveOmitted | query/builder.go:88-94 | a zero or negative limit or offset renders like none at all |
| Builder.NothingSelected | query/builder.go:63-97 | a builder with no operation or clauses renders the empty string |
| Builder.GoldenSelectAll | query/builder_test.go:22-27 | `Select()` on `users` renders `SELECT * FROM users` |
| Builder.GoldenSelectColumns | query/builder_test.go:28-33 | selecting three columns renders `SELECT id, name, email FROM users` |
| Builder.GoldenTwoConditions | query/builder_test.go:44-50 | two Where calls render `SELECT * FROM users WHERE id > ? AND name LIKE ?` |
| Builder.GoldenLimitOffset | query/builder_test.go:73-79 | limit 10 and offset 5 render `SELECT * FROM users LIMIT 10 OFFSET 5` |
| Builder.ChainingCalls | query/builder_test.go:132-138 | the chained calls of the test leave the builder in the expected state |
| Builder.ChainingText | query/builder_test.go:140-141 | that state renders `SELECT id, name FROM users WHERE age > ? AND status = ? ORDER BY name ASC LIMIT 10 OFFSET 20` |
| Builder.Chaining | query/builder_test.go:130-150 | the chained builder returns the expected query and the arguments `18` and `active` |
| Theory.InsertedFields | theory.go:118-122 | the inserted fields are exactly the fields that are not an auto-increment key, in order |
| Theory.InsertLists | theory.go:118-127 | one column, one `?` and one argument per inserted field, in field order |
| Theory.BuildInsertQuery | theory.go:112-137 | returns `INSERT INTO t (cols) VALUES (?, …)` with the arguments of the inserted fields |
| Theory.InsertBalanced | theory.go:112-137 | the INSERT has exactly one `?` per argument, and one argument per inserted field |
| Theory.AssignedFields | theory.go:145-148 | the assigned fields are exactly the non-key fields, in order |
| Theory.AssignmentLists | theory.go:145-151 | one `col = ?` and one argument per non-key field, in field order |
| Theory.KeyCondition | theory.go:154-158 | `WHERE pk = ?` and the key's value for the first key field; nothing without a key |
| Theory.BuildUpdateQuery | theory.go:139-168 | returns the UPDATE text and its arguments: non-key values, then the key value |
| Theory.UpdateBalanced | theory.go:139-168 | the UPDATE has exactly one `?` per argument |
| Theory.KeyBoundLast | theory.go:145-158 | with a key, the last UPDATE argument is the key value, and DELETE's only argument is the key value |
| Theory.NoKeyNoCondition | theory.go:139-181 | without a key, UPDATE and DELETE carry no WHERE and no key argument, and they end in a space |
| Theory.BuildDeleteQuery | theory.go:170-183 | returns `DELETE FROM t WHERE pk = ?` with the key value |
| Theory.DeleteBalanced | theory.go:170-183 | the DELETE has exactly one `?` per argument |
| Theory.UsersInsert | theory.go:112-137 | a users model with auto key `id` inserts `INSERT INTO users (name) VALUES (?)` with the name |
| Theory.UsersUpdate | theory.go:139-168 | it updates with `UPDATE users SET name = ? WHERE id = ?` and the arguments name, then id |
| Theory.UsersDelete | theory.go:170-183 | it deletes with `DELETE FROM users WHERE id = ?` and the id |
| Theory.ToFieldName | theory.go:239-245 | returns the column split at `_`, each part title-cased, joined without separator |
| Theory.FieldNameOfSnakeName | theory.go:239-245 | for an alphanumeric name that does not start lower-case, the field name of its snake_case column is the name itself: the mapping inverts model's snake_case |
| Theory.FieldNameNoUnderscore | theory.go:239-245 | a field name never contains `_` |
| Theory.FieldNameUserId | theory.go:239-245 | `user_id` becomes `UserId` |
| Strings.SplitSinglePart | model/model.go:182-185 | splitting gives one part exactly when the separator is absent, and then the part is the whole string |
| Strings.SplitFirstPart | model/model.go:182-185 | the first part of a split is the prefix before the first separator |

## Left out

- Database I/O (`database/sql`, the SQLite driver) is not modelled. The ledger and the log of executed statements stand for the database, and an oracle parameter decides which statements succeed. A transaction is modelled by its effect: a restored state on error.
- `time.Now()` is not modelled. Migrations carry Unix seconds, and the `applied` time of a record comes from a `Clock` parameter. `NewMigration` takes one `now` argument for the two clock reads of the source.
- `sort.Slice` is not stable, and the order it gives to migrations with equal timestamps is unspecified. The model sorts stably, so the order of equal timestamps is not captured. The same holds for `ORDER BY timestamp` between equal timestamps.
- `Operation.Args()` returns nil for every operation, so statements are executed without arguments. Args is not modelled as a separate member.
- `generateID` (migration.go:323-325) is unused by the core and is not modelled.
- `Initialize` (the `CREATE TABLE IF NOT EXISTS migrations` statement) is not modelled beyond the `id` primary key the ledger enforces.
  - The errors of `Initialize`, `getAppliedMigrations` and `getNextBatchNumber` are not modelled; these reads are taken to succeed.
  - Status's own call to `Initialize` is not modelled.
- The leaked transaction after a validation error in `UpWithBatch`, and after a missing migration in `DownWithBatch` (migrator.go:240-241), is modelled as rolled back: the transaction is never committed, so nothing it did persists.
- Aliasing of slices is not modelled. `Select` stores the caller's slice and `Build` returns `b.args` itself, so a caller's later writes would show through. The model keeps sequences as values.
- Reflection is not modelled. A struct is described by its type name, its fields (name, `db` tag, `Kind`) and optional `Model` / `MetadataProvider` answers. Values read with `FieldByName` come from a `Row` function of the field name.
- The `MaxLength` of a column is carried but, as in the source, never rendered.
- Text is ASCII: `ToUpper`, `ToLower` and `strings.Title` act on ASCII letters only.
- theory.go outside the four statement helpers is not part of this model: `Connect`, `Create`, `Find`, `Update`, `Delete`, `scanRows` and `LastInsertId`. transaction.go is not part of this model either.
- theory_test.go expects the table of `TestUser` to be `test_users`, through an `AutoMigrate` that theory.go does not define. The name the model derives is `test_user` (`Model.SnakeNameTestUser`).
- Theory.FieldNameOfSnakeName: the round trip is proved only for alphanumeric names that do not start with a lower-case letter. Other names do not come back unchanged: an inner `_` or a leading lower-case letter is changed by the mapping.
- Theory.InsertBalanced, Theory.UpdateBalanced, Theory.DeleteBalanced: these assume that no table or column name contains `?`. Otherwise the placeholder count differs from the argument count.
- Migration.CreateTableStatementCount: stated only for names free of `;`.
