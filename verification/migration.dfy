/** Schema migrations (migration/migration.go): the operations a migration is
    made of, the SQL text each one renders to, the SQL type chosen for a Go
    kind, and the CREATE TABLE operation derived from a model. */
module Migration {
  import opened Wrappers
  import opened Strings
  import Model

  datatype Column = Column(
    name: string,
    sqlType: string,
    isPK: bool,
    isAuto: bool,
    isNull: bool,
    maxLength: int)

  datatype ForeignKey = ForeignKey(
    columns: seq<string>,
    refTable: string,
    refColumns: seq<string>,
    onDelete: string,    // "" when absent
    onUpdate: string)    // "" when absent

  datatype Index = Index(name: string, columns: seq<string>, isUnique: bool)

  /** The implementations of the Operation interface. */
  datatype Operation =
    | CreateTable(name: string, columns: seq<Column>, foreignKeys: seq<ForeignKey>, indexes: seq<Index>)
    | DropTable(name: string)
    | AddColumn(table: string, column: Column)
    | DropColumn(table: string, columnName: string)
    | ModifyColumn(table: string, oldColumn: string, newColumn: Column)
    | CreateIndex(table: string, index: Index)
    | DropIndex(table: string, indexName: string)
    | AddForeignKey(table: string, foreignKey: ForeignKey)
    | DropForeignKey(table: string, constraintName: string)

  /** A migration; `timestamp` is its time.Time in Unix seconds. */
  datatype Migration = Migration(
    id: string,
    timestamp: int,
    name: string,
    up: seq<Operation>,
    down: seq<Operation>)

  // ---------------------------------------------------------------------------
  // SQL text

  /** One column definition inside CREATE TABLE. */
  function ColumnDef(c: Column): string
  {
    c.name + " " + c.sqlType
      + (if c.isPK then (if c.isAuto then " PRIMARY KEY AUTOINCREMENT" else " PRIMARY KEY") else "")
      + (if !c.isPK && !c.isNull then " NOT NULL" else "")
  }

  /** The optional referential actions, ON DELETE before ON UPDATE. */
  function ActionClauses(fk: ForeignKey): string
  {
    (if fk.onDelete != "" then " ON DELETE " + fk.onDelete else "")
      + (if fk.onUpdate != "" then " ON UPDATE " + fk.onUpdate else "")
  }

  /** One FOREIGN KEY clause inside CREATE TABLE. */
  function ForeignKeyDef(fk: ForeignKey): string
  {
    "FOREIGN KEY (" + Join(fk.columns, ", ") + ") REFERENCES " + fk.refTable
      + " (" + Join(fk.refColumns, ", ") + ")" + ActionClauses(fk)
  }

  /** One CREATE INDEX statement that follows CREATE TABLE. */
  function IndexStatement(table: string, idx: Index): string
  {
    "CREATE " + (if idx.isUnique then "UNIQUE " else "") + "INDEX " + idx.name
      + " ON " + table + " (" + Join(idx.columns, ", ") + ")"
  }

  function ColumnDefs(cols: seq<Column>): (defs: seq<string>)
    ensures |defs| == |cols|
  {
    seq(|cols|, i requires 0 <= i < |cols| => ColumnDef(cols[i]))
  }

  function ForeignKeyDefs(fks: seq<ForeignKey>): (defs: seq<string>)
    ensures |defs| == |fks|
  {
    seq(|fks|, i requires 0 <= i < |fks| => ForeignKeyDef(fks[i]))
  }

  function IndexStatements(table: string, idxs: seq<Index>): (stmts: seq<string>)
    ensures |stmts| == |idxs|
  {
    seq(|idxs|, i requires 0 <= i < |idxs| => IndexStatement(table, idxs[i]))
  }

  /** CreateTable.SQL: the table with its column and foreign key definitions,
      then each index as a further statement after ";\n". */
  function CreateTableText(name: string, cols: seq<Column>, fks: seq<ForeignKey>, idxs: seq<Index>): string
  {
    var table := "CREATE TABLE " + name + " (\n\t" + Join(ColumnDefs(cols) + ForeignKeyDefs(fks), ",\n\t") + "\n)";
    if |idxs| > 0 then table + ";\n" + Join(IndexStatements(name, idxs), ";\n") else table
  }

  /** Operation.SQL for every operation. */
  function Render(op: Operation): string
  {
    match op
    case CreateTable(name, cols, fks, idxs) => CreateTableText(name, cols, fks, idxs)
    case DropTable(name) => "DROP TABLE " + name
    case AddColumn(table, c) =>
      "ALTER TABLE " + table + " ADD COLUMN " + c.name + " " + c.sqlType + (if !c.isNull then " NOT NULL" else "")
    case DropColumn(table, col) => "ALTER TABLE " + table + " DROP COLUMN " + col
    case ModifyColumn(table, oldCol, newCol) => "ALTER TABLE " + table + " RENAME COLUMN " + oldCol + " TO " + newCol.name
    case CreateIndex(table, idx) =>
      "CREATE " + (if idx.isUnique then "UNIQUE " else "") + "INDEX " + idx.name
        + " ON " + table + " (" + Join(idx.columns, ", ") + ")"
    case DropIndex(_, name) => "DROP INDEX " + name
    case AddForeignKey(table, fk) =>
      "ALTER TABLE " + table + " ADD CONSTRAINT " + table + "_" + Join(fk.columns, "_") + "_fk"
        + " FOREIGN KEY (" + Join(fk.columns, ", ") + ") REFERENCES " + fk.refTable
        + " (" + Join(fk.refColumns, ", ") + ")" + ActionClauses(fk)
    case DropForeignKey(table, name) => "ALTER TABLE " + table + " DROP CONSTRAINT " + name
  }

  /** One column definition, its clauses appended as the flags require. */
  method ColumnDefinition(c: Column) returns (def: string)
    ensures def == ColumnDef(c)
  {
    def := c.name + " " + c.sqlType;
    if c.isPK {
      if c.isAuto {
        def := def + " PRIMARY KEY AUTOINCREMENT";
      } else {
        def := def + " PRIMARY KEY";
      }
    }
    if !c.isPK && !c.isNull {
      def := def + " NOT NULL";
    }
  }

  /** Appending each referential action that is set appends ActionClauses. */
  lemma WithActions(s: string, fk: ForeignKey)
    ensures var s1 := if fk.onDelete != "" then s + " ON DELETE " + fk.onDelete else s;
      (if fk.onUpdate != "" then s1 + " ON UPDATE " + fk.onUpdate else s1) == s + ActionClauses(fk)
  {
  }

  /** One FOREIGN KEY clause, its actions appended when they are set. */
  method ForeignKeyDefinition(fk: ForeignKey) returns (def: string)
    ensures def == ForeignKeyDef(fk)
  {
    var base := "FOREIGN KEY (" + Join(fk.columns, ", ") + ") REFERENCES " + fk.refTable
                + " (" + Join(fk.refColumns, ", ") + ")";
    def := base;
    if fk.onDelete != "" {
      def := def + " ON DELETE " + fk.onDelete;
    }
    if fk.onUpdate != "" {
      def := def + " ON UPDATE " + fk.onUpdate;
    }
    WithActions(base, fk);
  }

  /** The first two loops of CreateTable.SQL: a definition per column, then
      one per foreign key. */
  method TableDefinitions(cols: seq<Column>, fks: seq<ForeignKey>) returns (defs: seq<string>)
    ensures defs == ColumnDefs(cols) + ForeignKeyDefs(fks)
  {
    defs := [];
    for i := 0 to |cols|
      invariant defs == ColumnDefs(cols[..i])
    {
      var def := ColumnDefinition(cols[i]);
      assert ColumnDefs(cols[..i + 1]) == ColumnDefs(cols[..i]) + [ColumnDef(cols[i])];
      defs := defs + [def];
    }
    assert cols[..|cols|] == cols;
    for i := 0 to |fks|
      invariant defs == ColumnDefs(cols) + ForeignKeyDefs(fks[..i])
    {
      var def := ForeignKeyDefinition(fks[i]);
      assert ForeignKeyDefs(fks[..i + 1]) == ForeignKeyDefs(fks[..i]) + [ForeignKeyDef(fks[i])];
      defs := defs + [def];
    }
    assert fks[..|fks|] == fks;
  }

  /** CreateTable.SQL: the definitions joined into the CREATE TABLE
      statement, then the loop over the indexes. */
  method CreateTableSql(name: string, cols: seq<Column>, fks: seq<ForeignKey>, idxs: seq<Index>)
    returns (sql: string)
    ensures sql == CreateTableText(name, cols, fks, idxs)
  {
    var defs := TableDefinitions(cols, fks);
    var table := "CREATE TABLE " + name + " (\n\t" + Join(defs, ",\n\t") + "\n)";
    var indexes: seq<string> := [];
    for i := 0 to |idxs|
      invariant indexes == IndexStatements(name, idxs[..i])
    {
      var idx := idxs[i];
      var idxSql := "CREATE " + (if idx.isUnique then "UNIQUE " else "") + "INDEX " + idx.name
                    + " ON " + name + " (" + Join(idx.columns, ", ") + ")";
      assert IndexStatements(name, idxs[..i + 1]) == IndexStatements(name, idxs[..i]) + [IndexStatement(name, idxs[i])];
      indexes := indexes + [idxSql];
    }
    assert idxs[..|idxs|] == idxs;
    if |indexes| > 0 {
      sql := table + ";\n" + Join(indexes, ";\n");
    } else {
      sql := table;
    }
  }

  /** AddForeignKey.SQL: the constraint, then each action clause appended
      when it is set. */
  method AddForeignKeySql(table: string, fk: ForeignKey) returns (sql: string)
    ensures sql == Render(AddForeignKey(table, fk))
  {
    var base := "ALTER TABLE " + table + " ADD CONSTRAINT " + table + "_" + Join(fk.columns, "_") + "_fk"
                + " FOREIGN KEY (" + Join(fk.columns, ", ") + ") REFERENCES " + fk.refTable
                + " (" + Join(fk.refColumns, ", ") + ")";
    sql := base;
    if fk.onDelete != "" {
      sql := sql + " ON DELETE " + fk.onDelete;
    }
    if fk.onUpdate != "" {
      sql := sql + " ON UPDATE " + fk.onUpdate;
    }
    WithActions(base, fk);
  }

  /** Operation.SQL, dispatched on the operation. */
  method Sql(op: Operation) returns (sql: string)
    ensures sql == Render(op)
  {
    match op
    case CreateTable(name, cols, fks, idxs) =>
      sql := CreateTableSql(name, cols, fks, idxs);
    case AddForeignKey(table, fk) =>
      sql := AddForeignKeySql(table, fk);
    case _ =>
      sql := Render(op);
  }

  // ---------------------------------------------------------------------------
  // properties of the SQL text

  /** IsAuto only matters on a primary key, IsNull only on a column that is
      not one, and MaxLength never reaches the SQL. */
  lemma ColumnDefIgnoredFlags(c: Column, b: bool, n: int)
    ensures !c.isPK ==> ColumnDef(c.(isAuto := b)) == ColumnDef(c)
    ensures c.isPK ==> ColumnDef(c.(isNull := b)) == ColumnDef(c)
    ensures ColumnDef(c.(maxLength := n)) == ColumnDef(c)
  {
  }

  /** ALTER TABLE ... ADD COLUMN writes exactly the definition CREATE TABLE
      would write for a column that is not a primary key, and never writes a
      primary key, whatever the column's flags say. */
  lemma AddColumnDefinition(table: string, c: Column)
    ensures Render(AddColumn(table, c)) == "ALTER TABLE " + table + " ADD COLUMN " + ColumnDef(c.(isPK := false))
    ensures !c.isPK ==> Render(AddColumn(table, c)) == "ALTER TABLE " + table + " ADD COLUMN " + ColumnDef(c)
  {
  }

  /** ModifyColumn only renames: of the new column, only its name is used. */
  lemma ModifyColumnOnlyRenames(table: string, oldCol: string, c1: Column, c2: Column)
    requires c1.name == c2.name
    ensures Render(ModifyColumn(table, oldCol, c1)) == Render(ModifyColumn(table, oldCol, c2))
  {
  }

  /** AddForeignKey names its constraint `<table>_<columns joined by _>_fk`
      and then writes the same FOREIGN KEY clause as a key declared inside
      CREATE TABLE. */
  lemma AddForeignKeyClause(table: string, fk: ForeignKey)
    ensures Render(AddForeignKey(table, fk))
         == "ALTER TABLE " + table + " ADD CONSTRAINT " + table + "_" + Join(fk.columns, "_") + "_fk"
            + " " + ForeignKeyDef(fk)
  {
    var head := "ALTER TABLE " + table + " ADD CONSTRAINT " + table + "_" + Join(fk.columns, "_") + "_fk";
    var cols, refCols := Join(fk.columns, ", "), Join(fk.refColumns, ", ");
    var del := if fk.onDelete != "" then " ON DELETE " + fk.onDelete else "";
    var upd := if fk.onUpdate != "" then " ON UPDATE " + fk.onUpdate else "";
    assert Render(AddForeignKey(table, fk))
        == head + " FOREIGN KEY (" + cols + ") REFERENCES " + fk.refTable + " (" + refCols + ")" + del + upd;
    var clause := "FOREIGN KEY (" + cols + ") REFERENCES " + fk.refTable + " (" + refCols + ")";
    assert ForeignKeyDef(fk) == clause + (del + upd);
    assert " FOREIGN KEY (" == " " + "FOREIGN KEY (";
    Regroup(head, " ", "FOREIGN KEY (", cols, ") REFERENCES ", fk.refTable, " (", refCols, ")", del, upd);
  }

  /** Proof helper: regrouping the text of ADD CONSTRAINT. */
  lemma Regroup(h: string, s: string, f: string, a: string, b: string, c: string, d: string, e: string,
                g: string, k: string, l: string)
    ensures h + (s + f) + a + b + c + d + e + g + k + l == h + s + (f + a + b + c + d + e + g + (k + l))
  {
  }

  /** CreateIndex writes the statement CREATE TABLE appends for an index. */
  lemma CreateIndexStatement(table: string, idx: Index)
    ensures Render(CreateIndex(table, idx)) == IndexStatement(table, idx)
  {
  }

  /** None of the names, types or actions of a CREATE TABLE contain ';'. */
  ghost predicate PlainCreateTable(name: string, cols: seq<Column>, fks: seq<ForeignKey>, idxs: seq<Index>)
  {
    ';' !in name
    && (forall c :: c in cols ==> ';' !in c.name && ';' !in c.sqlType)
    && (forall fk :: fk in fks ==>
          (forall p :: p in fk.columns ==> ';' !in p) && (forall p :: p in fk.refColumns ==> ';' !in p)
          && ';' !in fk.refTable && ';' !in fk.onDelete && ';' !in fk.onUpdate)
    && (forall idx :: idx in idxs ==> ';' !in idx.name && forall p :: p in idx.columns ==> ';' !in p)
  }

  lemma ColumnDefAvoids(c: Column)
    requires ';' !in c.name && ';' !in c.sqlType
    ensures ';' !in ColumnDef(c)
  {
  }

  lemma ForeignKeyDefAvoids(fk: ForeignKey)
    requires forall p :: p in fk.columns ==> ';' !in p
    requires forall p :: p in fk.refColumns ==> ';' !in p
    requires ';' !in fk.refTable && ';' !in fk.onDelete && ';' !in fk.onUpdate
    ensures ';' !in ForeignKeyDef(fk)
  {
    JoinAvoids(fk.columns, ", ", ';');
    JoinAvoids(fk.refColumns, ", ", ';');
  }

  lemma IndexStatementAvoids(table: string, idx: Index)
    requires ';' !in table && ';' !in idx.name
    requires forall p :: p in idx.columns ==> ';' !in p
    ensures ';' !in IndexStatement(table, idx)
  {
    JoinAvoids(idx.columns, ", ", ';');
  }

  /** Joining n statements without ';' by ";\n" puts n - 1 semicolons in. */
  lemma {:induction false} StatementJoinCount(stmts: seq<string>)
    requires |stmts| > 0
    requires forall p :: p in stmts ==> ';' !in p
    ensures Count(Join(stmts, ";\n"), ';') == |stmts| - 1
  {
    CountAbsent(stmts[0], ';');
    if |stmts| > 1 {
      StatementJoinCount(stmts[1..]);
      CountConcat(stmts[0], ";\n", ';');
      CountConcat(stmts[0] + ";\n", Join(stmts[1..], ";\n"), ';');
    }
  }

  /** The SQL of a CREATE TABLE holds one statement per index after the
      table itself: as long as no name contains ';', it has exactly one ';'
      per index, the separators between the statements. */
  lemma CreateTableStatementCount(name: string, cols: seq<Column>, fks: seq<ForeignKey>, idxs: seq<Index>)
    requires PlainCreateTable(name, cols, fks, idxs)
    ensures Count(CreateTableText(name, cols, fks, idxs), ';') == |idxs|
  {
    var table := "CREATE TABLE " + name + " (\n\t" + Join(ColumnDefs(cols) + ForeignKeyDefs(fks), ",\n\t") + "\n)";
    TableDefinitionAvoids(name, cols, fks);
    CountAbsent(table, ';');
    if |idxs| > 0 {
      var stmts := IndexStatements(name, idxs);
      forall p | p in stmts ensures ';' !in p {
        var i :| 0 <= i < |stmts| && stmts[i] == p;
        assert idxs[i] in idxs;
        IndexStatementAvoids(name, idxs[i]);
      }
      StatementJoinCount(stmts);
      CountConcat(table, ";\n", ';');
      CountConcat(table + ";\n", Join(stmts, ";\n"), ';');
    }
  }

  lemma TableDefinitionAvoids(name: string, cols: seq<Column>, fks: seq<ForeignKey>)
    requires PlainCreateTable(name, cols, fks, [])
    ensures ';' !in "CREATE TABLE " + name + " (\n\t" + Join(ColumnDefs(cols) + ForeignKeyDefs(fks), ",\n\t") + "\n)"
  {
    DefinitionsAvoid(cols, fks);
    JoinAvoids(ColumnDefs(cols) + ForeignKeyDefs(fks), ",\n\t", ';');
    TableFrameAvoids();
    AvoidsFive("CREATE TABLE ", name, " (\n\t", Join(ColumnDefs(cols) + ForeignKeyDefs(fks), ",\n\t"), "\n)", ';');
  }

  /** Proof helper: the fixed text of CREATE TABLE holds no ';'. */
  lemma TableFrameAvoids()
    ensures ';' !in "CREATE TABLE " && ';' !in " (\n\t" && ';' !in "\n)"
  {
  }

  /** Proof helper: a character absent from five strings is absent from their concatenation. */
  lemma AvoidsFive(a: string, b: string, d: string, e: string, f: string, c: char)
    requires c !in a && c !in b && c !in d && c !in e && c !in f
    ensures c !in a + b + d + e + f
  {
  }

  lemma DefinitionsAvoid(cols: seq<Column>, fks: seq<ForeignKey>)
    requires PlainCreateTable("", cols, fks, [])
    ensures forall i :: 0 <= i < |cols| + |fks| ==> ';' !in (ColumnDefs(cols) + ForeignKeyDefs(fks))[i]
  {
    forall i | 0 <= i < |cols| ensures ';' !in ColumnDef(cols[i]) {
      assert cols[i] in cols;
      ColumnDefAvoids(cols[i]);
    }
    forall i | 0 <= i < |fks| ensures ';' !in ForeignKeyDef(fks[i]) {
      assert fks[i] in fks;
      ForeignKeyDefAvoids(fks[i]);
    }
  }

  // ---------------------------------------------------------------------------
  // SQL types and model-derived tables

  /** SqlType: the SQLite storage class chosen for a Go kind. */
  function SqlType(k: Model.Kind): (t: string)
    ensures t in {"INTEGER", "REAL", "TEXT", "BLOB"}
    ensures t == "BLOB" <==> k == Model.Slice(Model.Uint8)
    ensures t == "REAL" <==> k.Float32? || k.Float64?
  {
    match k
    case Int | Int8 | Int16 | Int32 | Int64 | Uint | Uint8 | Uint16 | Uint32 | Uint64 => "INTEGER"
    case Float32 | Float64 => "REAL"
    case String => "TEXT"
    case Bool => "INTEGER"
    case Slice(elem) => if elem == Model.Uint8 then "BLOB" else "TEXT"
    case TimeStruct => "INTEGER"
    case _ => "TEXT"
  }

  /** NewMigration, with time.Now() passed in as Unix seconds: the id is the
      second, '_' and the name, and there are no operations yet. */
  function NewMigration(name: string, now: int): (m: Migration)
    ensures m.name == name && m.timestamp == now && m.up == [] && m.down == []
    ensures m.id != "" && |m.id| > |name| && m.id[|m.id| - |name|..] == name
    ensures var prefix := IntToString(now);
      |m.id| == |prefix| + 1 + |name| && m.id[..|prefix|] == prefix && m.id[|prefix|] == '_'
      && m.id[|prefix| + 1..] == name
  {
    Migration(IntToString(now) + "_" + name, now, name, [], [])
  }

  lemma {:induction false} NatToStringLength(n: nat)
    ensures n >= 10 ==> |NatToString(n)| >= 2
  {
  }

  lemma {:induction false} NatToStringInjective(a: nat, b: nat)
    requires NatToString(a) == NatToString(b)
    ensures a == b
  {
    if a >= 10 && b >= 10 {
      var sa, sb := NatToString(a / 10), NatToString(b / 10);
      assert sa + [DigitChar(a % 10)] == sb + [DigitChar(b % 10)];
      assert |sa| == |sb|;
      assert sa == (sa + [DigitChar(a % 10)])[..|sa|];
      assert sb == (sb + [DigitChar(b % 10)])[..|sb|];
      NatToStringInjective(a / 10, b / 10);
      assert DigitChar(a % 10) == DigitChar(b % 10);
    } else if a >= 10 {
      NatToStringLength(a);
    } else if b >= 10 {
      NatToStringLength(b);
    } else {
      assert DigitChar(a) == NatToString(a)[0];
    }
  }

  lemma IntToStringInjective(a: int, b: int)
    requires IntToString(a) == IntToString(b)
    ensures a == b
  {
    if a < 0 && b < 0 {
      assert NatToString(-a) == IntToString(a)[1..];
      assert NatToString(-b) == IntToString(b)[1..];
      NatToStringInjective(-a, -b);
    } else if a >= 0 && b >= 0 {
      NatToStringInjective(a, b);
    }
  }

  lemma IntToStringNoUnderscore(n: int)
    ensures '_' !in IntToString(n)
  {
    var s := NatToString(if n < 0 then -n else n);
    assert forall i :: 0 <= i < |s| ==> s[i] != '_';
  }

  lemma SeparatedPrefix(p1: string, a: string, p2: string, b: string, c: char)
    requires c !in p1 && c !in p2
    requires p1 + [c] + a == p2 + [c] + b
    ensures p1 == p2 && a == b
  {
    var x := p1 + [c] + a;
    assert x[|p1|] == c && x[|p2|] == c;
    assert forall i :: 0 <= i < |p1| ==> x[i] == p1[i];
    assert forall i :: 0 <= i < |p2| ==> x[i] == p2[i];
    assert p1 == x[..|p1|] && p2 == x[..|p2|];
    assert a == x[|p1| + 1..] && b == x[|p2| + 1..];
  }

  /** Migration ids determine the second and the name they were created
      with: two NewMigration calls give the same id only when both agree. */
  lemma NewMigrationIdsDistinct(name1: string, now1: int, name2: string, now2: int)
    ensures NewMigration(name1, now1).id == NewMigration(name2, now2).id <==> name1 == name2 && now1 == now2
  {
    var p1, p2 := IntToString(now1), IntToString(now2);
    if p1 + "_" + name1 == p2 + "_" + name2 {
      IntToStringNoUnderscore(now1);
      IntToStringNoUnderscore(now2);
      SeparatedPrefix(p1, name1, p2, name2, '_');
      IntToStringInjective(now1, now2);
    }
  }

  /** The column CreateTableFromModel makes of a field. */
  function ColumnOf(f: Model.Field): Column
  {
    Column(f.dbName, SqlType(f.kind), f.isPK, f.isAuto, f.isNull, 0)
  }

  function TableFromMetadata(md: Model.Metadata): (op: Operation)
    ensures op.CreateTable? && op.name == md.tableName && |op.columns| == |md.fields|
    ensures op.foreignKeys == [] && op.indexes == []
    ensures forall i :: 0 <= i < |md.fields| ==>
      && op.columns[i].name == md.fields[i].dbName
      && op.columns[i].sqlType == SqlType(md.fields[i].kind)
      && op.columns[i].isPK == md.fields[i].isPK
      && op.columns[i].isAuto == md.fields[i].isAuto
      && op.columns[i].isNull == md.fields[i].isNull
      && op.columns[i].maxLength == 0
  {
    CreateTable(md.tableName, seq(|md.fields|, i requires 0 <= i < |md.fields| => ColumnOf(md.fields[i])), [], [])
  }

  function TableFromModel(m: Model.Input): Result<Operation, Model.Error>
  {
    match Model.ExtractSpec(m)
    case Failure(e) => Failure(e)
    case Success(md) => Success(TableFromMetadata(md))
  }

  /** CreateTableFromModel: the metadata's error, or one column per field,
      in field order, with no foreign keys and no indexes. */
  method CreateTableFromModel(m: Model.Input) returns (r: Result<Operation, Model.Error>)
    ensures r == TableFromModel(m)
    ensures r.Failure? <==> Model.ExtractSpec(m).Failure?
  {
    var md := Model.ExtractMetadata(m);
    if md.Failure? {
      return Failure(md.error);
    }
    var fields := md.value.fields;
    var columns: seq<Column> := [];
    for i := 0 to |fields|
      invariant columns == seq(i, k requires 0 <= k < i => ColumnOf(fields[k]))
    {
      var f := fields[i];
      columns := columns + [Column(f.dbName, SqlType(f.kind), f.isPK, f.isAuto, f.isNull, 0)];
    }
    assert columns == TableFromMetadata(md.value).columns;
    return Success(CreateTable(md.value.tableName, columns, [], []));
  }

  // ---------------------------------------------------------------------------
  // the expected outputs of migration/migration_test.go

  /** Proof helper: the table built from TestUser's metadata. */
  lemma TableFromTestUserMetadata(fields: seq<Model.Field>)
    requires fields == [Model.Field("ID", "id", Model.Int, true, true, false, 0, false),
                        Model.Field("Name", "name", Model.String, false, false, false, 0, false),
                        Model.Field("Email", "email", Model.String, false, false, true, 0, false),
                        Model.Field("Age", "age", Model.Int, false, false, false, 0, false),
                        Model.Field("CreatedAt", "created_at", Model.TimeStruct, false, false, false, 0, false)]
    ensures TableFromMetadata(Model.Metadata("test_user", fields)).columns
         == [Column("id", "INTEGER", true, true, false, 0),
             Column("name", "TEXT", false, false, false, 0),
             Column("email", "TEXT", false, false, true, 0),
             Column("age", "INTEGER", false, false, false, 0),
             Column("created_at", "INTEGER", false, false, false, 0)]
  {
    var cols := TableFromMetadata(Model.Metadata("test_user", fields)).columns;
    assert SqlType(Model.Int) == "INTEGER" && SqlType(Model.String) == "TEXT" && SqlType(Model.TimeStruct) == "INTEGER";
    assert |cols| == 5;
    assert cols[0] == ColumnOf(fields[0]) && cols[1] == ColumnOf(fields[1]) && cols[2] == ColumnOf(fields[2]);
    assert cols[3] == ColumnOf(fields[3]) && cols[4] == ColumnOf(fields[4]);
  }

  /** TestCreateTableFromModel: TestUser becomes table `test_user` with these columns. */
  lemma TableFromMigrationTestUser()
    ensures TableFromModel(Model.MigrationTestUser())
         == Success(CreateTable("test_user",
              [Column("id", "INTEGER", true, true, false, 0),
               Column("name", "TEXT", false, false, false, 0),
               Column("email", "TEXT", false, false, true, 0),
               Column("age", "INTEGER", false, false, false, 0),
               Column("created_at", "INTEGER", false, false, false, 0)], [], []))
  {
    Model.ExtractMigrationTestUser();
    TableFromTestUserMetadata(Model.ExtractSpec(Model.MigrationTestUser()).value.fields);
  }

  /** The three column definitions of TestOperationSQL's users table. */
  lemma GoldenUsersColumnDefs()
    ensures ColumnDef(Column("id", "INTEGER", true, true, false, 0)) == "id INTEGER PRIMARY KEY AUTOINCREMENT"
    ensures ColumnDef(Column("name", "TEXT", false, false, false, 0)) == "name TEXT NOT NULL"
    ensures ColumnDef(Column("email", "TEXT", false, false, true, 0)) == "email TEXT"
  {
    assert "id" + " " + "INTEGER" == "id INTEGER";
    assert "id INTEGER" + " PRIMARY KEY AUTOINCREMENT" == "id INTEGER PRIMARY KEY AUTOINCREMENT";
    assert "name" + " " + "TEXT" == "name TEXT";
    assert "name TEXT" + " NOT NULL" == "name TEXT NOT NULL";
    assert "email" + " " + "TEXT" == "email TEXT";
  }

  /** Proof helper: CREATE TABLE for three columns and nothing else. */
  lemma CreateTableThree(name: string, cols: seq<Column>)
    requires |cols| == 3
    ensures Render(CreateTable(name, cols, [], []))
         == "CREATE TABLE " + name + " (\n\t"
            + (ColumnDef(cols[0]) + ",\n\t" + ColumnDef(cols[1]) + ",\n\t" + ColumnDef(cols[2])) + "\n)"
  {
    var defs := ColumnDefs(cols) + ForeignKeyDefs([]);
    assert defs == [ColumnDef(cols[0]), ColumnDef(cols[1]), ColumnDef(cols[2])];
    JoinThree(defs[0], defs[1], defs[2], ",\n\t");
  }

  /** TestOperationSQL, "create table": the expected text, written here split
      at its ",\n\t" separators. */
  lemma GoldenCreateTable()
    ensures Render(CreateTable("users", [Column("id", "INTEGER", true, true, false, 0),
                                         Column("name", "TEXT", false, false, false, 0),
                                         Column("email", "TEXT", false, false, true, 0)], [], []))
         == "CREATE TABLE users (\n\t"
            + ("id INTEGER PRIMARY KEY AUTOINCREMENT" + ",\n\t" + "name TEXT NOT NULL" + ",\n\t" + "email TEXT")
            + "\n)"
  {
    var c0, c1, c2 := Column("id", "INTEGER", true, true, false, 0), Column("name", "TEXT", false, false, false, 0),
                      Column("email", "TEXT", false, false, true, 0);
    CreateTableThree("users", [c0, c1, c2]);
    GoldenUsersColumnDefs();
    assert "CREATE TABLE " + "users" + " (\n\t" == "CREATE TABLE users (\n\t";
  }

  /** TestOperationSQL, "drop table". */
  lemma GoldenDropTable()
    ensures Render(DropTable("users")) == "DROP TABLE users"
  {
  }

  /** TestOperationSQL, "add column": a non-null column gets NOT NULL. */
  lemma GoldenAddColumn()
    ensures Render(AddColumn("users", Column("age", "INTEGER", false, false, false, 0)))
         == "ALTER TABLE users ADD COLUMN age INTEGER NOT NULL"
  {
  }

  /** TestOperationSQL, "drop column". */
  lemma GoldenDropColumn()
    ensures Render(DropColumn("users", "age")) == "ALTER TABLE users DROP COLUMN age"
  {
  }

  /** TestOperationSQL, "modify column": only the rename is emitted. */
  lemma GoldenModifyColumn()
    ensures Render(ModifyColumn("users", "name", Column("full_name", "TEXT", false, false, false, 0)))
         == "ALTER TABLE users RENAME COLUMN name TO full_name"
  {
  }
}
