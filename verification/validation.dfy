/** The checks the migrator makes before running a migration's operations
    (validateSQLType and validateOperation in migration/migrator.go). */
module Validation {
  import opened Wrappers
  import opened Strings
  import opened Migration

  /** The SQLite storage classes a column may be declared with. */
  const ValidTypes: set<string> := {"INTEGER", "TEXT", "REAL", "BLOB"}

  /** validateSQLType: a type is accepted when its upper-case form is one of
      the storage classes. */
  predicate ValidSqlType(t: string)
  {
    ToUpper(t) in ValidTypes
  }

  /** The type of the first column whose type is rejected, if any. */
  function FirstInvalidType(cols: seq<Column>): (r: Option<string>)
    ensures r.None? <==> forall i :: 0 <= i < |cols| ==> ValidSqlType(cols[i].sqlType)
    ensures r.Some? ==> exists k :: 0 <= k < |cols| && r.value == cols[k].sqlType && !ValidSqlType(cols[k].sqlType)
                                    && forall j :: 0 <= j < k ==> ValidSqlType(cols[j].sqlType)
  {
    if |cols| == 0 then None
    else if !ValidSqlType(cols[0].sqlType) then Some(cols[0].sqlType)
    else
      var rest := FirstInvalidType(cols[1..]);
      assert forall i :: 1 <= i < |cols| ==> cols[i] == cols[1..][i - 1];
      rest
  }

  /** validateOperation's verdict: the rejected type, or None. Only the
      column types of CreateTable and AddColumn are checked. */
  function OperationError(op: Operation): (r: Option<string>)
    ensures !op.CreateTable? && !op.AddColumn? ==> r.None?
    ensures op.AddColumn? ==> (r.None? <==> ValidSqlType(op.column.sqlType))
    ensures op.CreateTable? ==> (r.None? <==> forall i :: 0 <= i < |op.columns| ==> ValidSqlType(op.columns[i].sqlType))
  {
    match op
    case CreateTable(_, cols, _, _) => FirstInvalidType(cols)
    case AddColumn(_, c) => if ValidSqlType(c.sqlType) then None else Some(c.sqlType)
    case _ => None
  }

  /** validateOperation: the loop over a CreateTable's columns, returning at
      the first rejected type. */
  method ValidateOperation(op: Operation) returns (err: Option<string>)
    ensures err == OperationError(op)
  {
    match op
    case CreateTable(_, cols, _, _) =>
      for i := 0 to |cols|
        invariant FirstInvalidType(cols) == FirstInvalidType(cols[i..])
      {
        assert cols[i..][1..] == cols[i + 1..];
        if !ValidSqlType(cols[i].sqlType) {
          return Some(cols[i].sqlType);
        }
      }
      return None;
    case AddColumn(_, c) =>
      if !ValidSqlType(c.sqlType) {
        return Some(c.sqlType);
      }
      return None;
    case _ =>
      return None;
  }

  /** The first operation of a list that validateOperation rejects, with the
      rejected type: the loop UpWithBatch runs before executing a migration. */
  function FirstInvalidOperation(ops: seq<Operation>): (r: Option<string>)
    ensures r.None? <==> forall i :: 0 <= i < |ops| ==> OperationError(ops[i]).None?
    ensures r.Some? ==> exists k :: 0 <= k < |ops| && OperationError(ops[k]) == r
                                    && forall j :: 0 <= j < k ==> OperationError(ops[j]).None?
  {
    if |ops| == 0 then None
    else if OperationError(ops[0]).Some? then OperationError(ops[0])
    else
      var rest := FirstInvalidOperation(ops[1..]);
      assert forall i :: 1 <= i < |ops| ==> ops[i] == ops[1..][i - 1];
      rest
  }

  method ValidateOperations(ops: seq<Operation>) returns (err: Option<string>)
    ensures err == FirstInvalidOperation(ops)
  {
    for i := 0 to |ops|
      invariant FirstInvalidOperation(ops) == FirstInvalidOperation(ops[i..])
    {
      assert ops[i..][1..] == ops[i + 1..];
      var e := ValidateOperation(ops[i]);
      if e.Some? {
        return e;
      }
    }
    return None;
  }

  // ---------------------------------------------------------------------------
  // properties

  lemma ToUpperToLower(t: string)
    ensures ToUpper(ToLower(t)) == ToUpper(t)
  {
    forall i | 0 <= i < |t| ensures ToUpperChar(ToLowerChar(t[i])) == ToUpperChar(t[i]) {
    }
  }

  lemma ToUpperIdempotent(t: string)
    ensures ToUpper(ToUpper(t)) == ToUpper(t)
  {
    forall i | 0 <= i < |t| ensures ToUpperChar(ToUpperChar(t[i])) == ToUpperChar(t[i]) {
    }
  }

  /** The check ignores case: a type is accepted exactly when its lower-case
      and its upper-case spellings are. */
  lemma ValidSqlTypeIgnoresCase(t: string)
    ensures ValidSqlType(ToLower(t)) <==> ValidSqlType(t)
    ensures ValidSqlType(ToUpper(t)) <==> ValidSqlType(t)
  {
    ToUpperToLower(t);
    ToUpperIdempotent(t);
  }

  /** Proof helper: the storage classes are written in upper case. */
  lemma StorageClassesUpper()
    ensures ToUpper("INTEGER") == "INTEGER" && ToUpper("TEXT") == "TEXT"
    ensures ToUpper("REAL") == "REAL" && ToUpper("BLOB") == "BLOB"
  {
  }

  /** Every type SqlType chooses is accepted by the check. */
  lemma SqlTypeValid(k: Model.Kind)
    ensures ValidSqlType(SqlType(k))
  {
    StorageClassesUpper();
  }

  /** A table derived from a model always passes validation. */
  lemma TableFromModelValid(m: Model.Input)
    requires TableFromModel(m).Success?
    ensures OperationError(TableFromModel(m).value).None?
  {
    var op := TableFromModel(m).value;
    forall i | 0 <= i < |op.columns| ensures ValidSqlType(op.columns[i].sqlType) {
      var md := Model.ExtractSpec(m).value;
      assert op.columns[i] == ColumnOf(md.fields[i]);
      SqlTypeValid(md.fields[i].kind);
    }
  }

  /** NULL is not accepted as a column type, although SQLite has it as a
      storage class. */
  lemma NullTypeRejected()
    ensures !ValidSqlType("NULL") && !ValidSqlType("null")
  {
    assert ToUpper("NULL") == "NULL";
    assert ToUpper("null") == "NULL";
  }
}
