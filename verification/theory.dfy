/** The statements the DB type of theory.go writes for Create, Update and
    Delete (buildInsertQuery, buildUpdateQuery, buildDeleteQuery), and
    toFieldName, which maps a result column back to a struct field name.
    The model's field values, which the source reads by reflection, are
    given as a function from Go field name to value. */
module Theory {
  import opened Wrappers
  import opened Strings
  import opened Values
  import opened Model

  /** The values of a model's fields, by Go field name. */
  type Row = string -> Value

  /** Every field except an auto-increment primary key is inserted. */
  predicate Inserted(f: Field)
  {
    !(f.isPK && f.isAuto)
  }

  /** Every field except a primary key is assigned by an update. */
  predicate Assigned(f: Field)
  {
    !f.isPK
  }

  function Columns(fields: seq<Field>): (r: seq<string>)
    ensures |r| == |fields|
  {
    seq(|fields|, i requires 0 <= i < |fields| => fields[i].dbName)
  }

  function FieldValues(fields: seq<Field>, row: Row): (r: seq<Value>)
    ensures |r| == |fields|
  {
    seq(|fields|, i requires 0 <= i < |fields| => row(fields[i].name))
  }

  /** n bind markers. */
  function Placeholders(n: nat): (r: seq<string>)
    ensures |r| == n
  {
    seq(n, _ => "?")
  }

  lemma ColumnsSnoc(fields: seq<Field>, f: Field, row: Row)
    ensures Columns(fields + [f]) == Columns(fields) + [f.dbName]
    ensures FieldValues(fields + [f], row) == FieldValues(fields, row) + [row(f.name)]
  {
  }

  // ---------------------------------------------------------------------------
  // INSERT

  /** The fields an INSERT writes: exactly the fields that are not an
      auto-increment primary key, in their order. */
  function InsertedFields(fields: seq<Field>): (r: seq<Field>)
    ensures forall f :: f in r <==> f in fields && !(f.isPK && f.isAuto)
    ensures (forall i :: 0 <= i < |fields| ==> !(fields[i].isPK && fields[i].isAuto)) ==> r == fields
  {
    if |fields| == 0 then []
    else
      var init, last := fields[..|fields| - 1], fields[|fields| - 1];
      assert fields == init + [last];
      assert forall i :: 0 <= i < |init| ==> init[i] == fields[i];
      InsertedFields(init) + (if Inserted(last) then [last] else [])
  }

  lemma InsertedPrefix(fields: seq<Field>, i: nat)
    requires i < |fields|
    ensures InsertedFields(fields[..i + 1])
         == InsertedFields(fields[..i]) + (if Inserted(fields[i]) then [fields[i]] else [])
  {
    assert fields[..i + 1][..i] == fields[..i];
  }

  function InsertText(md: Metadata): string
  {
    var columns := Columns(InsertedFields(md.fields));
    "INSERT INTO " + md.tableName + " (" + Join(columns, ", ") + ") VALUES ("
      + Join(Placeholders(|columns|), ", ") + ")"
  }

  function InsertArgs(md: Metadata, row: Row): seq<Value>
  {
    FieldValues(InsertedFields(md.fields), row)
  }

  /** buildInsertQuery's loop: one column, one marker and one argument per
      inserted field. */
  method InsertLists(fields: seq<Field>, row: Row)
    returns (columns: seq<string>, placeholders: seq<string>, args: seq<Value>)
    ensures columns == Columns(InsertedFields(fields))
    ensures placeholders == Placeholders(|columns|)
    ensures args == FieldValues(InsertedFields(fields), row)
  {
    columns, placeholders, args := [], [], [];
    for i := 0 to |fields|
      invariant columns == Columns(InsertedFields(fields[..i]))
      invariant placeholders == Placeholders(|columns|)
      invariant args == FieldValues(InsertedFields(fields[..i]), row)
    {
      var field := fields[i];
      InsertedPrefix(fields, i);
      ColumnsSnoc(InsertedFields(fields[..i]), field, row);
      if field.isPK && field.isAuto {
        continue;
      }
      columns := columns + [field.dbName];
      placeholders := placeholders + ["?"];
      args := args + [row(field.name)];
    }
    assert fields[..|fields|] == fields;
  }

  /** buildInsertQuery: the lists of its loop, formatted into the statement. */
  method BuildInsertQuery(md: Metadata, row: Row) returns (query: string, args: seq<Value>)
    ensures query == InsertText(md) && args == InsertArgs(md, row)
  {
    var columns, placeholders;
    columns, placeholders, args := InsertLists(md.fields, row);
    query := "INSERT INTO " + md.tableName + " (" + Join(columns, ", ") + ") VALUES ("
      + Join(placeholders, ", ") + ")";
  }

  // ---------------------------------------------------------------------------
  // UPDATE and DELETE

  /** The WHERE clause on the first primary key, empty without one. */
  function WhereClause(fields: seq<Field>): string
  {
    match FirstPK(fields)
    case Some(pk) => "WHERE " + pk.dbName + " = ?"
    case None => ""
  }

  /** The argument bound to the WHERE clause's marker. */
  function KeyArgs(fields: seq<Field>, row: Row): seq<Value>
  {
    match FirstPK(fields)
    case Some(pk) => [row(pk.name)]
    case None => []
  }

  /** The fields an UPDATE assigns: exactly the fields that are not a
      primary key, in their order. */
  function AssignedFields(fields: seq<Field>): (r: seq<Field>)
    ensures forall f :: f in r <==> f in fields && !f.isPK
    ensures (forall i :: 0 <= i < |fields| ==> !fields[i].isPK) ==> r == fields
  {
    if |fields| == 0 then []
    else
      var init, last := fields[..|fields| - 1], fields[|fields| - 1];
      assert fields == init + [last];
      assert forall i :: 0 <= i < |init| ==> init[i] == fields[i];
      AssignedFields(init) + (if Assigned(last) then [last] else [])
  }

  lemma AssignedPrefix(fields: seq<Field>, i: nat)
    requires i < |fields|
    ensures AssignedFields(fields[..i + 1])
         == AssignedFields(fields[..i]) + (if Assigned(fields[i]) then [fields[i]] else [])
  {
    assert fields[..i + 1][..i] == fields[..i];
  }

  function Assignments(fields: seq<Field>): (r: seq<string>)
    ensures |r| == |fields|
  {
    seq(|fields|, i requires 0 <= i < |fields| => fields[i].dbName + " = ?")
  }

  function UpdateText(md: Metadata): string
  {
    "UPDATE " + md.tableName + " SET " + Join(Assignments(AssignedFields(md.fields)), ", ")
      + " " + WhereClause(md.fields)
  }

  function UpdateArgs(md: Metadata, row: Row): seq<Value>
  {
    FieldValues(AssignedFields(md.fields), row) + KeyArgs(md.fields, row)
  }

  lemma AssignmentsSnoc(fields: seq<Field>, f: Field)
    ensures Assignments(fields + [f]) == Assignments(fields) + [f.dbName + " = ?"]
  {
  }

  /** The WHERE clause and its argument, through Metadata.PrimaryKey. */
  method KeyCondition(md: Metadata, row: Row) returns (whereClause: string, keyArgs: seq<Value>)
    ensures whereClause == WhereClause(md.fields) && keyArgs == KeyArgs(md.fields, row)
  {
    var pk := PrimaryKey(md);
    whereClause, keyArgs := "", [];
    if pk.Some? {
      whereClause := "WHERE " + pk.value.dbName + " = ?";
      keyArgs := [row(pk.value.name)];
    }
  }

  /** buildUpdateQuery's loop: one assignment and one argument per field
      that is not a primary key. */
  method AssignmentLists(fields: seq<Field>, row: Row) returns (setColumns: seq<string>, args: seq<Value>)
    ensures setColumns == Assignments(AssignedFields(fields))
    ensures args == FieldValues(AssignedFields(fields), row)
  {
    setColumns, args := [], [];
    for i := 0 to |fields|
      invariant setColumns == Assignments(AssignedFields(fields[..i]))
      invariant args == FieldValues(AssignedFields(fields[..i]), row)
    {
      var field := fields[i];
      AssignedPrefix(fields, i);
      ColumnsSnoc(AssignedFields(fields[..i]), field, row);
      AssignmentsSnoc(AssignedFields(fields[..i]), field);
      if field.isPK {
        continue;
      }
      setColumns := setColumns + [field.dbName + " = ?"];
      args := args + [row(field.name)];
    }
    assert fields[..|fields|] == fields;
  }

  /** buildUpdateQuery: the assignments, then the key condition. */
  method BuildUpdateQuery(md: Metadata, row: Row) returns (query: string, args: seq<Value>)
    ensures query == UpdateText(md) && args == UpdateArgs(md, row)
  {
    var setColumns;
    setColumns, args := AssignmentLists(md.fields, row);
    var whereClause, keyArgs := KeyCondition(md, row);
    args := args + keyArgs;
    query := "UPDATE " + md.tableName + " SET " + Join(setColumns, ", ") + " " + whereClause;
  }

  function DeleteText(md: Metadata): string
  {
    "DELETE FROM " + md.tableName + " " + WhereClause(md.fields)
  }

  /** buildDeleteQuery: the key condition alone. */
  method BuildDeleteQuery(md: Metadata, row: Row) returns (query: string, args: seq<Value>)
    ensures query == DeleteText(md) && args == KeyArgs(md.fields, row)
  {
    var whereClause;
    whereClause, args := KeyCondition(md, row);
    query := "DELETE FROM " + md.tableName + " " + whereClause;
  }

  // ---------------------------------------------------------------------------
  // markers and arguments

  /** No table or column name contains a bind marker. */
  predicate MarkerFree(md: Metadata)
  {
    '?' !in md.tableName && forall i :: 0 <= i < |md.fields| ==> '?' !in md.fields[i].dbName
  }

  lemma {:induction false} CountAllOnce(parts: seq<string>, c: char)
    requires forall i :: 0 <= i < |parts| ==> Count(parts[i], c) == 1
    ensures CountAll(parts, c) == |parts|
  {
    if |parts| > 0 {
      CountAllOnce(parts[1..], c);
    }
  }

  lemma CountFour(a: string, b: string, d: string, e: string, c: char)
    ensures Count(a + b + d + e, c) == Count(a, c) + Count(b, c) + Count(d, c) + Count(e, c)
  {
    CountConcat(a, b, c);
    CountConcat(a + b, d, c);
    CountConcat(a + b + d, e, c);
  }

  /** The markers of a text made of seven pieces are those of its sixth
      when the others have none. */
  lemma CountSeven(a: string, b: string, d: string, e: string, f: string, g: string, h: string, c: char)
    requires Count(a, c) == Count(b, c) == Count(d, c) == Count(e, c) == Count(f, c) == Count(h, c) == 0
    ensures Count(a + b + d + e + f + g + h, c) == Count(g, c)
  {
    CountFour(a, b, d, e, c);
    CountConcat(a + b + d + e, f, c);
    CountConcat(a + b + d + e + f, g, c);
    CountConcat(a + b + d + e + f + g, h, c);
  }

  /** The markers of a text made of six pieces are those of its fourth
      and sixth when the others have none. */
  lemma CountSix(a: string, b: string, d: string, e: string, f: string, g: string, c: char)
    requires Count(a, c) == Count(b, c) == Count(d, c) == Count(f, c) == 0
    ensures Count(a + b + d + e + f + g, c) == Count(e, c) + Count(g, c)
  {
    CountFour(a, b, d, e, c);
    CountConcat(a + b + d + e, f, c);
    CountConcat(a + b + d + e + f, g, c);
  }

  /** Names without markers, joined by ", ", contain no marker. */
  lemma NamesMarkerFree(md: Metadata, fields: seq<Field>)
    requires MarkerFree(md)
    requires forall f :: f in fields ==> f in md.fields
    ensures Count(Join(Columns(fields), ", "), '?') == 0
  {
    forall i | 0 <= i < |fields| ensures '?' !in Columns(fields)[i] {
      assert fields[i] in md.fields;
    }
    JoinAvoids(Columns(fields), ", ", '?');
    CountAbsent(Join(Columns(fields), ", "), '?');
  }

  /** The WHERE clause has one marker exactly when there is a key argument. */
  lemma WhereMarkers(md: Metadata, row: Row)
    requires MarkerFree(md)
    ensures Count(WhereClause(md.fields), '?') == |KeyArgs(md.fields, row)|
  {
    match FirstPK(md.fields)
    case Some(pk) =>
      CountAbsent(pk.dbName, '?');
      CountAbsent("WHERE ", '?');
      CountConcat("WHERE ", pk.dbName, '?');
      CountConcat("WHERE " + pk.dbName, " = ?", '?');
    case None =>
  }

  /** The INSERT text over marker-free names has one marker per column. */
  lemma InsertTextMarkers(table: string, columns: seq<string>)
    requires '?' !in table
    requires forall i :: 0 <= i < |columns| ==> '?' !in columns[i]
    ensures Count("INSERT INTO " + table + " (" + Join(columns, ", ") + ") VALUES ("
                  + Join(Placeholders(|columns|), ", ") + ")", '?') == |columns|
  {
    var marks := Placeholders(|columns|);
    ListMarkers(columns);
    CountAbsent(table, '?');
    InsertIntoUnmarked();
    OpenUnmarked();
    ValuesUnmarked();
    CloseUnmarked();
    CountSeven("INSERT INTO ", table, " (", Join(columns, ", "), ") VALUES (", Join(marks, ", "), ")", '?');
  }

  lemma InsertIntoUnmarked() ensures Count("INSERT INTO ", '?') == 0 { CountAbsent("INSERT INTO ", '?'); }
  lemma OpenUnmarked() ensures Count(" (", '?') == 0 { CountAbsent(" (", '?'); }
  lemma ValuesUnmarked() ensures Count(") VALUES (", '?') == 0 { CountAbsent(") VALUES (", '?'); }
  lemma CloseUnmarked() ensures Count(")", '?') == 0 { }

  /** The column list has no marker and the marker list one per column. */
  lemma ListMarkers(columns: seq<string>)
    requires forall i :: 0 <= i < |columns| ==> '?' !in columns[i]
    ensures Count(Join(columns, ", "), '?') == 0
    ensures Count(Join(Placeholders(|columns|), ", "), '?') == |columns|
  {
    var marks := Placeholders(|columns|);
    JoinAvoids(columns, ", ", '?');
    CountAbsent(Join(columns, ", "), '?');
    CountJoin(marks, ", ", '?');
    CountAllOnce(marks, '?');
  }

  /** An INSERT has one marker per argument, and one argument per column. */
  lemma InsertBalanced(md: Metadata, row: Row)
    requires MarkerFree(md)
    ensures Count(InsertText(md), '?') == |InsertArgs(md, row)| == |InsertedFields(md.fields)|
  {
    var fields := InsertedFields(md.fields);
    forall i | 0 <= i < |fields| ensures '?' !in Columns(fields)[i] {
      assert fields[i] in md.fields;
    }
    InsertTextMarkers(md.tableName, Columns(fields));
  }

  /** Each assignment of marker-free column names has one marker. */
  lemma AssignmentMarkers(fields: seq<Field>)
    requires forall i :: 0 <= i < |fields| ==> '?' !in fields[i].dbName
    ensures Count(Join(Assignments(fields), ", "), '?') == |fields|
  {
    var sets := Assignments(fields);
    forall i | 0 <= i < |sets| ensures Count(sets[i], '?') == 1 {
      CountAbsent(fields[i].dbName, '?');
      CountConcat(fields[i].dbName, " = ?", '?');
    }
    CountJoin(sets, ", ", '?');
    CountAllOnce(sets, '?');
  }

  lemma UpdateUnmarked() ensures Count("UPDATE ", '?') == 0 { CountAbsent("UPDATE ", '?'); }
  lemma SetUnmarked() ensures Count(" SET ", '?') == 0 { CountAbsent(" SET ", '?'); }
  lemma SpaceUnmarked() ensures Count(" ", '?') == 0 { }

  /** An UPDATE has one marker per argument: one per assigned field and one
      for the key. */
  lemma UpdateBalanced(md: Metadata, row: Row)
    requires MarkerFree(md)
    ensures Count(UpdateText(md), '?') == |UpdateArgs(md, row)|
  {
    var fields := AssignedFields(md.fields);
    forall i | 0 <= i < |fields| ensures '?' !in fields[i].dbName {
      assert fields[i] in md.fields;
    }
    AssignmentMarkers(fields);
    WhereMarkers(md, row);
    CountAbsent(md.tableName, '?');
    UpdateUnmarked();
    SetUnmarked();
    SpaceUnmarked();
    CountSix("UPDATE ", md.tableName, " SET ", Join(Assignments(fields), ", "), " ", WhereClause(md.fields), '?');
  }

  /** A DELETE has a marker exactly when it has the key argument. */
  lemma DeleteBalanced(md: Metadata, row: Row)
    requires MarkerFree(md)
    ensures Count(DeleteText(md), '?') == |KeyArgs(md.fields, row)|
  {
    WhereMarkers(md, row);
    CountAbsent(md.tableName, '?');
    CountAbsent("DELETE FROM ", '?');
    CountFour("DELETE FROM ", md.tableName, " ", WhereClause(md.fields), '?');
  }

  /** Without a primary key an UPDATE has no condition and assigns every
      field, and a DELETE has no condition: both reach every row. */
  lemma NoKeyNoCondition(md: Metadata, row: Row)
    requires FirstPK(md.fields).None?
    ensures UpdateText(md) == "UPDATE " + md.tableName + " SET " + Join(Assignments(md.fields), ", ") + " "
    ensures UpdateArgs(md, row) == FieldValues(md.fields, row)
    ensures DeleteText(md) == "DELETE FROM " + md.tableName + " " && KeyArgs(md.fields, row) == []
  {
    assert UpdateText(md) == "UPDATE " + md.tableName + " SET " + Join(Assignments(md.fields), ", ") + " " + "";
    assert DeleteText(md) == "DELETE FROM " + md.tableName + " " + "";
  }

  /** With a primary key, the last argument of an UPDATE and the only
      argument of a DELETE are the key's value. */
  lemma KeyBoundLast(md: Metadata, row: Row)
    requires FirstPK(md.fields).Some?
    ensures var args := UpdateArgs(md, row);
      |args| > 0 && args[|args| - 1] == row(FirstPK(md.fields).value.name)
    ensures KeyArgs(md.fields, row) == [row(FirstPK(md.fields).value.name)]
  {
  }

  // ---------------------------------------------------------------------------
  // toFieldName

  function TitleAll(parts: seq<string>): (r: seq<string>)
    ensures |r| == |parts|
  {
    seq(|parts|, i requires 0 <= i < |parts| => Title(parts[i]))
  }

  /** toFieldName as a function of the column name: the '_'-separated
      parts, each title-cased, concatenated. */
  function FieldName(column: string): string
  {
    Join(TitleAll(Split(column, '_')), "")
  }

  /** toFieldName: title-cases the parts in place, then joins them. */
  method ToFieldName(column: string) returns (name: string)
    ensures name == FieldName(column)
  {
    var parts := Split(column, '_');
    ghost var original := parts;
    for i := 0 to |parts|
      invariant |parts| == |original|
      invariant forall j :: 0 <= j < i ==> parts[j] == Title(original[j])
      invariant forall j :: i <= j < |parts| ==> parts[j] == original[j]
    {
      parts := parts[i := Title(parts[i])];
    }
    assert parts == TitleAll(original);
    name := Join(parts, "");
  }

  /** Title keeps a character that follows a letter or digit. */
  lemma TitleSnoc(p: string, x: char)
    requires |p| > 0 && IsAlnumChar(p[|p| - 1])
    ensures Title(p + [x]) == Title(p) + [x]
  {
    assert (p + [x])[..|p|] == p;
  }

  lemma TitleAllExtendLast(parts: seq<string>, x: char)
    requires EndsInAlnum(parts)
    ensures TitleAll(ExtendLast(parts, x)) == ExtendLast(TitleAll(parts), x)
  {
    TitleSnoc(parts[|parts| - 1], x);
  }

  lemma {:induction false} JoinExtendLast(parts: seq<string>, x: char)
    requires |parts| >= 1
    ensures Join(ExtendLast(parts, x), "") == Join(parts, "") + [x]
  {
    var init, last := parts[..|parts| - 1], parts[|parts| - 1];
    if |parts| == 1 {
      assert ExtendLast(parts, x) == [last + [x]];
    } else {
      assert parts == init + [last];
      JoinAppend(init, "", last);
      JoinAppend(init, "", last + [x]);
    }
  }

  /** The last part is non-empty and ends in a letter or digit. */
  predicate EndsInAlnum(parts: seq<string>)
  {
    |parts| >= 1 && |parts[|parts| - 1]| > 0
    && IsAlnumChar(parts[|parts| - 1][|parts[|parts| - 1]| - 1])
  }

  /** A '_' and a letter start a new part holding the letter. */
  lemma SplitNewPart(s: string, c: char)
    requires c != '_'
    ensures Split(s + ['_', c], '_') == Split(s, '_') + [[c]]
  {
    var p := Split(s, '_');
    assert s + ['_', c] == (s + ['_']) + [c];
    SplitSnoc(s, '_', '_');
    SplitSnoc(s + ['_'], c, '_');
    assert (p + [""])[..|p|] == p;
    assert "" + [c] == [c];
  }

  /** A new part holding a lower-case letter title-cases to the upper-case
      letter. */
  lemma TitleNewPart(p: seq<string>, x: char)
    requires IsUpperChar(x)
    ensures var q := p + [[ToLowerChar(x)]];
      EndsInAlnum(q) && Join(TitleAll(q), "") == Join(TitleAll(p), "") + [x]
  {
    var c := ToLowerChar(x);
    assert Title([c]) == [x];
    assert TitleAll(p + [[c]]) == TitleAll(p) + [[x]];
    if |p| > 0 {
      JoinAppend(TitleAll(p), "", [x]);
    } else {
      assert p + [[c]] == [[c]];
    }
  }

  /** The snake_case text `t` title-cases and joins back to `name`, and
      its last part ends in a letter or digit. */
  predicate Restores(t: string, name: string)
  {
    var p := Split(t, '_');
    EndsInAlnum(p) && Join(TitleAll(p), "") == name
  }

  /** An upper-case letter written as '_' and its lower-case form starts a
      new part, which title-cases back to the letter. */
  lemma UpperStep(s: string, x: char, name: string)
    requires IsUpperChar(x) && Restores(s, name)
    ensures Restores(s + ['_', ToLowerChar(x)], name + [x])
  {
    SplitNewPart(s, ToLowerChar(x));
    TitleNewPart(Split(s, '_'), x);
  }

  /** Any other letter or digit extends the last part, and title-casing
      keeps it. */
  lemma OtherStep(s: string, x: char, name: string)
    requires IsAlnumChar(x) && !IsUpperChar(x) && Restores(s, name)
    ensures Restores(s + [x], name + [x])
  {
    var p := Split(s, '_');
    SplitSnoc(s, x, '_');
    TitleAllExtendLast(p, x);
    JoinExtendLast(TitleAll(p), x);
  }

  /** A part holding one lower-cased letter or digit title-cases back to
      it, unless it was lower-case to begin with. */
  lemma TitleOnePart(x: char)
    requires IsAlnumChar(x) && !IsLowerChar(x)
    ensures EndsInAlnum([[ToLowerChar(x)]]) && Join(TitleAll([[ToLowerChar(x)]]), "") == [x]
  {
    var c := ToLowerChar(x);
    assert Title([c]) == [x];
    assert TitleAll([[c]]) == [[x]];
  }

  lemma SnakeFirstSplit(n: string)
    requires |n| >= 1 && IsAlnumChar(n[0])
    ensures Split(SnakeUpTo(n, 1), '_') == [[ToLowerChar(n[0])]]
  {
    SnakeUpToOne(n);
    SplitOne(ToLowerChar(n[0]));
  }

  lemma SnakeUpToOne(n: string)
    requires |n| >= 1
    ensures SnakeUpTo(n, 1) == [ToLowerChar(n[0])]
  {
    assert SnakeUpTo(n, 0) == "";
  }

  lemma SplitOne(c: char)
    requires c != '_'
    ensures Split([c], '_') == [[c]]
  {
    assert [c][..0] == "";
    assert [""][..0] == [] && "" + [c] == [c];
    assert ExtendLast([""], c) == [[c]];
  }

  /** The first character of a name that does not start with a lower-case
      letter comes back from its snake_case form. */
  lemma SnakeFirst(n: string)
    requires |n| >= 1 && IsAlnumChar(n[0]) && !IsLowerChar(n[0])
    ensures Restores(SnakeUpTo(n, 1), n[..1])
  {
    SnakeFirstSplit(n);
    TitleOnePart(n[0]);
    assert n[..1] == [n[0]];
  }

  /** One more character of the name: the prefix grows by that character. */
  lemma SnakeStep(n: string, k: nat)
    requires 2 <= k <= |n| && IsAlnumChar(n[k - 1])
    requires Restores(SnakeUpTo(n, k - 1), n[..k - 1])
    ensures Restores(SnakeUpTo(n, k), n[..k])
  {
    var x := n[k - 1];
    var s := SnakeUpTo(n, k - 1);
    assert n[..k] == n[..k - 1] + [x];
    if IsUpperChar(x) {
      assert SnakeUpTo(n, k) == s + ['_', ToLowerChar(x)];
      UpperStep(s, x, n[..k - 1]);
    } else {
      assert SnakeUpTo(n, k) == s + [x];
      OtherStep(s, x, n[..k - 1]);
    }
  }

  /** The parts of a prefix of a snake_case name title-case and join back
      to the same prefix of the original name. */
  lemma {:induction false} SnakePrefix(n: string, k: nat)
    requires 1 <= k <= |n|
    requires forall i :: 0 <= i < |n| ==> IsAlnumChar(n[i])
    requires !IsLowerChar(n[0])
    ensures Restores(SnakeUpTo(n, k), n[..k])
  {
    if k == 1 {
      SnakeFirst(n);
    } else {
      SnakePrefix(n, k - 1);
      SnakeStep(n, k);
    }
  }

  /** toFieldName undoes the column naming of struct fields (SnakeName in
      model/model.go) for names of ASCII letters and digits that do not
      start with a lower-case letter: `UserID` becomes `user_i_d` and back. */
  lemma FieldNameOfSnakeName(n: string)
    requires forall i :: 0 <= i < |n| ==> IsAlnumChar(n[i])
    requires |n| > 0 ==> !IsLowerChar(n[0])
    ensures FieldName(SnakeName(n)) == n
  {
    if |n| == 0 {
      assert Split(SnakeName(n), '_') == [""];
      assert TitleAll([""]) == [""];
    } else {
      SnakePrefix(n, |n|);
      assert n[..|n|] == n;
    }
  }

  lemma {:induction false} SplitPartsAvoid(s: string, c: char)
    ensures forall i :: 0 <= i < |Split(s, c)| ==> c !in Split(s, c)[i]
  {
    if |s| > 0 {
      SplitPartsAvoid(s[..|s| - 1], c);
    }
  }

  lemma {:induction false} TitleAvoids(s: string)
    requires '_' !in s
    ensures '_' !in Title(s)
  {
    if |s| > 0 {
      TitleAvoids(s[..|s| - 1]);
    }
  }

  /** A field name has no '_' left. */
  lemma FieldNameNoUnderscore(column: string)
    ensures '_' !in FieldName(column)
  {
    var parts := Split(column, '_');
    SplitPartsAvoid(column, '_');
    forall i | 0 <= i < |parts| ensures '_' !in TitleAll(parts)[i] {
      TitleAvoids(parts[i]);
    }
    JoinAvoids(TitleAll(parts), "", '_');
  }

  lemma TitleUserId()
    ensures Title("user") == "User" && Title("id") == "Id"
  {
    assert "user"[..1] == "u" && "user"[..2] == "us" && "user"[..3] == "use";
    assert Title("u") == "U" && Title("us") == "Us" && Title("use") == "Use";
    assert "id"[..1] == "i";
    assert Title("i") == "I";
  }

  lemma SplitWords()
    ensures Split("user", '_') == ["user"] && Split("id", '_') == ["id"]
  {
    SplitSinglePart("user", '_');
    SplitSinglePart("id", '_');
  }

  lemma SplitUserId()
    ensures Split("user_id", '_') == ["user", "id"]
  {
    assert "user_id" == "user" + ['_'] + "id";
    SplitConcat("user", "id", '_');
    SplitWords();
  }

  lemma FieldNameUserId()
    ensures FieldName("user_id") == "UserId"
  {
    SplitUserId();
    TitleUserId();
    assert TitleAll(["user", "id"]) == ["User", "Id"];
    assert Join(["User", "Id"], "") == "User" + "" + "Id";
  }

  /** A users model: an auto-increment key and one more column. */
  function UsersModel(): Metadata
  {
    Metadata("users", [Field("ID", "id", Int, true, true, false, 0, false),
                       Field("Name", "name", String, false, false, false, 0, false)])
  }

  lemma UsersInsert(row: Row)
    ensures InsertText(UsersModel()) == "INSERT INTO users (name) VALUES (?)"
    ensures InsertArgs(UsersModel(), row) == [row("Name")]
  {
    var fields := UsersModel().fields;
    assert fields[..1] == [fields[0]];
    assert InsertedFields(fields) == [fields[1]];
  }

  lemma UsersKey(row: Row)
    ensures WhereClause(UsersModel().fields) == "WHERE id = ?"
    ensures KeyArgs(UsersModel().fields, row) == [row("ID")]
  {
    assert FirstPK(UsersModel().fields) == Some(UsersModel().fields[0]);
  }

  lemma UsersAssignments(row: Row)
    ensures Join(Assignments(AssignedFields(UsersModel().fields)), ", ") == "name = ?"
    ensures FieldValues(AssignedFields(UsersModel().fields), row) == [row("Name")]
  {
    var fields := UsersModel().fields;
    assert fields[..1] == [fields[0]];
    assert AssignedFields(fields) == [fields[1]];
  }

  lemma UsersUpdate(row: Row)
    ensures UpdateText(UsersModel()) == "UPDATE users SET name = ? WHERE id = ?"
    ensures UpdateArgs(UsersModel(), row) == [row("Name"), row("ID")]
  {
    UsersAssignments(row);
    UsersKey(row);
    UsersUpdateText();
  }

  lemma UsersUpdateText()
    ensures "UPDATE " + "users" + " SET " + "name = ?" + " " + "WHERE id = ?"
         == "UPDATE users SET name = ? WHERE id = ?"
  {
  }

  lemma UsersDelete(row: Row)
    ensures DeleteText(UsersModel()) == "DELETE FROM users WHERE id = ?"
    ensures KeyArgs(UsersModel().fields, row) == [row("ID")]
  {
    UsersKey(row);
  }
}
