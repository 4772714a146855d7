/** Model metadata (model/model.go): the table name and column list the ORM
    derives from a Go struct. Reflection is replaced by an explicit description
    of the struct: its type name, and for each field its Go name, the value of
    its `db` tag and its kind. */
module Model {
  import opened Wrappers
  import opened Strings

  /** The reflect.Kind of a field's type, as far as the repository tells kinds apart. */
  datatype Kind =
    | Int | Int8 | Int16 | Int32 | Int64
    | Uint | Uint8 | Uint16 | Uint32 | Uint64
    | Float32 | Float64
    | String
    | Bool
    | Slice(elem: Kind)
    | TimeStruct    // time.Time
    | OtherStruct
    | Other         // pointers, maps, interfaces, ...

  datatype Field = Field(
    name: string,
    dbName: string,
    kind: Kind,
    isPK: bool,
    isAuto: bool,
    isNull: bool,
    maxLength: int,
    isPKHandled: bool)

  datatype Metadata = Metadata(tableName: string, fields: seq<Field>)

  datatype Error = Error(message: string)

  const ErrNilModel := Error("nil model provided")
  const ErrNotAStruct := Error("model must be a struct")

  /** One struct field as reflection reports it; `tag` is the value of its
      `db` tag, "" when the field has none. */
  datatype StructField = StructField(name: string, tag: string, kind: Kind)

  /** The results of the Model interface's TableName() and PrimaryKey(). */
  datatype ModelMethods = ModelMethods(tableName: string, primaryKey: Option<Field>)

  /** The value handed to ExtractMetadata. */
  datatype Input =
    | NilModel
    | Provider(provided: Result<Metadata, Error>)   // implements MetadataProvider
    | NonStruct                                     // neither a struct nor a pointer to one
    | Struct(typeName: string, structFields: seq<StructField>, model: Option<ModelMethods>)

  // ---------------------------------------------------------------------------
  // snake_case names

  /** What the conversion writes for position i: '_' before an upper-case
      letter that is not the first character, then the character lower-cased. */
  function SnakeChar(s: string, i: nat): string
    requires i < |s|
  {
    if i > 0 && IsUpperChar(s[i]) then ['_', ToLowerChar(s[i])] else [ToLowerChar(s[i])]
  }

  /** The conversion of the first n characters of s. */
  function SnakeUpTo(s: string, n: nat): string
    requires n <= |s|
  {
    if n == 0 then "" else SnakeUpTo(s, n - 1) + SnakeChar(s, n - 1)
  }

  /** CamelCase to snake_case, as getTableName and getDBFieldName write it. */
  function SnakeName(s: string): string
  {
    SnakeUpTo(s, |s|)
  }

  /** The conversion loop of getTableName and getDBFieldName, written byte by byte. */
  method SnakeCase(name: string) returns (r: string)
    ensures r == SnakeName(name)
  {
    r := "";
    for i := 0 to |name|
      invariant r == SnakeUpTo(name, i)
    {
      var c := name[i];
      if i > 0 && IsUpperChar(c) {
        r := r + "_";
      }
      r := r + [ToLowerChar(c)];
    }
  }

  /** The count of upper-case letters in s[1..n]: the underscores the conversion adds. */
  function InnerUpper(s: string, n: nat): nat
    requires n <= |s|
  {
    if n <= 1 then 0 else InnerUpper(s, n - 1) + (if IsUpperChar(s[n - 1]) then 1 else 0)
  }

  /** The snake_case name contains no upper-case letter, and is longer than
      the original by one underscore per upper-case letter after the first
      character. */
  lemma {:induction false} SnakeNameShape(s: string, n: nat)
    requires n <= |s|
    ensures |SnakeUpTo(s, n)| == n + InnerUpper(s, n)
    ensures forall k :: 0 <= k < |SnakeUpTo(s, n)| ==> !IsUpperChar(SnakeUpTo(s, n)[k])
  {
    if n > 0 {
      SnakeNameShape(s, n - 1);
    }
  }

  lemma SnakeNameUserWithTags()
    ensures SnakeName("UserWithTags") == "user_with_tags"
  {
    var s := "UserWithTags";
    assert SnakeUpTo(s, 1) == "u";
    assert SnakeUpTo(s, 2) == "us";
    assert SnakeUpTo(s, 3) == "use";
    assert SnakeUpTo(s, 4) == "user";
    assert SnakeUpTo(s, 5) == "user_w";
    assert SnakeUpTo(s, 6) == "user_wi";
    assert SnakeUpTo(s, 7) == "user_wit";
    assert SnakeUpTo(s, 8) == "user_with";
    assert SnakeUpTo(s, 9) == "user_with_t";
    assert SnakeUpTo(s, 10) == "user_with_ta";
    assert SnakeUpTo(s, 11) == "user_with_tag";
  }

  lemma SnakeNameTestUser()
    ensures SnakeName("TestUser") == "test_user"
  {
    var t := "TestUser";
    assert SnakeUpTo(t, 1) == "t";
    assert SnakeUpTo(t, 2) == "te";
    assert SnakeUpTo(t, 3) == "tes";
    assert SnakeUpTo(t, 4) == "test";
    assert SnakeUpTo(t, 5) == "test_u";
    assert SnakeUpTo(t, 6) == "test_us";
    assert SnakeUpTo(t, 7) == "test_use";
  }

  /** A single capitalised word is simply lower-cased. */
  lemma SnakeNameWords()
    ensures SnakeName("Name") == "name"
    ensures SnakeName("Email") == "email"
  {
    assert SnakeUpTo("Name", 1) == "n";
    assert SnakeUpTo("Name", 2) == "na";
    assert SnakeUpTo("Name", 3) == "nam";
    assert SnakeUpTo("Email", 1) == "e";
    assert SnakeUpTo("Email", 2) == "em";
    assert SnakeUpTo("Email", 3) == "ema";
    assert SnakeUpTo("Email", 4) == "emai";
  }

  // ---------------------------------------------------------------------------
  // names from tags

  /** getTableName: the Model's own TableName() if it has one, else the
      snake_case type name. */
  function TableNameOf(typeName: string, model: Option<ModelMethods>): string
  {
    if model.Some? then model.value.tableName else SnakeName(typeName)
  }

  method TableName(typeName: string, model: Option<ModelMethods>) returns (r: string)
    ensures r == TableNameOf(typeName, model)
  {
    if model.Some? {
      return model.value.tableName;
    }
    r := SnakeCase(typeName);
  }

  /** getDBFieldName: the snake_case field name when there is no tag, the
      first comma-separated part of the tag when that is not empty, else the
      lower-cased field name. */
  function DbNameOf(name: string, tag: string): string
  {
    if tag == "" then SnakeName(name)
    else
      var first := Split(tag, ',')[0];
      if first != "" then first else ToLower(name)
  }

  method DbFieldName(name: string, tag: string) returns (r: string)
    ensures r == DbNameOf(name, tag)
    ensures tag != "" ==> r == ToLower(name) || (r == Split(tag, ',')[0] && ',' !in r)
  {
    if tag == "" {
      r := SnakeCase(name);
      return;
    }
    var parts := Split(tag, ',');
    SplitFirstPart(tag, ',');
    if parts[0] != "" {
      return parts[0];
    }
    r := ToLower(name);
  }

  // ---------------------------------------------------------------------------
  // ExtractMetadata

  /** containsField: some field already carries this Go name. */
  predicate HasField(fields: seq<Field>, name: string)
  {
    exists i :: 0 <= i < |fields| && fields[i].name == name
  }

  /** containsPKHandledField: some field of this Go name has IsPKHandled. */
  predicate HasPKHandledField(fields: seq<Field>, name: string)
  {
    exists i :: 0 <= i < |fields| && fields[i].name == name && fields[i].isPKHandled
  }

  method ContainsField(fields: seq<Field>, name: string) returns (found: bool)
    ensures found <==> exists i :: 0 <= i < |fields| && fields[i].name == name
  {
    for i := 0 to |fields|
      invariant forall k :: 0 <= k < i ==> fields[k].name != name
    {
      if fields[i].name == name {
        return true;
      }
    }
    return false;
  }

  method ContainsPKHandledField(fields: seq<Field>, name: string) returns (found: bool)
    ensures found <==> exists i :: 0 <= i < |fields| && fields[i].name == name && fields[i].isPKHandled
  {
    for i := 0 to |fields|
      invariant forall k :: 0 <= k < i ==> !(fields[k].name == name && fields[k].isPKHandled)
    {
      if fields[i].name == name && fields[i].isPKHandled {
        return true;
      }
    }
    return false;
  }

  /** A tag option: one of the comma-separated parts after the first. */
  predicate HasOption(tag: string, option: string)
  {
    tag != "" && option in Split(tag, ',')[1..]
  }

  /** The field built for a struct field: `pk` sets IsPK unless a field of
      that name is already the handled primary key, `auto` sets IsAuto,
      `null` sets IsNull; any other option is ignored. */
  function NewField(sf: StructField, pkHandled: bool): Field
  {
    Field(sf.name, DbNameOf(sf.name, sf.tag), sf.kind,
          HasOption(sf.tag, "pk") && !pkHandled,
          HasOption(sf.tag, "auto"),
          HasOption(sf.tag, "null"),
          0, false)
  }

  /** One iteration of the field loop: skip a field already present or
      tagged "-", otherwise append its metadata. */
  function AddStructField(fields: seq<Field>, sf: StructField): seq<Field>
  {
    if HasField(fields, sf.name) || sf.tag == "-" then fields
    else fields + [NewField(sf, HasPKHandledField(fields, sf.name))]
  }

  /** The field loop over the struct's fields in declaration order. */
  function CollectFields(init: seq<Field>, sfs: seq<StructField>): seq<Field>
  {
    if |sfs| == 0 then init
    else AddStructField(CollectFields(init, sfs[..|sfs| - 1]), sfs[|sfs| - 1])
  }

  /** The primary key supplied by the Model interface, marked as handled. */
  function InitialFields(model: Option<ModelMethods>): seq<Field>
  {
    if model.Some? && model.value.primaryKey.Some?
    then [model.value.primaryKey.value.(isPKHandled := true)]
    else []
  }

  function ExtractSpec(m: Input): Result<Metadata, Error>
  {
    match m
    case NilModel => Failure(ErrNilModel)
    case Provider(r) => r
    case NonStruct => Failure(ErrNotAStruct)
    case Struct(typeName, sfs, model) =>
      Success(Metadata(TableNameOf(typeName, model), CollectFields(InitialFields(model), sfs)))
  }

  /** The body of the field loop for a field that is not skipped: the DB name,
      then the tag options after the first comma-separated part. */
  method BuildField(fields: seq<Field>, sf: StructField) returns (f: Field)
    ensures f == NewField(sf, HasPKHandledField(fields, sf.name))
  {
    var dbName := DbFieldName(sf.name, sf.tag);
    f := Field(sf.name, dbName, sf.kind, false, false, false, 0, false);
    if sf.tag != "" {
      var parts := Split(sf.tag, ',');
      for j := 1 to |parts|
        invariant f.name == sf.name && f.dbName == dbName && f.kind == sf.kind
        invariant f.maxLength == 0 && !f.isPKHandled
        invariant f.isPK == ("pk" in parts[1..j] && !HasPKHandledField(fields, sf.name))
        invariant f.isAuto == ("auto" in parts[1..j])
        invariant f.isNull == ("null" in parts[1..j])
      {
        assert parts[1..j + 1] == parts[1..j] + [parts[j]];
        var part := parts[j];
        if part == "pk" {
          var handled := ContainsPKHandledField(fields, sf.name);
          if !handled {
            f := f.(isPK := true);
          }
        } else if part == "auto" {
          f := f.(isAuto := true);
        } else if part == "null" {
          f := f.(isNull := true);
        }
      }
      assert parts[1..|parts|] == parts[1..];
    }
  }

  /** ExtractMetadata: a nil model and a non-struct are errors, a
      MetadataProvider's own result is returned as it is, and a struct gets
      its table name and one field per struct field not skipped. */
  method ExtractMetadata(m: Input) returns (r: Result<Metadata, Error>)
    ensures r == ExtractSpec(m)
    ensures m.NilModel? ==> r == Failure(ErrNilModel)
    ensures m.NonStruct? ==> r == Failure(ErrNotAStruct)
    ensures m.Provider? ==> r == m.provided
  {
    if m.NilModel? {
      return Failure(ErrNilModel);
    }
    if m.Provider? {
      return m.provided;
    }
    if m.NonStruct? {
      return Failure(ErrNotAStruct);
    }
    var tableName := TableName(m.typeName, m.model);
    var fields: seq<Field> := [];
    if m.model.Some? && m.model.value.primaryKey.Some? {
      fields := fields + [m.model.value.primaryKey.value];
      fields := fields[|fields| - 1 := fields[|fields| - 1].(isPKHandled := true)];
    }
    var sfs := m.structFields;
    for i := 0 to |sfs|
      invariant fields == CollectFields(InitialFields(m.model), sfs[..i])
    {
      var sf := sfs[i];
      assert sfs[..i + 1][..i] == sfs[..i];
      var present := ContainsField(fields, sf.name);
      if !present && sf.tag != "-" {
        var f := BuildField(fields, sf);
        fields := fields + [f];
      }
    }
    assert sfs[..|sfs|] == sfs;
    r := Success(Metadata(tableName, fields));
  }

  /** The handled-primary-key check never fires: a field that is already
      present is skipped before its options are read, so a `pk` option always
      sets IsPK on the fields the loop appends. */
  lemma AddStructFieldNeverHandled(fields: seq<Field>, sf: StructField)
    ensures AddStructField(fields, sf)
         == if HasField(fields, sf.name) || sf.tag == "-" then fields
            else fields + [NewField(sf, false)]
  {
    if !HasField(fields, sf.name) {
      assert !HasPKHandledField(fields, sf.name);
    }
  }

  /** The field loop keeps the initial fields, in front and unchanged. */
  lemma {:induction false} CollectFieldsKeepsInit(init: seq<Field>, sfs: seq<StructField>)
    ensures |init| <= |CollectFields(init, sfs)|
    ensures CollectFields(init, sfs)[..|init|] == init
  {
    if |sfs| > 0 {
      var pre := sfs[..|sfs| - 1];
      CollectFieldsKeepsInit(init, pre);
      var acc := CollectFields(init, pre);
      AddStructFieldNeverHandled(acc, sfs[|sfs| - 1]);
      assert CollectFields(init, sfs)[..|acc|] == acc;
    }
  }

  /** `f` is the field built from one of the struct fields not tagged "-". */
  ghost predicate FromStruct(f: Field, sfs: seq<StructField>)
  {
    exists j :: 0 <= j < |sfs| && sfs[j].tag != "-" && f == NewField(sfs[j], false)
  }

  lemma FromStructPrefix(f: Field, sfs: seq<StructField>)
    requires |sfs| > 0 && FromStruct(f, sfs[..|sfs| - 1])
    ensures FromStruct(f, sfs)
  {
    var pre := sfs[..|sfs| - 1];
    var j :| 0 <= j < |pre| && pre[j].tag != "-" && f == NewField(pre[j], false);
    assert sfs[j] == pre[j];
  }

  /** Every field the loop adds comes from a struct field not tagged "-",
      built with its own `pk` option honoured. */
  lemma {:induction false} CollectFieldsOrigin(init: seq<Field>, sfs: seq<StructField>)
    ensures forall k :: |init| <= k < |CollectFields(init, sfs)| ==> FromStruct(CollectFields(init, sfs)[k], sfs)
  {
    if |sfs| > 0 {
      var pre := sfs[..|sfs| - 1];
      var last := sfs[|sfs| - 1];
      CollectFieldsOrigin(init, pre);
      var acc := CollectFields(init, pre);
      AddStructFieldNeverHandled(acc, last);
      var r := CollectFields(init, sfs);
      forall k | |init| <= k < |r| ensures FromStruct(r[k], sfs) {
        if k < |acc| {
          assert r[k] == acc[k];
          FromStructPrefix(acc[k], sfs);
        } else {
          assert r == acc + [NewField(last, false)] && last.tag != "-";
          assert r[k] == NewField(sfs[|sfs| - 1], false);
        }
      }
    } else {
      assert CollectFields(init, sfs) == init;
    }
  }

  /** Every struct field not tagged "-" ends up with a field of its name. */
  lemma {:induction false} CollectFieldsCovers(init: seq<Field>, sfs: seq<StructField>)
    ensures forall j :: 0 <= j < |sfs| && sfs[j].tag != "-" ==> HasField(CollectFields(init, sfs), sfs[j].name)
  {
    if |sfs| > 0 {
      var pre := sfs[..|sfs| - 1];
      var last := sfs[|sfs| - 1];
      CollectFieldsCovers(init, pre);
      var acc := CollectFields(init, pre);
      AddStructFieldNeverHandled(acc, last);
      var r := CollectFields(init, sfs);
      forall j | 0 <= j < |sfs| && sfs[j].tag != "-" ensures HasField(r, sfs[j].name) {
        if j < |pre| {
          assert pre[j] == sfs[j];
          var i :| 0 <= i < |acc| && acc[i].name == sfs[j].name;
          assert r[i] == acc[i];
        } else if !HasField(acc, last.name) {
          assert r[|acc|].name == last.name;
        }
      }
    }
  }

  /** The field loop over two stretches of struct fields is the loop over the
      second stretch started from the result of the first. */
  lemma {:induction false} CollectFieldsAppend(init: seq<Field>, a: seq<StructField>, b: seq<StructField>)
    ensures CollectFields(init, a + b) == CollectFields(CollectFields(init, a), b)
  {
    if |b| == 0 {
      assert a + b == a;
    } else {
      var b' := b[..|b| - 1];
      assert (a + b)[..|a + b| - 1] == a + b';
      assert (a + b)[|a + b| - 1] == b[|b| - 1];
      CollectFieldsAppend(init, a, b');
    }
  }

  /** The metadata of each struct field, from its own tags alone. */
  function FreshFields(sfs: seq<StructField>): (r: seq<Field>)
    ensures |r| == |sfs|
    ensures forall j :: 0 <= j < |sfs| ==> r[j] == NewField(sfs[j], false)
  {
    seq(|sfs|, j requires 0 <= j < |sfs| => NewField(sfs[j], false))
  }

  /** Struct fields with new, distinct names and no "-" tag are each
      appended, in order, with the metadata their own tags give. */
  lemma {:induction false} CollectFieldsFresh(init: seq<Field>, sfs: seq<StructField>)
    requires forall j :: 0 <= j < |sfs| ==> sfs[j].tag != "-" && !HasField(init, sfs[j].name)
    requires forall i, j :: 0 <= i < j < |sfs| ==> sfs[i].name != sfs[j].name
    ensures CollectFields(init, sfs) == init + FreshFields(sfs)
  {
    if |sfs| > 0 {
      var pre, last := sfs[..|sfs| - 1], sfs[|sfs| - 1];
      CollectFieldsFresh(init, pre);
      assert sfs == pre + [last];
      FreshSnoc(init, pre, last);
    }
  }

  /** One step of CollectFieldsFresh: a field with a new name is appended. */
  lemma FreshSnoc(init: seq<Field>, pre: seq<StructField>, last: StructField)
    requires !HasField(init, last.name) && last.tag != "-"
    requires forall j :: 0 <= j < |pre| ==> pre[j].name != last.name
    ensures AddStructField(init + FreshFields(pre), last) == init + FreshFields(pre + [last])
  {
    var acc := init + FreshFields(pre);
    assert !HasField(acc, last.name) by {
      forall i | 0 <= i < |acc| ensures acc[i].name != last.name {
        if i >= |init| {
          assert acc[i].name == pre[i - |init|].name;
        }
      }
    }
    AddStructFieldNeverHandled(acc, last);
    assert FreshFields(pre + [last]) == FreshFields(pre) + [NewField(last, false)];
  }

  /** No field name is repeated when the initial fields repeat none. */
  ghost predicate DistinctNames(fields: seq<Field>)
  {
    forall i, j :: 0 <= i < j < |fields| ==> fields[i].name != fields[j].name
  }

  lemma {:induction false} CollectFieldsDistinct(init: seq<Field>, sfs: seq<StructField>)
    requires DistinctNames(init)
    ensures DistinctNames(CollectFields(init, sfs))
  {
    if |sfs| > 0 {
      CollectFieldsDistinct(init, sfs[..|sfs| - 1]);
    }
  }

  /** PrimaryKey's answer: the first field with IsPK, if any. */
  function FirstPK(fields: seq<Field>): (pk: Option<Field>)
    ensures pk.None? <==> forall i :: 0 <= i < |fields| ==> !fields[i].isPK
    ensures pk.Some? ==> exists k :: 0 <= k < |fields| && fields[k] == pk.value && fields[k].isPK
                                     && forall j :: 0 <= j < k ==> !fields[j].isPK
  {
    if |fields| == 0 then None
    else if fields[0].isPK then Some(fields[0])
    else
      var rest := FirstPK(fields[1..]);
      assert forall i :: 1 <= i < |fields| ==> fields[i] == fields[1..][i - 1];
      rest
  }

  /** Metadata.PrimaryKey: the search loop over the fields. */
  method PrimaryKey(metadata: Metadata) returns (pk: Option<Field>)
    ensures pk == FirstPK(metadata.fields)
  {
    var fields := metadata.fields;
    for i := 0 to |fields|
      invariant FirstPK(fields) == FirstPK(fields[i..])
    {
      if fields[i].isPK {
        return Some(fields[i]);
      }
      assert fields[i..][1..] == fields[i + 1..];
    }
    return None;
  }

  /** The tag `id,pk,auto` names column "id" and sets both flags. */
  lemma TagIdPkAuto()
    ensures NewField(StructField("ID", "id,pk,auto", Int), false)
         == Field("ID", "id", Int, true, true, false, 0, false)
  {
    assert "id,pk,auto" == "id" + [','] + "pk" + [','] + "auto";
    SplitThree("id", "pk", "auto", ',');
    assert ["id", "pk", "auto"][1..] == ["pk", "auto"];
  }

  /** A plain tag names the column and sets no flag. */
  lemma PlainTag(name: string, tag: string, kind: Kind)
    requires tag != "" && ',' !in tag
    ensures NewField(StructField(name, tag, kind), false) == Field(name, tag, kind, false, false, false, 0, false)
  {
    SplitSinglePart(tag, ',');
  }

  /** The field loop over UserWithTags's three tagged fields. */
  lemma UserWithTagsTagged()
    ensures CollectFields([], [StructField("ID", "id,pk,auto", Int), StructField("Name", "name", String),
                               StructField("Email", "email", String)])
         == [Field("ID", "id", Int, true, true, false, 0, false),
             Field("Name", "name", String, false, false, false, 0, false),
             Field("Email", "email", String, false, false, false, 0, false)]
  {
    var sfs := [StructField("ID", "id,pk,auto", Int), StructField("Name", "name", String),
                StructField("Email", "email", String)];
    TagIdPkAuto();
    PlainTag("Name", "name", String);
    PlainTag("Email", "email", String);
    CollectThree(sfs[0], sfs[1], sfs[2]);
  }

  /** Three fields with distinct names, none tagged "-", are each collected. */
  lemma CollectThree(a: StructField, b: StructField, c: StructField)
    requires a.name != b.name && a.name != c.name && b.name != c.name
    requires a.tag != "-" && b.tag != "-" && c.tag != "-"
    ensures CollectFields([], [a, b, c]) == [NewField(a, false), NewField(b, false), NewField(c, false)]
  {
    CollectFieldsFresh([], [a, b, c]);
    assert FreshFields([a, b, c]) == [NewField(a, false), NewField(b, false), NewField(c, false)];
  }

  /** The field loop over all of UserWithTags: the "-" field adds nothing. */
  lemma UserWithTagsFields()
    ensures CollectFields([], [StructField("ID", "id,pk,auto", Int), StructField("Name", "name", String),
                               StructField("Email", "email", String), StructField("CreatedAt", "-", String)])
         == [Field("ID", "id", Int, true, true, false, 0, false),
             Field("Name", "name", String, false, false, false, 0, false),
             Field("Email", "email", String, false, false, false, 0, false)]
  {
    var sfs := [StructField("ID", "id,pk,auto", Int), StructField("Name", "name", String),
                StructField("Email", "email", String)];
    var skipped := StructField("CreatedAt", "-", String);
    UserWithTagsTagged();
    CollectFieldsAppend([], sfs, [skipped]);
    assert sfs + [skipped] == [StructField("ID", "id,pk,auto", Int), StructField("Name", "name", String),
               StructField("Email", "email", String), StructField("CreatedAt", "-", String)];
    assert [skipped][..0] == [];
  }

  /** model_test.go's UserWithTags: the "-" field is dropped, `pk,auto` set
      both flags, and the type name is snake-cased. */
  lemma ExtractUserWithTags()
    ensures ExtractSpec(Struct("UserWithTags",
              [StructField("ID", "id,pk,auto", Int), StructField("Name", "name", String),
               StructField("Email", "email", String), StructField("CreatedAt", "-", String)], None))
         == Success(Metadata("user_with_tags",
              [Field("ID", "id", Int, true, true, false, 0, false),
               Field("Name", "name", String, false, false, false, 0, false),
               Field("Email", "email", String, false, false, false, 0, false)]))
  {
    UserWithTagsFields();
    SnakeNameUserWithTags();
  }

  /** model_test.go's UserWithTableName: the Model's primary key comes first,
      marked handled, and the struct's own ID field is not added again. */
  lemma ExtractUserWithTableName()
    ensures ExtractSpec(Struct("UserWithTableName",
              [StructField("ID", "", Int), StructField("Name", "", String), StructField("Email", "", String)],
              Some(ModelMethods("custom_users", Some(Field("ID", "id", Int, true, true, false, 0, true))))))
         == Success(Metadata("custom_users",
              [Field("ID", "id", Int, true, true, false, 0, true),
               Field("Name", "name", String, false, false, false, 0, false),
               Field("Email", "email", String, false, false, false, 0, false)]))
  {
    var idField := StructField("ID", "", Int);
    var sfs := [StructField("Name", "", String), StructField("Email", "", String)];
    var id := Field("ID", "id", Int, true, true, false, 0, true);
    SnakeNameWords();
    assert HasField([id], "ID") by { assert [id][0].name == "ID"; }
    assert CollectFields([id], [idField]) == [id] by { assert [idField][..0] == []; }
    assert !HasField([id], "Name") && !HasField([id], "Email");
    CollectFieldsFresh([id], sfs);
    assert CollectFields([id], sfs) == [id, NewField(sfs[0], false), NewField(sfs[1], false)];
    CollectFieldsAppend([id], [idField], sfs);
    assert [idField] + sfs == [StructField("ID", "", Int), StructField("Name", "", String), StructField("Email", "", String)];
  }

  /** A tag naming the column and adding the `null` option sets IsNull only. */
  lemma TagNull(name: string, column: string, kind: Kind)
    requires column != "" && ',' !in column
    ensures NewField(StructField(name, column + [','] + "null", kind), false)
         == Field(name, column, kind, false, false, true, 0, false)
  {
    var tag := column + [','] + "null";
    SplitConcat(column, "null", ',');
    SplitSinglePart(column, ',');
    SplitSinglePart("null", ',');
    var parts := Split(tag, ',');
    assert parts == [column, "null"];
    assert parts[1..] == ["null"];
    assert "pk" != "null" && "auto" != "null";
    assert tag != "" by { assert |tag| > 0; }
  }

  /** Five fields with distinct names, none tagged "-", are each collected. */
  lemma CollectFive(a: StructField, b: StructField, c: StructField, d: StructField, e: StructField)
    requires a.name != b.name && a.name != c.name && a.name != d.name && a.name != e.name
    requires b.name != c.name && b.name != d.name && b.name != e.name
    requires c.name != d.name && c.name != e.name && d.name != e.name
    requires a.tag != "-" && b.tag != "-" && c.tag != "-" && d.tag != "-" && e.tag != "-"
    ensures CollectFields([], [a, b, c, d, e])
         == [NewField(a, false), NewField(b, false), NewField(c, false), NewField(d, false), NewField(e, false)]
  {
    CollectFieldsFresh([], [a, b, c, d, e]);
    assert FreshFields([a, b, c, d, e])
        == [NewField(a, false), NewField(b, false), NewField(c, false), NewField(d, false), NewField(e, false)];
  }

  /** The TestUser struct of migration/migration_test.go. */
  function MigrationTestUser(): Input
  {
    Struct("TestUser", [StructField("ID", "id,pk,auto", Int), StructField("Name", "name", String),
                        StructField("Email", "email,null", String), StructField("Age", "age", Int),
                        StructField("CreatedAt", "created_at", TimeStruct)], None)
  }

  /** The field loop over TestUser's five tagged fields. */
  lemma MigrationTestUserFields()
    ensures CollectFields([], MigrationTestUser().structFields)
         == [Field("ID", "id", Int, true, true, false, 0, false),
             Field("Name", "name", String, false, false, false, 0, false),
             Field("Email", "email", String, false, false, true, 0, false),
             Field("Age", "age", Int, false, false, false, 0, false),
             Field("CreatedAt", "created_at", TimeStruct, false, false, false, 0, false)]
  {
    var a, b, c := StructField("ID", "id,pk,auto", Int), StructField("Name", "name", String),
                   StructField("Email", "email,null", String);
    var d, e := StructField("Age", "age", Int), StructField("CreatedAt", "created_at", TimeStruct);
    assert |a.name| == 2 && |b.name| == 4 && |c.name| == 5 && |d.name| == 3 && |e.name| == 9;
    assert MigrationTestUser().structFields == [a, b, c, d, e];
    CollectFive(a, b, c, d, e);
    TestUserNewFields();
  }

  /** The metadata each of TestUser's tags gives. */
  lemma TestUserNewFields()
    ensures NewField(StructField("ID", "id,pk,auto", Int), false) == Field("ID", "id", Int, true, true, false, 0, false)
    ensures NewField(StructField("Name", "name", String), false) == Field("Name", "name", String, false, false, false, 0, false)
    ensures NewField(StructField("Email", "email,null", String), false)
         == Field("Email", "email", String, false, false, true, 0, false)
    ensures NewField(StructField("Age", "age", Int), false) == Field("Age", "age", Int, false, false, false, 0, false)
    ensures NewField(StructField("CreatedAt", "created_at", TimeStruct), false)
         == Field("CreatedAt", "created_at", TimeStruct, false, false, false, 0, false)
  {
    TagIdPkAuto();
    PlainTag("Name", "name", String);
    TagEmailNull();
    PlainTag("Age", "age", Int);
    PlainTag("CreatedAt", "created_at", TimeStruct);
  }

  /** The tag `email,null` names column "email" and sets IsNull. */
  lemma TagEmailNull()
    ensures NewField(StructField("Email", "email,null", String), false)
         == Field("Email", "email", String, false, false, true, 0, false)
  {
    assert "email,null" == "email" + [','] + "null";
    TagNull("Email", "email", String);
  }

  /** Its metadata: table `test_user`, five columns, `email` nullable. */
  lemma ExtractMigrationTestUser()
    ensures ExtractSpec(MigrationTestUser())
         == Success(Metadata("test_user",
              [Field("ID", "id", Int, true, true, false, 0, false),
               Field("Name", "name", String, false, false, false, 0, false),
               Field("Email", "email", String, false, false, true, 0, false),
               Field("Age", "age", Int, false, false, false, 0, false),
               Field("CreatedAt", "created_at", TimeStruct, false, false, false, 0, false)]))
  {
    MigrationTestUserFields();
    SnakeNameTestUser();
  }
}
