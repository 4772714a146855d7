/** The fluent SELECT builder of query/builder.go. The setters update the
    builder in place and return it; Build writes the clauses in a fixed order
    (SELECT ... FROM, WHERE, ORDER BY, LIMIT, OFFSET) and returns the
    arguments collected by Where. */
module Builder {
  import opened Strings
  import opened Values

  /** The fields of a builder, as a value. */
  datatype Query = Query(table: string, columns: seq<string>, conditions: seq<string>, args: seq<Value>,
                         orderBy: string, limit: int, offset: int, operation: string)

  /** NewBuilder */
  function Initial(table: string): Query
  {
    Query(table, [], [], [], "", 0, 0, "")
  }

  /** One call of a setter. */
  datatype Call =
    | Select(columns: seq<string>)
    | Where(condition: string, whereArgs: seq<Value>)
    | OrderBy(orderBy: string)
    | Limit(limit: int)
    | Offset(offset: int)

  /** What a setter does to the fields. */
  function Apply(q: Query, c: Call): Query
  {
    match c
    case Select(cols) => q.(operation := "SELECT", columns := cols)
    case Where(cond, a) => q.(conditions := q.conditions + [cond], args := q.args + a)
    case OrderBy(o) => q.(orderBy := o)
    case Limit(l) => q.(limit := l)
    case Offset(o) => q.(offset := o)
  }

  /** A chain of setter calls, first call first. */
  function ApplyAll(q: Query, calls: seq<Call>): Query
    decreases |calls|
  {
    if |calls| == 0 then q else ApplyAll(Apply(q, calls[0]), calls[1..])
  }

  function SelectClause(q: Query): string
  {
    if q.operation == "SELECT" then
      "SELECT " + (if |q.columns| == 0 then "*" else Join(q.columns, ", ")) + " FROM " + q.table
    else ""
  }

  function WhereClause(conditions: seq<string>): string
  {
    if |conditions| > 0 then " WHERE " + Join(conditions, " AND ") else ""
  }

  function OrderClause(orderBy: string): string
  {
    if orderBy != "" then " ORDER BY " + orderBy else ""
  }

  function LimitClause(limit: int): string
  {
    if limit > 0 then " LIMIT " + NatToString(limit) else ""
  }

  function OffsetClause(offset: int): string
  {
    if offset > 0 then " OFFSET " + NatToString(offset) else ""
  }

  /** The query text Build writes. */
  function QueryText(q: Query): string
  {
    SelectClause(q) + WhereClause(q.conditions) + OrderClause(q.orderBy) + LimitClause(q.limit) + OffsetClause(q.offset)
  }

  class Builder {
    var table: string
    var columns: seq<string>
    var conditions: seq<string>
    var args: seq<Value>
    var orderBy: string
    var limit: int
    var offset: int
    var operation: string

    function State(): Query
      reads this
    {
      Query(table, columns, conditions, args, orderBy, limit, offset, operation)
    }

    /** NewBuilder */
    constructor(t: string)
      ensures State() == Initial(t)
    {
      table, columns, conditions, args := t, [], [], [];
      orderBy, limit, offset, operation := "", 0, 0, "";
    }

    method Select(cols: seq<string>) returns (self: Builder)
      modifies this
      ensures self == this
      ensures State() == Apply(old(State()), Call.Select(cols))
    {
      operation := "SELECT";
      columns := cols;
      return this;
    }

    method Where(condition: string, whereArgs: seq<Value>) returns (self: Builder)
      modifies this
      ensures self == this
      ensures State() == Apply(old(State()), Call.Where(condition, whereArgs))
    {
      conditions := conditions + [condition];
      args := args + whereArgs;
      return this;
    }

    method OrderBy(o: string) returns (self: Builder)
      modifies this
      ensures self == this
      ensures State() == Apply(old(State()), Call.OrderBy(o))
    {
      orderBy := o;
      return this;
    }

    method Limit(l: int) returns (self: Builder)
      modifies this
      ensures self == this
      ensures State() == Apply(old(State()), Call.Limit(l))
    {
      limit := l;
      return this;
    }

    method Offset(o: int) returns (self: Builder)
      modifies this
      ensures self == this
      ensures State() == Apply(old(State()), Call.Offset(o))
    {
      offset := o;
      return this;
    }

    /** Build: the clauses written one after the other; the builder is not
        changed, so building twice gives the same query and arguments. */
    method Build() returns (query: string, a: seq<Value>)
      ensures query == QueryText(State()) && a == args
    {
      query := WriteSelect();
      query := WriteWhere(query);
      query := WriteOrderBy(query);
      ghost var upToOrder := query;
      query := WriteLimitOffset(query);
      Assoc(upToOrder, LimitClause(limit), OffsetClause(offset));
      a := args;
    }

    /** The SELECT ... FROM part Build writes first, when Select was called. */
    method WriteSelect() returns (query: string)
      ensures query == SelectClause(State())
    {
      query := "";
      if operation == "SELECT" {
        query := query + "SELECT ";
        if |columns| == 0 {
          query := query + "*";
        } else {
          query := query + Join(columns, ", ");
        }
        query := query + " FROM ";
        query := query + table;
      }
    }

    method WriteWhere(prefix: string) returns (query: string)
      ensures query == prefix + WhereClause(conditions)
    {
      query := prefix;
      if |conditions| > 0 {
        query := query + " WHERE ";
        query := query + Join(conditions, " AND ");
        Assoc(prefix, " WHERE ", Join(conditions, " AND "));
      }
    }

    method WriteOrderBy(prefix: string) returns (query: string)
      ensures query == prefix + OrderClause(orderBy)
    {
      query := prefix;
      if orderBy != "" {
        query := query + " ORDER BY ";
        query := query + orderBy;
        Assoc(prefix, " ORDER BY ", orderBy);
      }
    }

    method WriteLimitOffset(prefix: string) returns (query: string)
      ensures query == prefix + (LimitClause(limit) + OffsetClause(offset))
    {
      query := prefix;
      if limit > 0 {
        query := query + " LIMIT " + NatToString(limit);
        Assoc(prefix, " LIMIT ", NatToString(limit));
      }
      ghost var withLimit := query;
      if offset > 0 {
        query := query + " OFFSET " + NatToString(offset);
        Assoc(withLimit, " OFFSET ", NatToString(offset));
      }
      Assoc(prefix, LimitClause(limit), OffsetClause(offset));
    }
  }

  // ---------------------------------------------------------------------------
  // properties of a chain of calls

  /** The conditions of the Where calls of a chain, in call order. */
  function WhereConditions(calls: seq<Call>): seq<string>
  {
    if |calls| == 0 then []
    else (if calls[0].Where? then [calls[0].condition] else []) + WhereConditions(calls[1..])
  }

  /** The arguments of the Where calls of a chain, in call order. */
  function WhereArgs(calls: seq<Call>): seq<Value>
  {
    if |calls| == 0 then []
    else (if calls[0].Where? then calls[0].whereArgs else []) + WhereArgs(calls[1..])
  }

  /** Where appends: after a chain, the conditions and the arguments are
      those of its Where calls in call order, after the ones already there;
      nothing else touches them. */
  lemma {:induction false} ChainAppendsWhere(q: Query, calls: seq<Call>)
    ensures ApplyAll(q, calls).conditions == q.conditions + WhereConditions(calls)
    ensures ApplyAll(q, calls).args == q.args + WhereArgs(calls)
    decreases |calls|
  {
    if |calls| > 0 {
      var q1 := Apply(q, calls[0]);
      ChainAppendsWhere(q1, calls[1..]);
      var conds := if calls[0].Where? then [calls[0].condition] else [];
      var args := if calls[0].Where? then calls[0].whereArgs else [];
      assert q1.conditions == q.conditions + conds && q1.args == q.args + args;
      assert q.conditions + conds + WhereConditions(calls[1..]) == q.conditions + (conds + WhereConditions(calls[1..]));
      assert q.args + args + WhereArgs(calls[1..]) == q.args + (args + WhereArgs(calls[1..]));
    }
  }

  /** The table never changes, and the last call of each other setter wins. */
  lemma {:induction false} ChainLastSetterWins(q: Query, calls: seq<Call>, c: Call)
    requires !c.Where?
    ensures ApplyAll(q, calls + [c]) == Apply(ApplyAll(q, calls), c)
    ensures ApplyAll(q, calls).table == q.table
    decreases |calls|
  {
    if |calls| > 0 {
      assert (calls + [c])[1..] == calls[1..] + [c];
      ChainLastSetterWins(Apply(q, calls[0]), calls[1..], c);
    }
  }

  /** A builder that was never given Select, a condition, an order, a
      positive limit or a positive offset builds the empty query. */
  lemma NothingSelected(q: Query)
    requires q.operation != "SELECT" && |q.conditions| == 0 && q.orderBy == ""
    requires q.limit <= 0 && q.offset <= 0
    ensures QueryText(q) == ""
  {
  }

  /** Each further condition is joined to the WHERE clause by " AND "; the
      first one opens it. */
  lemma WhereClauseAppend(conditions: seq<string>, c: string)
    ensures WhereClause(conditions + [c]) ==
      if |conditions| == 0 then " WHERE " + c else WhereClause(conditions) + " AND " + c
  {
    if |conditions| == 0 {
      assert conditions + [c] == [c];
    } else {
      JoinAppend(conditions, " AND ", c);
    }
  }

  /** A limit or offset that is not positive is left out, as if unset. */
  lemma NonPositiveOmitted(q: Query, l: int, o: int)
    requires l <= 0 && o <= 0
    ensures QueryText(q.(limit := l, offset := o)) == QueryText(q.(limit := 0, offset := 0))
    ensures LimitClause(l) == "" && OffsetClause(o) == ""
  {
  }

  // ---------------------------------------------------------------------------
  // the expected outputs of query/builder_test.go

  lemma GoldenSelectAll()
    ensures QueryText(Apply(Initial("users"), Call.Select([]))) == "SELECT * FROM users"
  {
  }

  lemma GoldenSelectColumns()
    ensures QueryText(Query("users", ["id", "name", "email"], [], [], "", 0, 0, "SELECT"))
         == "SELECT id, name, email FROM users"
  {
    ColumnsThree();
  }

  lemma ColumnsThree()
    ensures Join(["id", "name", "email"], ", ") == "id, name, email"
  {
    JoinThree("id", "name", "email", ", ");
  }

  lemma GoldenLimitOffset()
    ensures QueryText(Query("users", [], [], [], "", 10, 5, "SELECT"))
         == "SELECT * FROM users" + " LIMIT 10" + " OFFSET 5"
  {
    SmallNumbers();
  }

  lemma GoldenTwoConditions()
    ensures QueryText(Query("users", [], ["id > ?", "name LIKE ?"], [], "", 0, 0, "SELECT"))
         == "SELECT * FROM users" + " WHERE id > ? AND name LIKE ?"
  {
    var q := Query("users", [], ["id > ?", "name LIKE ?"], [], "", 0, 0, "SELECT");
    assert SelectClause(q) == "SELECT * FROM users";
    WhereTwo();
  }

  lemma WhereTwo()
    ensures WhereClause(["id > ?", "name LIKE ?"]) == " WHERE id > ? AND name LIKE ?"
  {
    JoinTwo("id > ?", "name LIKE ?", " AND ");
  }

  /** The fields TestBuilder_Chaining's calls leave in the builder. */
  function ChainingState(): Query
  {
    Query("users", ["id", "name"], ["age > ?", "status = ?"], [IntValue(18), TextValue("active")],
          "name ASC", 10, 20, "SELECT")
  }

  /** The fluent calls of TestBuilder_Chaining on a new builder. */
  method ChainingCalls() returns (b: Builder)
    ensures b.State() == ChainingState()
  {
    b := new Builder("users");
    b := b.Select(["id", "name"]);
    b := b.Where("age > ?", [IntValue(18)]);
    b := b.Where("status = ?", [TextValue("active")]);
    b := b.OrderBy("name ASC");
    b := b.Limit(10);
    b := b.Offset(20);
  }

  /** TestBuilder_Chaining: every clause, in the order SELECT, WHERE,
      ORDER BY, LIMIT, OFFSET, and the arguments of the Where calls. */
  method Chaining() returns (query: string, args: seq<Value>)
    ensures query == "SELECT id, name FROM users" + " WHERE age > ? AND status = ?" + " ORDER BY name ASC"
                     + " LIMIT 10" + " OFFSET 20"
    ensures args == [IntValue(18), TextValue("active")]
  {
    var b := ChainingCalls();
    ChainingText();
    query, args := b.Build();
  }

  lemma ChainingText()
    ensures QueryText(ChainingState())
         == "SELECT id, name FROM users" + " WHERE age > ? AND status = ?" + " ORDER BY name ASC"
            + " LIMIT 10" + " OFFSET 20"
  {
    ChainingSelect();
    ChainingWhere();
    SmallNumbers();
  }

  lemma ChainingSelect()
    ensures SelectClause(ChainingState()) == "SELECT id, name FROM users"
  {
    JoinTwo("id", "name", ", ");
  }

  lemma ChainingWhere()
    ensures WhereClause(["age > ?", "status = ?"]) == " WHERE age > ? AND status = ?"
  {
    JoinTwo("age > ?", "status = ?", " AND ");
  }
}
