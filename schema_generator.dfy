/**
 * DDL text for automatic table creation: one column clause per entity
 * column (`_build_column_definition`) and the comma-separated column list
 * of the `CREATE TABLE` statement. Running the statement, and the
 * `sqlite_master` check before it, are database calls and are not part of
 * this model.
 */
module SchemaGenerator {
  import opened Wrappers
  import opened Strings
  import opened Dicts
  import opened Values
  import opened Entities

  /** The SQL type keyword for a column's declared type. */
  function SqlType(t: Option<PyType>): (r: string)
    ensures r == "INTEGER" <==> t == Some(IntType)
    ensures r == "BOOLEAN" <==> t == Some(BoolType)
    ensures r == "DATETIME" <==> t == Some(DateTimeType)
    ensures r == "REAL" <==> t == Some(FloatType)
    ensures r == "TEXT" <==> t !in {Some(IntType), Some(BoolType), Some(DateTimeType), Some(FloatType)}
  {
    if t == Some(IntType) then "INTEGER"
    else if t == Some(StrType) then "TEXT"
    else if t == Some(BoolType) then "BOOLEAN"
    else if t == Some(DateTimeType) then "DATETIME"
    else if t == Some(FloatType) then "REAL"
    else "TEXT"
  }

  /**
   * The text after `DEFAULT`, if the clause is emitted: only a plain
   * (not None, not callable) bool, string or int default has one. A bool
   * gives `1`/`0`, a string is quoted as it is, an int is its decimal text.
   */
  function DefaultText(d: Default): (r: Option<string>)
    ensures r.Some? <==> d.Literal? && (d.v.BoolV? || d.v.StrV? || d.v.IntV?)
    ensures d.Literal? && d.v.BoolV? ==> r == Some(if d.v.b then "1" else "0")
    ensures d.Literal? && d.v.StrV? ==> r == Some("'" + d.v.s + "'")
    ensures d.Literal? && d.v.IntV? ==> r == Some(IntToString(d.v.i))
  {
    if !HasDefault(d) || d.Factory? then None
    else match d.v
      case BoolV(b) => Some(if b then "1" else "0")
      case StrV(s) => Some("'" + s + "'")
      case IntV(i) => Some(IntToString(i))
      case _ => None
  }

  /** An int default's text reads back as that int. */
  lemma DefaultTextInt(d: Default)
    requires d.Literal? && d.v.IntV?
    ensures DefaultText(d).Some? && ParseInt(DefaultText(d).value) == Some(d.v.i)
  {
    ParseIntToString(d.v.i);
  }

  /** The pieces `_build_column_definition` appends to `parts`. */
  datatype Clause =
    | Name(field: string)
    | TypeKeyword(keyword: string)
    | PrimaryKey | AutoIncrement | NotNull | Unique
    | DefaultValue(text: string)

  /** Where each kind of clause sits in the definition. */
  function Rank(c: Clause): nat {
    match c
    case Name(_) => 0
    case TypeKeyword(_) => 1
    case PrimaryKey => 2
    case AutoIncrement => 3
    case NotNull => 4
    case Unique => 5
    case DefaultValue(_) => 6
  }

  function Render(c: Clause): string {
    match c
    case Name(f) => f
    case TypeKeyword(k) => k
    case PrimaryKey => "PRIMARY KEY"
    case AutoIncrement => "AUTOINCREMENT"
    case NotNull => "NOT NULL"
    case Unique => "UNIQUE"
    case DefaultValue(t) => "DEFAULT " + t
  }

  function Optional(flag: bool, c: Clause): seq<Clause> {
    if flag then [c] else []
  }

  /** The clauses of one column definition, as appended. */
  function Clauses(field: string, c: ColumnMetadata): seq<Clause> {
    [Name(field), TypeKeyword(SqlType(c.typ))]
      + Optional(c.primaryKey, PrimaryKey)
      + Optional(c.autoIncrement, AutoIncrement)
      + Optional(!c.nullable, NotNull)
      + Optional(c.unique, Unique)
      + DefaultClause(c.default)
  }

  /** `_build_column_definition`: the clauses joined by single spaces. */
  function ColumnDefinition(field: string, c: ColumnMetadata): string {
    Join(seq(|Clauses(field, c)|, i requires 0 <= i < |Clauses(field, c)| => Render(Clauses(field, c)[i])), " ")
  }

  predicate Increasing(s: seq<Clause>) {
    forall i, j :: 0 <= i < j < |s| ==> Rank(s[i]) < Rank(s[j])
  }

  predicate RanksIn(s: seq<Clause>, lo: nat, hi: nat) {
    forall i :: 0 <= i < |s| ==> lo <= Rank(s[i]) < hi
  }

  /** Two increasing runs whose ranks do not overlap make one increasing run. */
  lemma AppendIncreasing(a: seq<Clause>, b: seq<Clause>, r: nat, r': nat)
    requires r <= r' && Increasing(a) && Increasing(b) && RanksIn(a, 0, r) && RanksIn(b, r, r')
    ensures Increasing(a + b) && RanksIn(a + b, 0, r')
  {
    forall i, j | 0 <= i < j < |a + b| ensures Rank((a + b)[i]) < Rank((a + b)[j]) {
      if j >= |a| {
        assert (a + b)[j] == b[j - |a|];
        if i >= |a| { assert (a + b)[i] == b[i - |a|]; }
      }
    }
    forall i | 0 <= i < |a + b| ensures 0 <= Rank((a + b)[i]) < r' {
      if i >= |a| { assert (a + b)[i] == b[i - |a|]; }
    }
  }

  function DefaultClause(d: Default): seq<Clause> {
    match DefaultText(d) case Some(t) => [DefaultValue(t)] case None => []
  }

  /** The clause order is fixed, so each kind of clause appears at most once. */
  lemma ClausesOrdered(field: string, c: ColumnMetadata)
    ensures forall i, j :: 0 <= i < j < |Clauses(field, c)| ==> Rank(Clauses(field, c)[i]) < Rank(Clauses(field, c)[j])
  {
    DefaultClauseRanks(c.default);
    ChainIncreasing(field, SqlType(c.typ), c.primaryKey, c.autoIncrement, !c.nullable, c.unique, DefaultClause(c.default));
  }

  /** Name, type keyword, the four optional flags and a last clause of rank 6, in that order, increase in rank. */
  lemma ChainIncreasing(field: string, keyword: string, pk: bool, ai: bool, nn: bool, u: bool, last: seq<Clause>)
    requires Increasing(last) && RanksIn(last, 6, 7)
    ensures Increasing([Name(field), TypeKeyword(keyword)] + Optional(pk, PrimaryKey) + Optional(ai, AutoIncrement)
      + Optional(nn, NotNull) + Optional(u, Unique) + last)
  {
    var s0 := [Name(field), TypeKeyword(keyword)];
    assert RanksIn(s0, 0, 2);
    var s1 := s0 + Optional(pk, PrimaryKey);
    OptionalRanks(pk, PrimaryKey);
    AppendIncreasing(s0, Optional(pk, PrimaryKey), 2, 3);
    var s2 := s1 + Optional(ai, AutoIncrement);
    OptionalRanks(ai, AutoIncrement);
    AppendIncreasing(s1, Optional(ai, AutoIncrement), 3, 4);
    var s3 := s2 + Optional(nn, NotNull);
    OptionalRanks(nn, NotNull);
    AppendIncreasing(s2, Optional(nn, NotNull), 4, 5);
    var s4 := s3 + Optional(u, Unique);
    OptionalRanks(u, Unique);
    AppendIncreasing(s3, Optional(u, Unique), 5, 6);
    AppendIncreasing(s4, last, 6, 7);
  }

  lemma OptionalRanks(flag: bool, x: Clause)
    ensures Increasing(Optional(flag, x)) && RanksIn(Optional(flag, x), Rank(x), Rank(x) + 1)
  {
  }

  lemma DefaultClauseRanks(d: Default)
    ensures Increasing(DefaultClause(d)) && RanksIn(DefaultClause(d), 6, 7)
  {
  }

  /** The definition starts with the field name and the type keyword; each flag clause appears iff its flag says so. */
  lemma ClausesFlags(field: string, c: ColumnMetadata)
    ensures Clauses(field, c)[0] == Name(field) && Clauses(field, c)[1] == TypeKeyword(SqlType(c.typ))
    ensures PrimaryKey in Clauses(field, c) <==> c.primaryKey
    ensures AutoIncrement in Clauses(field, c) <==> c.autoIncrement
    ensures NotNull in Clauses(field, c) <==> !c.nullable
    ensures Unique in Clauses(field, c) <==> c.unique
  {
  }

  /** A `DEFAULT` clause appears iff the default has a text, and then it comes last. */
  lemma ClausesDefault(field: string, c: ColumnMetadata)
    ensures (exists i :: 0 <= i < |Clauses(field, c)| && Clauses(field, c)[i].DefaultValue?) <==> DefaultText(c.default).Some?
    ensures DefaultText(c.default).Some? ==>
      Clauses(field, c)[|Clauses(field, c)| - 1] == DefaultValue(DefaultText(c.default).value)
  {
    var last := DefaultClause(c.default);
    ChainDefault(field, SqlType(c.typ), c.primaryKey, c.autoIncrement, !c.nullable, c.unique, last);
    assert Clauses(field, c) == [Name(field), TypeKeyword(SqlType(c.typ))] + Optional(c.primaryKey, PrimaryKey)
      + Optional(c.autoIncrement, AutoIncrement) + Optional(!c.nullable, NotNull) + Optional(c.unique, Unique) + last;
    if DefaultText(c.default).Some? {
      assert last == [DefaultValue(DefaultText(c.default).value)] && last[0].DefaultValue?;
    } else {
      assert last == [];
    }
  }

  /** In the chain of clauses only the last part can hold a `DEFAULT` clause, and it ends the chain. */
  lemma ChainDefault(field: string, keyword: string, pk: bool, ai: bool, nn: bool, u: bool, last: seq<Clause>)
    ensures var cl := [Name(field), TypeKeyword(keyword)] + Optional(pk, PrimaryKey) + Optional(ai, AutoIncrement)
      + Optional(nn, NotNull) + Optional(u, Unique) + last;
      ((exists i :: 0 <= i < |cl| && cl[i].DefaultValue?) <==> (exists i :: 0 <= i < |last| && last[i].DefaultValue?))
      && (last != [] ==> cl[|cl| - 1] == last[|last| - 1])
  {
    var flags := [Name(field), TypeKeyword(keyword)] + Optional(pk, PrimaryKey) + Optional(ai, AutoIncrement)
      + Optional(nn, NotNull) + Optional(u, Unique);
    var cl := flags + last;
    assert forall i :: 0 <= i < |flags| ==> !flags[i].DefaultValue?;
    forall i | 0 <= i < |cl| && cl[i].DefaultValue? ensures exists k :: 0 <= k < |last| && last[k].DefaultValue? {
      assert i >= |flags| && cl[i] == last[i - |flags|];
    }
    forall k | 0 <= k < |last| && last[k].DefaultValue? ensures exists i :: 0 <= i < |cl| && cl[i].DefaultValue? {
      assert cl[|flags| + k] == last[k];
    }
  }

  /** A string default is quoted as it is: a quote inside it is not escaped. */
  lemma StringDefaultVerbatim(field: string, c: ColumnMetadata)
    requires c.default.Literal? && c.default.v.StrV?
    ensures Render(Clauses(field, c)[|Clauses(field, c)| - 1]) == "DEFAULT '" + c.default.v.s + "'"
  {
    ClausesDefault(field, c);
  }

  /** The column clauses of a table, in metadata order. */
  function Definitions(columns: Dict<string, ColumnMetadata>): (r: seq<string>)
    ensures |r| == |columns|
  {
    seq(|columns|, i requires 0 <= i < |columns| => ColumnDefinition(columns[i].0, columns[i].1))
  }

  const ColumnSeparator := ",\n    "

  /** The column-list loop of `_create_table_for_entity`, then the join. */
  method ColumnsSql(columns: Dict<string, ColumnMetadata>) returns (sql: string)
    ensures sql == Join(Definitions(columns), ColumnSeparator)
  {
    var defs: seq<string> := [];
    for i := 0 to |columns|
      invariant defs == Definitions(columns[..i])
    {
      var (field, meta) := columns[i];
      DefinitionsStep(columns, i);
      defs := defs + [ColumnDefinition(field, meta)];
    }
    assert columns[..|columns|] == columns;
    sql := Join(defs, ColumnSeparator);
  }

  lemma DefinitionsStep(columns: Dict<string, ColumnMetadata>, i: nat)
    requires i < |columns|
    ensures Definitions(columns[..i + 1]) == Definitions(columns[..i]) + [ColumnDefinition(columns[i].0, columns[i].1)]
  {
    var a := Definitions(columns[..i + 1]);
    var b := Definitions(columns[..i]) + [ColumnDefinition(columns[i].0, columns[i].1)];
    forall k | 0 <= k < |a| ensures a[k] == b[k] {
      assert columns[..i + 1][k] == columns[k];
      if k < i { assert columns[..i][k] == columns[k]; }
    }
  }

  /** When no definition holds a comma, splitting the column list on commas gives the definitions back in order. */
  lemma ColumnsSqlSplits(columns: Dict<string, ColumnMetadata>)
    requires columns != []
    requires forall i :: 0 <= i < |columns| ==> !ContainsChar(Definitions(columns)[i], ',')
    ensures var defs := Definitions(columns);
      Split(Join(defs, ColumnSeparator), ',') == [defs[0]] + PadEach("\n    ", defs[1..])
  {
    assert ColumnSeparator == [','] + "\n    ";
    assert !ContainsChar("\n    ", ',');
    SplitJoin(Definitions(columns), ',', "\n    ");
  }
}
