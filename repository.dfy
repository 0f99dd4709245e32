/**
 * Repositories: the CRUD pass-throughs to the gateway, the batch
 * operations, and the automatic query methods of `StarRepository` — name
 * routing, the snake_case to camelCase conversion, query generation, the
 * binding of call arguments to parameter names and the single-entity
 * unwrap.
 *
 * Reflection is abstract: whether an attribute is an implemented method,
 * the origin of a declared return annotation, and the generic bases of the
 * repository class are inputs.
 */
module Repository {
  import opened Wrappers
  import opened Sequences
  import opened Strings
  import opened Dicts
  import opened Values
  import opened Naming
  import opened QueryBuilder
  import opened OrmGateway

  // ---------------------------------------------------------------------
  // `_snake_to_camel_method`

  /** `str.capitalize` on ASCII letters: the first character upper-cased, the rest lower-cased. */
  function Capitalize(w: string): (r: string)
    ensures |r| == |w|
    ensures w != [] ==> r[0] == UpperChar(w[0])
    ensures forall i :: 0 < i < |w| ==> r[i] == LowerChar(w[i])
  {
    if w == [] then [] else [UpperChar(w[0])] + Lower(w[1..])
  }

  function CapitalizeAll(words: seq<string>): string {
    if words == [] then "" else Capitalize(words[0]) + CapitalizeAll(words[1..])
  }

  /** `parts[0] + ''.join(word.capitalize() for word in parts[1:])` over `name.split('_')` */
  function SnakeToCamel(name: string): string {
    var parts := Split(name, '_');
    parts[0] + CapitalizeAll(parts[1..])
  }

  /** Where a character-by-character reading of a snake_case name stands. */
  datatype ScanMode = FirstWord | WordStart | InWord

  /**
   * The camelCase name read character by character: every `'_'` is
   * dropped, the first word is copied, the first character after an
   * underscore is upper-cased and the rest of that word lower-cased.
   */
  function CamelScan(s: string, mode: ScanMode): string
    decreases |s|
  {
    if s == [] then ""
    else if s[0] == '_' then CamelScan(s[1..], WordStart)
    else match mode
      case FirstWord => [s[0]] + CamelScan(s[1..], FirstWord)
      case WordStart => [UpperChar(s[0])] + CamelScan(s[1..], InWord)
      case InWord => [LowerChar(s[0])] + CamelScan(s[1..], InWord)
  }

  /** What a reading in `mode` makes of the word in front of the next underscore. */
  function ScanWord(mode: ScanMode, w: string): string {
    match mode
    case FirstWord => w
    case WordStart => Capitalize(w)
    case InWord => Lower(w)
  }

  lemma {:induction false} CamelScanSplit(s: string, mode: ScanMode)
    ensures CamelScan(s, mode) == ScanWord(mode, Split(s, '_')[0]) + CapitalizeAll(Split(s, '_')[1..])
    decreases |s|
  {
    if s != [] {
      var rest := Split(s[1..], '_');
      var next := if s[0] == '_' then WordStart else if mode == FirstWord then FirstWord else InWord;
      CamelScanSplit(s[1..], next);
      if s[0] == '_' {
        assert CapitalizeAll(rest) == Capitalize(rest[0]) + CapitalizeAll(rest[1..]);
      } else {
        var w := [s[0]] + rest[0];
        assert w[1..] == rest[0];
        if mode == InWord { LowerAppend([s[0]], rest[0]); }
      }
    }
  }

  /**
   * `_snake_to_camel_method` is exactly the character-by-character reading:
   * the underscores go, the first word stays as written, and every later
   * word gets an upper-cased first character and a lower-cased rest.
   */
  lemma SnakeToCamelScan(name: string)
    ensures SnakeToCamel(name) == CamelScan(name, FirstWord)
  {
    CamelScanSplit(name, FirstWord);
  }

  lemma CapitalizeLower(w: string)
    ensures Lower(Capitalize(w)) == Lower(w)
  {
    if w != [] {
      LowerOfUpper(w[0]);
      LowerAppend([UpperChar(w[0])], Lower(w[1..]));
      assert Lower(Lower(w[1..])) == Lower(w[1..]);
      LowerAppend([w[0]], w[1..]);
      assert [w[0]] + w[1..] == w;
    }
  }

  lemma CapitalizeKeepsAbsent(w: string, c: char)
    requires !ContainsChar(w, c) && !IsLower(c) && !IsUpper(c)
    ensures !ContainsChar(Capitalize(w), c)
  {
    if w != [] {
      var r := Capitalize(w);
      forall i | 0 <= i < |r| ensures r[i] != c {
        if i == 0 { assert r[0] == UpperChar(w[0]); } else { assert r[i] == LowerChar(w[i]); }
      }
    }
  }

  lemma {:induction false} CapitalizeAllFacts(words: seq<string>, c: char)
    requires forall k :: 0 <= k < |words| ==> !ContainsChar(words[k], c)
    requires !IsLower(c) && !IsUpper(c)
    ensures !ContainsChar(CapitalizeAll(words), c)
    ensures Lower(CapitalizeAll(words)) == Lower(Concat(words))
  {
    if words != [] {
      CapitalizeAllFacts(words[1..], c);
      CapitalizeKeepsAbsent(words[0], c);
      ContainsCharAppend(Capitalize(words[0]), CapitalizeAll(words[1..]), c);
      CapitalizeLower(words[0]);
      LowerAppend(Capitalize(words[0]), CapitalizeAll(words[1..]));
      LowerAppend(words[0], Concat(words[1..]));
    }
  }

  /**
   * The first word is kept as it is, no `'_'` is left, and apart from the
   * case of the letters the result is the name with its underscores removed.
   */
  lemma SnakeToCamelSpec(name: string)
    ensures StartsWith(SnakeToCamel(name), Split(name, '_')[0])
    ensures !ContainsChar(SnakeToCamel(name), '_')
    ensures Lower(SnakeToCamel(name)) == Lower(RemoveChar(name, '_'))
  {
    var parts := Split(name, '_');
    assert forall k :: 0 <= k < |parts[1..]| ==> parts[1..][k] == parts[k + 1];
    CapitalizeAllFacts(parts[1..], '_');
    ContainsCharAppend(parts[0], CapitalizeAll(parts[1..]), '_');
    LowerAppend(parts[0], CapitalizeAll(parts[1..]));
    LowerAppend(parts[0], Concat(parts[1..]));
    ConcatSplit(name, '_');
    assert (parts[0] + CapitalizeAll(parts[1..]))[..|parts[0]|] == parts[0];
  }

  /** A `*_by_` method name becomes the matching `*By` name. */
  lemma SnakePrefixToCamel(op: QueryOperation, rest: string)
    ensures StartsWith(SnakeToCamel(OperationValue(op) + "_by_" + rest), OperationValue(op) + "By")
  {
    var w := OperationValue(op);
    assert !ContainsChar(w, '_') by {
      match op
      case Find => assert w == "find";
      case Count => assert w == "count";
      case Delete => assert w == "delete";
      case Exists => assert w == "exists";
    }
    assert !ContainsChar("by", '_');
    assert OperationValue(op) + "_by_" + rest == w + ['_'] + ("by" + ['_'] + rest);
    SplitPrefix(w, "by" + ['_'] + rest, '_');
    SplitPrefix("by", rest, '_');
    var tail := Split(rest, '_');
    var parts := [w] + ([("by")] + tail);
    assert parts[1..] == ["by"] + tail;
    assert Capitalize("by") == "By";
    assert CapitalizeAll(parts[1..]) == "By" + CapitalizeAll(tail);
    assert SnakeToCamel(OperationValue(op) + "_by_" + rest) == w + ("By" + CapitalizeAll(tail));
    assert (w + ("By" + CapitalizeAll(tail)))[..|w + "By"|] == w + "By";
  }

  // ---------------------------------------------------------------------
  // `StarRepository.__getattribute__`

  /** What normal attribute lookup finds. */
  datatype Attr = Missing | NotAMethod | BoundMethod(source: string)

  /** `('pass' in source or '...' in source) and len(source.strip().split('\n')) <= 3` */
  predicate IsStub(source: string) {
    (Contains(source, "pass") || Contains(source, "...")) && |Split(Strip(source), '\n')| <= 3
  }

  /** A stub has at most two line breaks once stripped: a longer body always counts as implemented. */
  lemma IsStubLines(source: string)
    ensures IsStub(source) <==> (Contains(source, "pass") || Contains(source, "...")) && CountChar(Strip(source), '\n') <= 2
  {
    SplitCount(Strip(source), '\n');
  }

  /** The attribute is returned as found: a bound method whose source is not a stub. */
  predicate Implemented(a: Attr) {
    a.BoundMethod? && !IsStub(a.source)
  }

  datatype Lookup = NormalLookup | QueryMethodFor(parseName: string, hintName: string)

  const CamelPrefixes: seq<string> := ["findBy", "countBy", "deleteBy", "existsBy"]
  const SnakePrefixes: seq<string> := ["find_by_", "count_by_", "delete_by_", "exists_by_"]

  /** The operations in prefix order. */
  const Operations: seq<QueryOperation> := [Find, QueryBuilder.Count, QueryBuilder.Delete, QueryBuilder.Exists]

  predicate StartsWithAny(s: string, ps: seq<string>) {
    exists k :: 0 <= k < |ps| && StartsWith(s, ps[k])
  }

  /** `__getattribute__`: which name is parsed, and which name the type hints are read from. */
  function Route(name: string, a: Attr): Lookup {
    if Implemented(a) then NormalLookup
    else if StartsWithAny(name, CamelPrefixes) then QueryMethodFor(name, name)
    else if StartsWithAny(name, SnakePrefixes) then QueryMethodFor(SnakeToCamel(name), name)
    else NormalLookup
  }

  lemma CamelPrefixOp(k: nat)
    requires k < 4
    ensures CamelPrefixes[k] == OperationValue(Operations[k]) + "By"
  {
  }

  lemma SnakePrefixOp(k: nat)
    requires k < 4
    ensures SnakePrefixes[k] == OperationValue(Operations[k]) + "_by_"
  {
  }

  /**
   * Implemented methods keep normal lookup; other names are generated iff
   * they carry one of the eight prefixes; and every generated name hands
   * the parser a name with a valid operation prefix, so query generation
   * never fails with an invalid-name error on its operation.
   */
  lemma RouteSpec(name: string, a: Attr)
    ensures Implemented(a) ==> Route(name, a) == NormalLookup
    ensures Route(name, a).QueryMethodFor? <==>
      !Implemented(a) && (StartsWithAny(name, CamelPrefixes) || StartsWithAny(name, SnakePrefixes))
    ensures Route(name, a).QueryMethodFor? ==> (Route(name, a).hintName == name
      && ParseSpec(Route(name, a).parseName) != Err(InvalidMethodName(Route(name, a).parseName)))
  {
    var r := Route(name, a);
    if r.QueryMethodFor? {
      if StartsWithAny(name, CamelPrefixes) {
        var k :| 0 <= k < 4 && StartsWith(name, CamelPrefixes[k]);
        CamelPrefixOp(k);
        PrefixedParses(name, Operations[k]);
      } else {
        var k :| 0 <= k < 4 && StartsWith(name, SnakePrefixes[k]);
        assert r.parseName == SnakeToCamel(name);
        SnakeRouteCamel(name, k);
        PrefixedParses(r.parseName, Operations[k]);
      }
    }
  }

  /** A name with an operation prefix never fails to parse for want of one. */
  lemma PrefixedParses(s: string, op: QueryOperation)
    requires StartsWith(s, OperationValue(op) + "By")
    ensures ParseSpec(s) != Err(InvalidMethodName(s))
  {
    ParseInvalidName(s);
  }

  /** A snake_case prefix becomes the camelCase prefix of the same operation. */
  lemma SnakeRouteCamel(name: string, k: nat)
    requires k < 4 && StartsWith(name, SnakePrefixes[k])
    ensures StartsWith(SnakeToCamel(name), OperationValue(Operations[k]) + "By")
  {
    SnakePrefixOp(k);
    var p := OperationValue(Operations[k]) + "_by_";
    assert name == p + name[|p|..];
    SnakePrefixToCamel(Operations[k], name[|p|..]);
  }

  // ---------------------------------------------------------------------
  // `_create_query_method`

  /** The repository's entity class: its name and the table name recorded by `@Entity`, if any. */
  datatype EntityClass = EntityClass(className: string, metadataTable: Option<string>)

  /** The table from the entity metadata, else the snake_case class name. */
  function TableName(e: EntityClass): string {
    match e.metadataTable
    case Some(t) => t
    case None => CamelToSnake(e.className)
  }

  /** The `__origin__` of a return annotation. */
  datatype Origin = BuiltinList | TypingList | OtherOrigin(name: string) | NoOrigin

  /** What `get_type_hints` yields for the stub: no stub / no `return` hint, a raised error, or a return annotation. */
  datatype ReturnHint = NoReturnHint | HintsRaised | ReturnAnnotation(origin: Origin)

  function IsListReturn(h: ReturnHint): (r: bool)
    ensures !r <==> h.ReturnAnnotation? && h.origin != BuiltinList && h.origin != TypingList
  {
    match h
    case ReturnAnnotation(o) => o == BuiltinList || o == TypingList
    case _ => true
  }

  /** `Optional[X]` is `Union[X, None]`: whatever `X` is, the result is a single entity. */
  lemma OptionalIsSingle()
    ensures !IsListReturn(ReturnAnnotation(OtherOrigin("Union")))
  {
  }

  /** The generated `query_executor`'s fixed data. */
  datatype QueryMethod = QueryMethod(sql: string, paramNames: seq<string>, operation: QueryOperation, isList: bool)

  datatype CreateError = InvalidQueryMethod(message: string) | GenerationFailed(e: GenerateError)

  function InvalidNameMessage(methodName: string): string {
    "Invalid query method name: " + methodName
  }

  function CreateQueryMethodSpec(methodName: string, entity: EntityClass, hint: ReturnHint): Result<QueryMethod, CreateError> {
    match ParseSpec(methodName)
    case Err(_) => Err(InvalidQueryMethod(InvalidNameMessage(methodName)))
    case Ok(q) =>
      match Statement(TableName(entity), q)
      case Err(e) => Err(GenerationFailed(e))
      case Ok((sql, names)) => Ok(QueryMethod(sql, names, q.operation, IsListReturn(hint)))
  }

  method CreateQueryMethod(methodName: string, entity: EntityClass, hint: ReturnHint) returns (r: Result<QueryMethod, CreateError>)
    ensures r == CreateQueryMethodSpec(methodName, entity, hint)
  {
    var parsed := Parse(methodName);
    if parsed.Err? {
      return Err(InvalidQueryMethod(InvalidNameMessage(methodName)));
    }
    var tableName := TableName(entity);
    var generated := Generate(tableName, parsed.value);
    if generated.Err? {
      return Err(GenerationFailed(generated.error));
    }
    var (sql, names) := generated.value;
    return Ok(QueryMethod(sql, names, parsed.value.operation, IsListReturn(hint)));
  }

  /**
   * Every parse failure, the six unresolvable operators included, surfaces
   * as the one invalid-name error, and every parsed name generates: the
   * statement and parameters are the generator's for the entity's table.
   */
  lemma CreateQueryMethodOutcome(methodName: string, entity: EntityClass, hint: ReturnHint)
    ensures var r := CreateQueryMethodSpec(methodName, entity, hint);
      (r.Err? <==> ParseSpec(methodName).Err?)
      && (r.Err? ==> r.error == InvalidQueryMethod("Invalid query method name: " + methodName))
      && (r.Ok? ==> (Statement(TableName(entity), ParseSpec(methodName).value) == Ok((r.value.sql, r.value.paramNames))
        && r.value.operation == ParseSpec(methodName).value.operation
        && r.value.isList == IsListReturn(hint)))
  {
    if ParseSpec(methodName).Ok? {
      ParsedGenerates(methodName, TableName(entity));
    }
  }

  // ---------------------------------------------------------------------
  // `query_executor`

  /** The parameter dictionary built from the call's positional and keyword arguments. */
  function Bind(names: seq<string>, args: seq<Value>, kwargs: Dict<string, Value>): Dict<string, Value>
    decreases |names|
  {
    if names == [] then []
    else
      var i := |names| - 1;
      var prev := Bind(names[..i], args, kwargs);
      if i < |args| then Set(prev, names[i], args[i])
      else match Get(kwargs, names[i])
        case Some(v) => Set(prev, names[i], v)
        case None => prev
  }

  method BindParams(names: seq<string>, args: seq<Value>, kwargs: Dict<string, Value>) returns (params: Dict<string, Value>)
    ensures params == Bind(names, args, kwargs)
  {
    params := [];
    for i := 0 to |names|
      invariant params == Bind(names[..i], args, kwargs)
    {
      assert names[..i + 1][..i] == names[..i];
      if i < |args| {
        params := Set(params, names[i], args[i]);
      } else {
        var kw := Get(kwargs, names[i]);
        if kw.Some? {
          params := Set(params, names[i], kw.value);
        }
      }
    }
    assert names[..|names|] == names;
  }

  /** The value the `i`-th name would be bound to, if it is bound. */
  function Candidate(names: seq<string>, args: seq<Value>, kwargs: Dict<string, Value>, i: nat): Value
    requires i < |names|
  {
    if i < |args| then args[i] else Get(kwargs, names[i]).GetOr(NoneV)
  }

  /** One entry per distinct name. */
  lemma {:induction false} BindValid(names: seq<string>, args: seq<Value>, kwargs: Dict<string, Value>)
    ensures Dicts.Valid(Bind(names, args, kwargs))
    decreases |names|
  {
    if names != [] {
      var i := |names| - 1;
      BindValid(names[..i], args, kwargs);
      SetValid(Bind(names[..i], args, kwargs), names[i], Candidate(names, args, kwargs, i));
    }
  }

  /** Only parameter names become keys. */
  lemma {:induction false} BindKeys(names: seq<string>, args: seq<Value>, kwargs: Dict<string, Value>)
    ensures forall k :: 0 <= k < |Bind(names, args, kwargs)| ==> Bind(names, args, kwargs)[k].0 in names
    decreases |names|
  {
    if names != [] {
      var i := |names| - 1;
      var prev := Bind(names[..i], args, kwargs);
      BindKeys(names[..i], args, kwargs);
      var r := Bind(names, args, kwargs);
      forall k | 0 <= k < |r| ensures r[k].0 in names {
        assert Keys(r)[k] == r[k].0;
        if k < |prev| { assert Keys(prev)[k] == prev[k].0; assert prev[k].0 in names[..i]; }
      }
    }
  }

  /** A name that is not a parameter name is unbound. */
  lemma {:induction false} BindAbsent(names: seq<string>, args: seq<Value>, kwargs: Dict<string, Value>, n: string)
    requires n !in names
    ensures Get(Bind(names, args, kwargs), n) == None
    decreases |names|
  {
    if names != [] {
      var i := |names| - 1;
      var prev := Bind(names[..i], args, kwargs);
      BindAbsent(names[..i], args, kwargs, n);
      GetSet(prev, names[i], Candidate(names, args, kwargs, i), n);
    }
  }

  /** The last occurrence of a name wins: a positional argument there is the bound value. */
  lemma {:induction false} BindPositional(names: seq<string>, args: seq<Value>, kwargs: Dict<string, Value>, i: nat)
    requires i < |names| && i < |args|
    requires names[i] !in names[i + 1..]
    ensures Get(Bind(names, args, kwargs), names[i]) == Some(args[i])
    decreases |names|
  {
    var m := |names| - 1;
    BindStep(names, args, kwargs, names[i]);
    if i == m {
      assert Candidate(names, args, kwargs, m) == args[i];
    } else {
      var pre := names[..m];
      assert names[m] == names[i + 1..][m - i - 1];
      assert pre[i + 1..] == names[i + 1..m];
      assert pre[i] == names[i];
      BindPositional(pre, args, kwargs, i);
    }
  }

  /** The last name decides its own binding, when it is bound; every other name is looked up in what the names before it bound. */
  lemma BindStep(names: seq<string>, args: seq<Value>, kwargs: Dict<string, Value>, q: string)
    requires names != []
    ensures var m := |names| - 1;
      Get(Bind(names, args, kwargs), q)
      == if q == names[m] && (m < |args| || Get(kwargs, names[m]).Some?) then Some(Candidate(names, args, kwargs, m))
         else Get(Bind(names[..m], args, kwargs), q)
  {
    var m := |names| - 1;
    var prev := Bind(names[..m], args, kwargs);
    if m < |args| || Get(kwargs, names[m]).Some? {
      GetSet(prev, names[m], Candidate(names, args, kwargs, m), q);
    }
  }

  /** A name that no positional argument reaches takes the keyword argument of that name, if any. */
  lemma {:induction false} BindKeyword(names: seq<string>, args: seq<Value>, kwargs: Dict<string, Value>, n: string)
    requires n in names
    requires forall j :: 0 <= j < |names| && names[j] == n ==> j >= |args|
    ensures Get(Bind(names, args, kwargs), n) == Get(kwargs, n)
    decreases |names|
  {
    var m := |names| - 1;
    var prev := Bind(names[..m], args, kwargs);
    if n in names[..m] {
      assert forall j :: 0 <= j < m ==> names[..m][j] == names[j];
      BindKeyword(names[..m], args, kwargs, n);
    } else {
      BindAbsent(names[..m], args, kwargs, n);
    }
    if names[m] == n {
      assert m >= |args|;
      match Get(kwargs, n)
      case Some(v) => GetSet(prev, n, v, n);
      case None =>
    } else if Get(kwargs, names[m]).Some? {
      GetSet(prev, names[m], Get(kwargs, names[m]).value, n);
    }
  }

  function ToSet(s: seq<string>): set<string> {
    set x | x in s
  }

  lemma {:induction false} DistinctCard(s: seq<string>)
    requires forall i, j :: 0 <= i < j < |s| ==> s[i] != s[j]
    ensures |ToSet(s)| == |s|
  {
    if s != [] {
      DistinctCard(s[1..]);
      assert ToSet(s) == {s[0]} + ToSet(s[1..]);
      assert s[0] !in ToSet(s[1..]);
    }
  }

  lemma {:induction false} DuplicateCard(s: seq<string>, i: nat, j: nat)
    requires i < j < |s| && s[i] == s[j]
    ensures |ToSet(s)| < |s|
  {
    assert ToSet(s) == {s[0]} + ToSet(s[1..]);
    if i == 0 {
      assert s[0] == s[1..][j - 1];
      assert ToSet(s) == ToSet(s[1..]);
      SetCardAtMost(s[1..]);
    } else {
      DuplicateCard(s[1..], i - 1, j - 1);
    }
  }

  lemma {:induction false} SetCardAtMost(s: seq<string>)
    ensures |ToSet(s)| <= |s|
  {
    if s != [] {
      SetCardAtMost(s[1..]);
      assert ToSet(s) == {s[0]} + ToSet(s[1..]);
    }
  }

  lemma SubsetCard(a: set<string>, b: set<string>)
    requires a <= b
    ensures |a| <= |b|
  {
    assert b == a + (b - a);
  }

  /**
   * When a parameter name repeats (a `Between` condition, or one field used
   * twice), the dictionary has fewer entries than the statement has
   * placeholders, so `execute_query` leaves at least one `?` unreplaced.
   */
  lemma RepeatedNameLeavesPlaceholder(sql: string, names: seq<string>, args: seq<Value>, kwargs: Dict<string, Value>, i: nat, j: nat)
    requires i < j < |names| && names[i] == names[j]
    requires CountChar(sql, '?') == |names| && PlainNames(names)
    ensures ContainsChar(Rewrite(sql, Keys(Bind(names, args, kwargs))), '?')
  {
    var d := Bind(names, args, kwargs);
    var ks := Keys(d);
    BindValid(names, args, kwargs);
    BindKeys(names, args, kwargs);
    DistinctCard(ks);
    SubsetCard(ToSet(ks), ToSet(names));
    DuplicateCard(names, i, j);
    assert PlainNames(ks) by {
      forall k | 0 <= k < |ks| ensures !ContainsChar(ks[k], '?') {
        var t :| 0 <= t < |names| && names[t] == ks[k];
      }
    }
    RewriteLeavesPlaceholder(sql, ks);
  }

  /** The concrete case: `findByAgeBetween` on a table and field without `?`. */
  lemma BetweenLeavesPlaceholder(tableName: string, field: string, args: seq<Value>, kwargs: Dict<string, Value>)
    requires !ContainsChar(tableName, '?') && !ContainsChar(field, '?')
    ensures var q := ParsedQuery(Find, [QueryPart(field, Between, None)], []);
      Statement(tableName, q).Ok? && Statement(tableName, q).value.1 == [field, field]
      && ContainsChar(Rewrite(Statement(tableName, q).value.0, Keys(Bind([field, field], args, kwargs))), '?')
  {
    var q := ParsedQuery(Find, [QueryPart(field, Between, None)], []);
    StatementParams(tableName, q);
    assert ParamsOf(q.parts) == [field, field];
    StatementPlaceholders(tableName, q);
    RepeatedNameLeavesPlaceholder(Statement(tableName, q).value.0, [field, field], args, kwargs, 0, 1);
  }

  /** What the executor returns to the caller. */
  datatype ExecutorResult = Direct(result: QueryResult) | Single(entity: Option<Entity>)

  /** For `FIND` with a single-entity return, the first entity or None; everything else unchanged. */
  function Unwrap(op: QueryOperation, isList: bool, result: QueryResult): (r: ExecutorResult)
    ensures r.Single? <==> op == Find && !isList && result.Entities?
    ensures r.Single? ==> r.entity == if result.items == [] then None else Some(result.items[0])
    ensures r.Direct? ==> r.result == result
  {
    if op == Find && !isList && result.Entities? then
      Single(if result.items == [] then None else Some(result.items[0]))
    else Direct(result)
  }

  /** `query_executor(*args, **kwargs)` on the repository's gateway. */
  method QueryExecutor(g: Gateway, qm: QueryMethod, args: seq<Value>, kwargs: Dict<string, Value>,
                       cols: seq<string>, rows: seq<seq<Value>>, scalar: int) returns (r: ExecutorResult)
    requires g.Valid()
    modifies g
    ensures g.State() == ExecuteSpec(old(g.State()), qm.sql, Bind(qm.paramNames, args, kwargs), qm.operation)
    ensures g.Valid()
    ensures r == Unwrap(qm.operation, qm.isList, ExecuteResult(qm.operation, cols, rows, scalar))
  {
    var params := BindParams(qm.paramNames, args, kwargs);
    BindValid(qm.paramNames, args, kwargs);
    var result := g.ExecuteQuery(qm.sql, params, qm.operation, cols, rows, scalar);
    return Unwrap(qm.operation, qm.isList, result);
  }

  // ---------------------------------------------------------------------
  // `_extract_entity_class` and the `StarRepository` constructor

  /** An entry of `__orig_bases__`: whether it has both `__origin__` and `__args__`, and the arguments. */
  datatype Base = Base(isGeneric: bool, args: seq<string>)

  predicate NamesEntity(b: Base) {
    b.isGeneric && b.args != []
  }

  function ExtractError(className: string): string {
    "Could not determine entity class for " + className
      + ". Please specify it as a generic parameter: class MyRepo(StarRepository[MyEntity])"
  }

  function ExtractSpec(bases: seq<Base>, className: string): Result<string, string> {
    if bases == [] then Err(ExtractError(className))
    else if NamesEntity(bases[0]) then Ok(bases[0].args[0])
    else ExtractSpec(bases[1..], className)
  }

  method ExtractEntityClass(bases: seq<Base>, className: string) returns (r: Result<string, string>)
    ensures r == ExtractSpec(bases, className)
  {
    var i := 0;
    while i < |bases|
      invariant i <= |bases|
      invariant ExtractSpec(bases, className) == ExtractSpec(bases[i..], className)
    {
      if NamesEntity(bases[i]) {
        return Ok(bases[i].args[0]);
      }
      assert bases[i..][1..] == bases[i + 1..];
      i := i + 1;
    }
    return Err(ExtractError(className));
  }

  /** The first generic base with arguments names the entity. */
  lemma {:induction false} ExtractFirstGeneric(bases: seq<Base>, className: string, i: nat)
    requires i < |bases| && NamesEntity(bases[i])
    requires forall j :: 0 <= j < i ==> !NamesEntity(bases[j])
    ensures ExtractSpec(bases, className) == Ok(bases[i].args[0])
  {
    if i > 0 {
      assert !NamesEntity(bases[0]);
      assert bases[1..][i - 1] == bases[i];
      assert forall j :: 0 <= j < i - 1 ==> bases[1..][j] == bases[j + 1];
      ExtractFirstGeneric(bases[1..], className, i - 1);
    }
  }

  /** With no generic base that has arguments, the error names the repository class. */
  lemma {:induction false} ExtractNoGeneric(bases: seq<Base>, className: string)
    requires forall j :: 0 <= j < |bases| ==> !NamesEntity(bases[j])
    ensures ExtractSpec(bases, className) == Err(ExtractError(className))
  {
    if bases != [] {
      assert !NamesEntity(bases[0]);
      assert forall j :: 0 <= j < |bases| - 1 ==> bases[1..][j] == bases[j + 1];
      ExtractNoGeneric(bases[1..], className);
    }
  }

  /** `StarRepository.__init__`: an explicit entity class wins; otherwise it is extracted from the bases. */
  function StarEntityClass(given: Option<string>, bases: seq<Base>, className: string): (r: Result<string, string>)
    ensures given.Some? ==> r == Ok(given.value)
  {
    match given
    case Some(c) => Ok(c)
    case None => ExtractSpec(bases, className)
  }

  // ---------------------------------------------------------------------
  // The `_gateway` property

  /** `Repository._gateway_instance`, filled on first use of `_gateway`. */
  class GatewayCache {
    var instance: Option<Gateway>

    constructor ()
      ensures instance == None
    {
      instance := None;
    }

    /** Once resolved, later `set_orm_gateway` calls are not seen by this repository. */
    method Resolve(reg: Registry) returns (r: Result<Gateway, string>)
      modifies this
      ensures old(instance).Some? ==> r == Ok(old(instance).value) && instance == old(instance)
      ensures old(instance).None? && reg.gateway.None? ==> r == Err(NotInitialized) && instance == None
      ensures old(instance).None? && reg.gateway.Some? ==> r == Ok(reg.gateway.value) && instance == reg.gateway
    {
      if instance.None? {
        var found := reg.GetGateway();
        if found.Err? {
          return found;
        }
        instance := Some(found.value);
      }
      return Ok(instance.value);
    }
  }

  // ---------------------------------------------------------------------
  // CRUD and batch operations on the resolved gateway

  method Save(g: Gateway, entity: Entity) returns (r: Entity)
    requires g.Valid()
    modifies g
    ensures r == entity
    ensures g.State() == SaveSpec(old(g.State()))
    ensures g.Valid()
  {
    r := g.Save(entity);
  }

  method FindById(g: Gateway, stored: Option<Entity>) returns (r: Option<Entity>)
    requires g.Valid()
    modifies g
    ensures r == stored
    ensures g.State() == ReadSpec(old(g.State()), GetById)
    ensures g.Valid()
  {
    r := g.FindById(stored);
  }

  method FindAll(g: Gateway, all: seq<Entity>) returns (r: seq<Entity>)
    requires g.Valid()
    modifies g
    ensures r == all
    ensures g.State() == ReadSpec(old(g.State()), SelectAll)
    ensures g.Valid()
  {
    r := g.FindAll(all);
  }

  method Delete(g: Gateway, entity: Entity)
    requires g.Valid()
    modifies g
    ensures g.State() == DeleteSpec(old(g.State()))
    ensures g.Valid()
  {
    g.Delete(entity);
  }

  method Update(g: Gateway, entity: Entity, merged: Entity) returns (r: Entity)
    requires g.Valid()
    modifies g
    ensures r == merged
    ensures g.State() == UpdateSpec(old(g.State()))
    ensures g.Valid()
  {
    r := g.Update(entity, merged);
  }

  method Exists(g: Gateway, stored: Option<Entity>) returns (r: bool)
    requires g.Valid()
    modifies g
    ensures r <==> stored.Some?
    ensures g.State() == ReadSpec(old(g.State()), GetById)
    ensures g.Valid()
  {
    r := g.Exists(stored);
  }

  /** `delete_by_id`: look the entity up, and delete it only if it was found. */
  function DeleteByIdSpec(s: GatewayState, stored: Option<Entity>): GatewayState {
    var s1 := ReadSpec(s, GetById);
    if stored.Some? then DeleteSpec(s1) else s1
  }

  method DeleteById(g: Gateway, stored: Option<Entity>) returns (deleted: bool)
    requires g.Valid()
    modifies g
    ensures deleted == stored.Some?
    ensures g.State() == DeleteByIdSpec(old(g.State()), stored)
    ensures g.Valid()
  {
    var entity := FindById(g, stored);
    if entity.Some? {
      Delete(g, entity.value);
      return true;
    }
    return false;
  }

  lemma DeleteOnce(s: GatewayState)
    ensures Occurrences(DeleteSpec(s).log, DeleteEntity) == Occurrences(s.log, DeleteEntity) + 1
  {
    OccurrencesAppend(s.log, OpenSession, DeleteEntity);
    var w := WithSession(s).log + [DeleteEntity];
    OccurrencesAppend(WithSession(s).log, DeleteEntity, DeleteEntity);
    OccurrencesAppend(w, CommitSession, DeleteEntity);
  }

  lemma ReadNoDelete(s: GatewayState, a: Action)
    requires a != DeleteEntity
    ensures Occurrences(ReadSpec(s, a).log, DeleteEntity) == Occurrences(s.log, DeleteEntity)
  {
    OccurrencesAppend(s.log, OpenSession, DeleteEntity);
    OccurrencesAppend(WithSession(s).log, a, DeleteEntity);
  }

  /** `delete_by_id` deletes exactly once if the entity is found, and not at all otherwise. */
  lemma DeleteByIdDeletesOnce(s: GatewayState, stored: Option<Entity>)
    ensures Occurrences(DeleteByIdSpec(s, stored).log, DeleteEntity)
      == Occurrences(s.log, DeleteEntity) + (if stored.Some? then 1 else 0)
  {
    ReadNoDelete(s, GetById);
    DeleteOnce(ReadSpec(s, GetById));
  }

  /** `count`: the length of `find_all()`. */
  method Count(g: Gateway, all: seq<Entity>) returns (n: nat)
    requires g.Valid()
    modifies g
    ensures n == |all|
    ensures g.State() == ReadSpec(old(g.State()), SelectAll)
    ensures g.Valid()
  {
    var entities := FindAll(g, all);
    return |entities|;
  }

  /** `f` applied `n` times, starting from `s`. */
  function Iterate(f: GatewayState -> GatewayState, s: GatewayState, n: nat): GatewayState {
    if n == 0 then s else f(Iterate(f, s, n - 1))
  }

  /** A step that records `a` once, taken `n` times, records it `n` times. */
  lemma {:induction false} IterateCount(f: GatewayState -> GatewayState, s: GatewayState, n: nat, a: Action)
    requires forall t :: Occurrences(f(t).log, a) == Occurrences(t.log, a) + 1
    ensures Occurrences(Iterate(f, s, n).log, a) == Occurrences(s.log, a) + n
  {
    if n > 0 {
      IterateCount(f, s, n - 1, a);
      assert Occurrences(f(Iterate(f, s, n - 1)).log, a) == Occurrences(Iterate(f, s, n - 1).log, a) + 1;
    }
  }

  lemma IterateStep(f: GatewayState -> GatewayState, s: GatewayState, n: nat)
    ensures Iterate(f, s, n + 1) == f(Iterate(f, s, n))
  {
  }

  /** `n` saves in a row. */
  function SaveMany(s: GatewayState, n: nat): GatewayState {
    Iterate(SaveSpec, s, n)
  }

  method SaveAll(g: Gateway, entities: seq<Entity>) returns (result: seq<Entity>)
    requires g.Valid()
    modifies g
    ensures result == entities
    ensures g.State() == SaveMany(old(g.State()), |entities|)
    ensures g.Valid()
  {
    ghost var s0 := g.State();
    result := [];
    for i := 0 to |entities|
      invariant g.State() == SaveMany(s0, i)
      invariant g.Valid()
      invariant result == entities[..i]
    {
      IterateStep(SaveSpec, s0, i);
      var saved := Save(g, entities[i]);
      TakeSnoc(entities, i);
      result := result + [saved];
    }
    assert entities[..|entities|] == entities;
  }

  /** Each save adds the entity exactly once, so `save_all` adds one per input. */
  lemma SaveManyAdds(s: GatewayState, n: nat)
    ensures Occurrences(SaveMany(s, n).log, AddEntity) == Occurrences(s.log, AddEntity) + n
  {
    forall t { SaveAddsOnce(t); }
    IterateCount(SaveSpec, s, n, AddEntity);
  }

  /** Opening the session and auto-committing record no write. */
  lemma SessionCallsNoWrite(s: GatewayState, a: Action)
    requires a != OpenSession && a != CommitSession
    ensures Occurrences(WithSession(s).log, a) == Occurrences(s.log, a)
    ensures Occurrences(AutoCommitSpec(s).log, a) == Occurrences(s.log, a)
  {
    OccurrencesAppend(s.log, OpenSession, a);
    OccurrencesAppend(WithSession(s).log, CommitSession, a);
  }

  lemma SaveAddsOnce(t: GatewayState)
    ensures Occurrences(SaveSpec(t).log, AddEntity) == Occurrences(t.log, AddEntity) + 1
  {
    var s0 := WithSession(t);
    var s1 := Log1(s0, AddEntity);
    var s2 := Log1(s1, Flush);
    var s3 := Log1(s2, Refresh);
    SessionCallsNoWrite(t, AddEntity);
    OccurrencesAppend(s0.log, AddEntity, AddEntity);
    OccurrencesAppend(s1.log, Flush, AddEntity);
    OccurrencesAppend(s2.log, Refresh, AddEntity);
    SessionCallsNoWrite(s3, AddEntity);
  }

  /** `n` deletes in a row. */
  function DeleteMany(s: GatewayState, n: nat): GatewayState {
    Iterate(DeleteSpec, s, n)
  }

  method DeleteAll(g: Gateway, entities: seq<Entity>)
    requires g.Valid()
    modifies g
    ensures g.State() == DeleteMany(old(g.State()), |entities|)
    ensures g.Valid()
  {
    for i := 0 to |entities|
      invariant g.State() == DeleteMany(old(g.State()), i)
      invariant g.Valid()
    {
      IterateStep(DeleteSpec, old(g.State()), i);
      Delete(g, entities[i]);
    }
  }

  lemma DeleteManyDeletes(s: GatewayState, n: nat)
    ensures Occurrences(DeleteMany(s, n).log, DeleteEntity) == Occurrences(s.log, DeleteEntity) + n
  {
    forall t { DeleteOnce(t); }
    IterateCount(DeleteSpec, s, n, DeleteEntity);
  }

  /** `delete_all_by_id`, given what each lookup finds. */
  function DeleteAllByIdSpec(s: GatewayState, found: seq<Option<Entity>>): GatewayState
    decreases |found|
  {
    if found == [] then s else DeleteByIdSpec(DeleteAllByIdSpec(s, found[..|found| - 1]), found[|found| - 1])
  }

  method DeleteAllById(g: Gateway, found: seq<Option<Entity>>)
    requires g.Valid()
    modifies g
    ensures g.State() == DeleteAllByIdSpec(old(g.State()), found)
    ensures g.Valid()
  {
    for i := 0 to |found|
      invariant g.Valid() && g.State() == DeleteAllByIdSpec(old(g.State()), found[..i])
    {
      assert found[..i + 1][..i] == found[..i];
      var _ := DeleteById(g, found[i]);
    }
    assert found[..|found|] == found;
  }

  function FoundCount(found: seq<Option<Entity>>): nat {
    if found == [] then 0 else FoundCount(found[..|found| - 1]) + (if found[|found| - 1].Some? then 1 else 0)
  }

  /** `delete_all_by_id` deletes once per id that is found. */
  lemma {:induction false} DeleteAllByIdDeletes(s: GatewayState, found: seq<Option<Entity>>)
    ensures Occurrences(DeleteAllByIdSpec(s, found).log, DeleteEntity) == Occurrences(s.log, DeleteEntity) + FoundCount(found)
    decreases |found|
  {
    if found != [] {
      DeleteAllByIdDeletes(s, found[..|found| - 1]);
      DeleteByIdDeletesOnce(DeleteAllByIdSpec(s, found[..|found| - 1]), found[|found| - 1]);
    }
  }
}
