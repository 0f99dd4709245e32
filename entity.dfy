/**
 * Entity metadata: the `@Entity` decorator, the column-metadata factories,
 * the Python-to-SQLAlchemy type mapping, and the two `BaseEntity` methods
 * that consult the metadata (`__init__` defaulting and `to_dict`).
 *
 * Reflection is replaced by inputs: the class's type hints (in order), what
 * `getattr(cls, name)` yields for each visible name, and the keys of the
 * class's own `__dict__`. A `ColumnMetadata` is a value here, so two fields
 * sharing one metadata object are not modelled.
 */
module Entities {
  import opened Wrappers
  import opened Sequences
  import opened Strings
  import opened Dicts
  import opened Values
  import opened Naming

  /** The Python types a column can be declared with. */
  datatype PyType = IntType | StrType | BoolType | DateTimeType | FloatType | OtherType(name: string)

  /** A column default: none (`None`), a plain value, or a callable, given by what calling it returns. */
  datatype Default = NoDefault | Literal(v: Value) | Factory(produces: Value)

  /** `default is not None` */
  predicate HasDefault(d: Default) {
    d.Factory? || (d.Literal? && d.v != NoneV)
  }

  /** The value a default supplies: the callable's result or the value itself. */
  function DefaultValue(d: Default): Value
    requires HasDefault(d)
  {
    if d.Factory? then d.produces else d.v
  }

  datatype ColumnMetadata = ColumnMetadata(
    name: Option<string>,
    typ: Option<PyType>,
    nullable: bool,
    unique: bool,
    default: Default,
    length: Option<int>,
    primaryKey: bool,
    autoIncrement: bool)

  /** `ColumnMetadata()` with every constructor default. */
  const DefaultColumn := ColumnMetadata(None, None, true, false, NoDefault, None, false, false)

  datatype GenerationType = Auto | Identity | Sequence | Uuid

  /** `Column(...)`: the given settings, never a key, never auto-incremented. */
  function Column(name: Option<string>, typ: Option<PyType>, nullable: bool, unique: bool,
                  default: Default, length: Option<int>): (c: ColumnMetadata)
    ensures !c.primaryKey && !c.autoIncrement
    ensures c.name == name && c.typ == typ && c.nullable == nullable && c.unique == unique
    ensures c.default == default && c.length == length
  {
    DefaultColumn.(name := name, typ := typ, nullable := nullable, unique := unique,
                   default := default, length := length)
  }

  /** `Id()`: a primary key, otherwise all defaults. */
  function Id(): (c: ColumnMetadata)
    ensures c.primaryKey && !c.autoIncrement
    ensures c.name.None? && c.typ.None? && c.nullable && !c.unique && c.default == NoDefault
  {
    DefaultColumn.(primaryKey := true)
  }

  /** `GeneratedValue(strategy)`: an auto-incremented primary key; the strategy is ignored. */
  function GeneratedValue(strategy: GenerationType): (c: ColumnMetadata)
    ensures c.primaryKey && c.autoIncrement
    ensures c.name.None? && c.typ.None? && c.nullable && !c.unique && c.default == NoDefault
    ensures c == Id().(autoIncrement := true)
  {
    DefaultColumn.(autoIncrement := true, primaryKey := true)
  }

  /** The SQLAlchemy column types `_get_sa_type` chooses from. */
  datatype SaType = Integer | String | Boolean | DateTime

  /** `_get_sa_type`: four types map to their own column type, everything else is a string. */
  function SaTypeOf(t: PyType): (r: SaType)
    ensures r == Integer <==> t == IntType
    ensures r == Boolean <==> t == BoolType
    ensures r == DateTime <==> t == DateTimeType
    ensures r == String <==> t !in {IntType, BoolType, DateTimeType}
  {
    match t
    case IntType => Integer
    case StrType => String
    case BoolType => Boolean
    case DateTimeType => DateTime
    case _ => String
  }

  /** The table name: an explicit `table_name` verbatim, else the snake_case of the class name. */
  function TableNameFor(explicit: Option<string>, className: string): (r: string)
    ensures explicit.Some? ==> r == explicit.value
    ensures explicit.None? ==> r == CamelToSnake(className)
    ensures explicit.None? ==> HasNoUpper(r) && UnderscoresInserted(r, Lower(className))
  {
    CamelToSnakeInsertsUnderscores(className);
    if explicit.Some? then explicit.value else CamelToSnake(className)
  }

  // ---------------------------------------------------------------------
  // The decorator's metadata loops

  /** What `getattr(cls, name)` yields: a column's metadata or anything else. */
  datatype Attr = ColumnAttr(meta: ColumnMetadata) | OtherAttr

  /** The metadata `getattr(cls, f)` holds, if it is a `ColumnMetadata`. */
  function ColumnAt(attrs: Dict<string, Attr>, f: string): Option<ColumnMetadata> {
    var a := Get(attrs, f);
    if a.Some? && a.value.ColumnAttr? then Some(a.value.meta) else None
  }

  /** `EntityMetadata` after the decorator: table name, columns by field name, primary key field. */
  datatype EntityMetadata = EntityMetadata(tableName: string, columns: Dict<string, ColumnMetadata>, primaryKey: Option<string>)

  /** The positional and keyword arguments of one `SAColumn(...)`. */
  datatype SaColumn = SaColumn(name: string, typ: SaType, nullable: bool, unique: bool, primaryKey: bool, autoIncrement: bool)

  /** `field_value.name or field_name`: an absent or empty name falls back to the field name. */
  function NameOr(name: Option<string>, field: string): string {
    if name.None? || name.value == "" then field else name.value
  }

  /** The metadata as registered: name defaulted to the field, type defaulted to `fallback`. */
  function Filled(c: ColumnMetadata, field: string, fallback: PyType): (r: ColumnMetadata)
    ensures r.name.Some? && r.typ.Some?
  {
    c.(name := Some(NameOr(c.name, field)), typ := Some(c.typ.GetOr(fallback)))
  }

  /** The first loop: each type-hinted field whose class attribute is a `ColumnMetadata`, in hint order. */
  function AnnotatedRegs(hints: seq<(string, PyType)>, attrs: Dict<string, Attr>): seq<(string, ColumnMetadata)>
    decreases |hints|
  {
    if hints == [] then []
    else
      var (f, t) := hints[|hints| - 1];
      var prior := AnnotatedRegs(hints[..|hints| - 1], attrs);
      match ColumnAt(attrs, f)
      case Some(c) => prior + [(f, Filled(c, f, t))]
      case _ => prior
  }

  function Fields(regs: seq<(string, ColumnMetadata)>): set<string> {
    set i | 0 <= i < |regs| :: regs[i].0
  }

  /** The second loop: each own class attribute not already processed and not `_`-prefixed whose value is a `ColumnMetadata`; its type defaults to `str`. */
  function OwnRegs(own: seq<string>, attrs: Dict<string, Attr>, processed: set<string>): seq<(string, ColumnMetadata)>
    decreases |own|
  {
    if own == [] then []
    else
      var f := own[|own| - 1];
      var prior := OwnRegs(own[..|own| - 1], attrs, processed);
      if StartsWith(f, "_") || f in processed then prior
      else match ColumnAt(attrs, f)
        case Some(c) => prior + [(f, Filled(c, f, StrType))]
        case _ => prior
  }

  /** Every registration in processing order. */
  function Registrations(hints: seq<(string, PyType)>, attrs: Dict<string, Attr>, own: seq<string>): seq<(string, ColumnMetadata)> {
    var first := AnnotatedRegs(hints, attrs);
    first + OwnRegs(own, attrs, Fields(first))
  }

  /** `metadata.columns` after the registrations, in order. */
  function ColumnsOf(regs: seq<(string, ColumnMetadata)>): Dict<string, ColumnMetadata>
    decreases |regs|
  {
    if regs == [] then [] else
      var (f, c) := regs[|regs| - 1];
      Set(ColumnsOf(regs[..|regs| - 1]), f, c)
  }

  /** `metadata.primary_key` after the registrations: the field of the last key column. */
  function LastKey(regs: seq<(string, ColumnMetadata)>): Option<string>
    decreases |regs|
  {
    if regs == [] then None
    else if regs[|regs| - 1].1.primaryKey then Some(regs[|regs| - 1].0)
    else LastKey(regs[..|regs| - 1])
  }

  /** The `SAColumn` built from a registered column (whose name and type are always set). */
  function SaColumnOf(c: ColumnMetadata): SaColumn {
    SaColumn(c.name.GetOr(""), SaTypeOf(c.typ.GetOr(StrType)), c.nullable, c.unique, c.primaryKey, c.autoIncrement)
  }

  /** The SQLAlchemy columns after the registrations, in order. */
  function SaColumnsOf(regs: seq<(string, ColumnMetadata)>): seq<SaColumn> {
    seq(|regs|, i requires 0 <= i < |regs| => SaColumnOf(regs[i].1))
  }

  lemma AnnotatedRegsFilled(hints: seq<(string, PyType)>, attrs: Dict<string, Attr>)
    ensures forall i :: 0 <= i < |AnnotatedRegs(hints, attrs)| ==>
      AnnotatedRegs(hints, attrs)[i].1.name.Some? && AnnotatedRegs(hints, attrs)[i].1.typ.Some?
    decreases |hints|
  {
    if hints != [] {
      AnnotatedRegsFilled(hints[..|hints| - 1], attrs);
    }
  }

  lemma OwnRegsFilled(own: seq<string>, attrs: Dict<string, Attr>, processed: set<string>)
    ensures forall i :: 0 <= i < |OwnRegs(own, attrs, processed)| ==>
      OwnRegs(own, attrs, processed)[i].1.name.Some? && OwnRegs(own, attrs, processed)[i].1.typ.Some?
    decreases |own|
  {
    if own != [] {
      OwnRegsFilled(own[..|own| - 1], attrs, processed);
    }
  }

  lemma RegistrationsFilled(hints: seq<(string, PyType)>, attrs: Dict<string, Attr>, own: seq<string>)
    ensures forall i :: 0 <= i < |Registrations(hints, attrs, own)| ==>
      Registrations(hints, attrs, own)[i].1.name.Some? && Registrations(hints, attrs, own)[i].1.typ.Some?
  {
    var first := AnnotatedRegs(hints, attrs);
    AnnotatedRegsFilled(hints, attrs);
    OwnRegsFilled(own, attrs, Fields(first));
  }

  /** The decorator's running state agrees with the registrations made so far. */
  ghost predicate Tracks(regs: seq<(string, ColumnMetadata)>, columns: Dict<string, ColumnMetadata>,
                         primary: Option<string>, sa: seq<SaColumn>) {
    columns == ColumnsOf(regs) && primary == LastKey(regs) && sa == SaColumnsOf(regs)
  }

  /** One registration: `metadata.columns[f] = c`, the key field if `c` is a key, and its `SAColumn`. */
  method Register(columns: Dict<string, ColumnMetadata>, primary: Option<string>, sa: seq<SaColumn>,
                  ghost regs: seq<(string, ColumnMetadata)>, f: string, c: ColumnMetadata)
    returns (columns': Dict<string, ColumnMetadata>, primary': Option<string>, sa': seq<SaColumn>)
    requires Tracks(regs, columns, primary, sa)
    ensures Tracks(regs + [(f, c)], columns', primary', sa')
  {
    columns' := Set(columns, f, c);
    primary' := if c.primaryKey then Some(f) else primary;
    sa' := sa + [SaColumnOf(c)];
    assert (regs + [(f, c)])[..|regs|] == regs;
  }

  /** One more hint adds at most its own registration to the first loop's. */
  lemma AnnotatedRegsStep(hints: seq<(string, PyType)>, attrs: Dict<string, Attr>, i: nat)
    requires i < |hints|
    ensures var (f, t) := hints[i];
      AnnotatedRegs(hints[..i + 1], attrs)
      == if ColumnAt(attrs, f).Some? then AnnotatedRegs(hints[..i], attrs) + [(f, Filled(ColumnAt(attrs, f).value, f, t))]
         else AnnotatedRegs(hints[..i], attrs)
  {
    assert hints[..i + 1][..i] == hints[..i];
  }

  /** What the second loop registers for the own attribute `f`: nothing, or its filled-in column. */
  function OwnReg(f: string, attrs: Dict<string, Attr>, processed: set<string>): seq<(string, ColumnMetadata)> {
    if StartsWith(f, "_") || f in processed || ColumnAt(attrs, f).None? then []
    else [(f, Filled(ColumnAt(attrs, f).value, f, StrType))]
  }

  /** One more own attribute adds its own registration, if any, to the second loop's. */
  lemma OwnRegsStep(own: seq<string>, attrs: Dict<string, Attr>, processed: set<string>, j: nat)
    requires j < |own|
    ensures OwnRegs(own[..j + 1], attrs, processed) == OwnRegs(own[..j], attrs, processed) + OwnReg(own[j], attrs, processed)
  {
    assert own[..j + 1][..j] == own[..j];
  }

  lemma FieldsSnoc(regs: seq<(string, ColumnMetadata)>, f: string, c: ColumnMetadata)
    ensures Fields(regs + [(f, c)]) == Fields(regs) + {f}
  {
    var r := regs + [(f, c)];
    assert r[|regs|].0 == f;
    forall g | g in Fields(r) ensures g in Fields(regs) + {f} {
      var i :| 0 <= i < |r| && r[i].0 == g;
      if i < |regs| { assert regs[i] == r[i]; }
    }
    forall g | g in Fields(regs) ensures g in Fields(r) {
      var i :| 0 <= i < |regs| && regs[i].0 == g;
      assert r[i] == regs[i];
    }
  }

  /** The first loop, over the type hints in order. */
  method RegisterAnnotated(hints: seq<(string, PyType)>, attrs: Dict<string, Attr>)
    returns (columns: Dict<string, ColumnMetadata>, primary: Option<string>, processed: set<string>, sa: seq<SaColumn>)
    ensures Tracks(AnnotatedRegs(hints, attrs), columns, primary, sa)
    ensures processed == Fields(AnnotatedRegs(hints, attrs))
  {
    columns, primary, processed, sa := [], None, {}, [];
    ghost var regs: seq<(string, ColumnMetadata)> := [];
    for i := 0 to |hints|
      invariant regs == AnnotatedRegs(hints[..i], attrs)
      invariant Tracks(regs, columns, primary, sa) && processed == Fields(regs)
    {
      var (f, t) := hints[i];
      AnnotatedRegsStep(hints, attrs, i);
      match ColumnAt(attrs, f)
      case Some(c) =>
        columns, primary, sa := Register(columns, primary, sa, regs, f, Filled(c, f, t));
        processed := processed + {f};
        FieldsSnoc(regs, f, Filled(c, f, t));
        regs := regs + [(f, Filled(c, f, t))];
      case _ =>
    }
    assert hints[..|hints|] == hints;
  }

  /** One iteration of the second loop, for the own attribute `f`. */
  method RegisterOwnAttribute(f: string, attrs: Dict<string, Attr>, processed: set<string>, ghost regs: seq<(string, ColumnMetadata)>,
                              columns0: Dict<string, ColumnMetadata>, primary0: Option<string>, sa0: seq<SaColumn>)
    returns (columns: Dict<string, ColumnMetadata>, primary: Option<string>, sa: seq<SaColumn>)
    requires Tracks(regs, columns0, primary0, sa0)
    ensures Tracks(regs + OwnReg(f, attrs, processed), columns, primary, sa)
  {
    columns, primary, sa := columns0, primary0, sa0;
    if !(StartsWith(f, "_") || f in processed) {
      match ColumnAt(attrs, f)
      case Some(c) =>
        var fieldType := c.typ.GetOr(StrType);
        var filled := c.(name := Some(NameOr(c.name, f)), typ := Some(fieldType));
        assert filled == Filled(c, f, StrType);
        columns, primary, sa := Register(columns, primary, sa, regs, f, filled);
      case _ =>
    }
    if OwnReg(f, attrs, processed) == [] {
      assert regs + OwnReg(f, attrs, processed) == regs;
    }
  }

  /** The second loop, over the class's own attribute names, skipping `_`-prefixed and processed ones. */
  method RegisterOwn(own: seq<string>, attrs: Dict<string, Attr>, processed: set<string>, ghost first: seq<(string, ColumnMetadata)>,
                     columns0: Dict<string, ColumnMetadata>, primary0: Option<string>, sa0: seq<SaColumn>)
    returns (columns: Dict<string, ColumnMetadata>, primary: Option<string>, sa: seq<SaColumn>)
    requires Tracks(first, columns0, primary0, sa0)
    ensures Tracks(first + OwnRegs(own, attrs, processed), columns, primary, sa)
  {
    columns, primary, sa := columns0, primary0, sa0;
    ghost var mine: seq<(string, ColumnMetadata)> := [];
    assert first + mine == first;
    for j := 0 to |own|
      invariant mine == OwnRegs(own[..j], attrs, processed)
      invariant Tracks(first + mine, columns, primary, sa)
    {
      OwnRegsStep(own, attrs, processed, j);
      columns, primary, sa := RegisterOwnAttribute(own[j], attrs, processed, first + mine, columns, primary, sa);
      AppendAssoc(first, mine, OwnReg(own[j], attrs, processed));
      mine := mine + OwnReg(own[j], attrs, processed);
    }
    assert own[..|own|] == own;
  }

  /**
   * The decorator: derive the table name, then run the annotated loop and
   * the own-attribute loop.
   */
  method Decorate(explicit: Option<string>, className: string, hints: seq<(string, PyType)>,
                  attrs: Dict<string, Attr>, own: seq<string>)
    returns (md: EntityMetadata, sa: seq<SaColumn>)
    ensures md == EntityMetadata(TableNameFor(explicit, className), ColumnsOf(Registrations(hints, attrs, own)),
                              LastKey(Registrations(hints, attrs, own)))
    ensures sa == SaColumnsOf(Registrations(hints, attrs, own))
  {
    var tableName := if explicit.None? then CamelToSnake(className) else explicit.value;
    var columns, primary, processed, sa1 := RegisterAnnotated(hints, attrs);
    columns, primary, sa := RegisterOwn(own, attrs, processed, AnnotatedRegs(hints, attrs), columns, primary, sa1);
    md := EntityMetadata(tableName, columns, primary);
  }

  // ---------------------------------------------------------------------
  // What the decorator registers

  /** Every annotated registration is a hinted field holding a `ColumnMetadata`, filled from its annotation. */
  lemma {:induction false} AnnotatedRegsSound(hints: seq<(string, PyType)>, attrs: Dict<string, Attr>)
    ensures forall i :: 0 <= i < |AnnotatedRegs(hints, attrs)| ==>
      var (f, c) := AnnotatedRegs(hints, attrs)[i];
      ColumnAt(attrs, f).Some? && exists k :: 0 <= k < |hints| && hints[k].0 == f && c == Filled(ColumnAt(attrs, f).value, f, hints[k].1)
    decreases |hints|
  {
    if hints != [] {
      var pre := hints[..|hints| - 1];
      AnnotatedRegsSound(pre, attrs);
      var a := AnnotatedRegs(hints, attrs);
      forall i | 0 <= i < |a|
        ensures var (f, c) := a[i];
          ColumnAt(attrs, f).Some? && exists k :: 0 <= k < |hints| && hints[k].0 == f && c == Filled(ColumnAt(attrs, f).value, f, hints[k].1)
      {
        if i < |AnnotatedRegs(pre, attrs)| {
          var (f, c) := a[i];
          var k :| 0 <= k < |pre| && pre[k].0 == f && c == Filled(ColumnAt(attrs, f).value, f, pre[k].1);
          assert hints[k] == pre[k];
        }
      }
    }
  }

  /** Every hinted field holding a `ColumnMetadata` is registered by the first loop. */
  lemma {:induction false} AnnotatedRegsComplete(hints: seq<(string, PyType)>, attrs: Dict<string, Attr>)
    ensures forall k :: 0 <= k < |hints| && ColumnAt(attrs, hints[k].0).Some? ==> hints[k].0 in Fields(AnnotatedRegs(hints, attrs))
    decreases |hints|
  {
    if hints != [] {
      var pre := hints[..|hints| - 1];
      AnnotatedRegsComplete(pre, attrs);
      var a := AnnotatedRegs(hints, attrs);
      forall k | 0 <= k < |hints| && ColumnAt(attrs, hints[k].0).Some? ensures hints[k].0 in Fields(a) {
        if k < |pre| {
          assert pre[k] == hints[k];
          var i :| 0 <= i < |AnnotatedRegs(pre, attrs)| && AnnotatedRegs(pre, attrs)[i].0 == hints[k].0;
          assert a[i] == AnnotatedRegs(pre, attrs)[i];
        } else {
          assert a[|a| - 1].0 == hints[k].0;
        }
      }
    }
  }

  /**
   * Every registration of the second loop is an own attribute that is not
   * `_`-prefixed, was not processed by the first loop and holds a
   * `ColumnMetadata`; its type defaults to `str`.
   */
  lemma {:induction false} OwnRegsSound(own: seq<string>, attrs: Dict<string, Attr>, processed: set<string>)
    ensures forall i :: 0 <= i < |OwnRegs(own, attrs, processed)| ==>
      var (f, c) := OwnRegs(own, attrs, processed)[i];
      f in own && !StartsWith(f, "_") && f !in processed
      && ColumnAt(attrs, f).Some? && c == Filled(ColumnAt(attrs, f).value, f, StrType)
    decreases |own|
  {
    if own != [] {
      OwnRegsSound(own[..|own| - 1], attrs, processed);
      var o := OwnRegs(own, attrs, processed);
      forall i | 0 <= i < |o| ensures o[i].0 in own {
        if i < |OwnRegs(own[..|own| - 1], attrs, processed)| {
          assert o[i].0 in own[..|own| - 1];
        }
      }
    }
  }

  /** Every eligible own attribute is registered by the second loop. */
  lemma {:induction false} OwnRegsComplete(own: seq<string>, attrs: Dict<string, Attr>, processed: set<string>)
    ensures forall j :: (0 <= j < |own| && !StartsWith(own[j], "_") && own[j] !in processed && ColumnAt(attrs, own[j]).Some?
      ==> own[j] in Fields(OwnRegs(own, attrs, processed)))
    decreases |own|
  {
    if own != [] {
      var pre := own[..|own| - 1];
      OwnRegsComplete(pre, attrs, processed);
      var o := OwnRegs(own, attrs, processed);
      forall j | 0 <= j < |own| && !StartsWith(own[j], "_") && own[j] !in processed && ColumnAt(attrs, own[j]).Some?
        ensures own[j] in Fields(o)
      {
        if j < |pre| {
          assert pre[j] == own[j];
          var i :| 0 <= i < |OwnRegs(pre, attrs, processed)| && OwnRegs(pre, attrs, processed)[i].0 == own[j];
          assert o[i] == OwnRegs(pre, attrs, processed)[i];
        } else {
          assert o[|o| - 1].0 == own[j];
        }
      }
    }
  }

  /** No field occurs twice among the registrations. */
  predicate DistinctFields(regs: seq<(string, ColumnMetadata)>) {
    forall i, j :: 0 <= i < j < |regs| ==> regs[i].0 != regs[j].0
  }

  predicate DistinctNames(own: seq<string>) {
    forall i, j :: 0 <= i < j < |own| ==> own[i] != own[j]
  }

  lemma {:induction false} AnnotatedRegsDistinct(hints: seq<(string, PyType)>, attrs: Dict<string, Attr>)
    requires Valid(hints)
    ensures DistinctFields(AnnotatedRegs(hints, attrs))
    decreases |hints|
  {
    if hints != [] {
      var pre := hints[..|hints| - 1];
      assert Valid(pre) by {
        forall i, j | 0 <= i < j < |pre| ensures pre[i].0 != pre[j].0 { assert pre[i] == hints[i] && pre[j] == hints[j]; }
      }
      AnnotatedRegsDistinct(pre, attrs);
      AnnotatedRegsSound(pre, attrs);
      var a := AnnotatedRegs(hints, attrs);
      var p := AnnotatedRegs(pre, attrs);
      if |a| > |p| {
        forall i | 0 <= i < |p| ensures p[i].0 != hints[|hints| - 1].0 {
          var k :| 0 <= k < |pre| && pre[k].0 == p[i].0 && p[i].1 == Filled(ColumnAt(attrs, p[i].0).value, p[i].0, pre[k].1);
          assert pre[k] == hints[k];
        }
      }
    }
  }

  lemma {:induction false} OwnRegsDistinct(own: seq<string>, attrs: Dict<string, Attr>, processed: set<string>)
    requires DistinctNames(own)
    ensures DistinctFields(OwnRegs(own, attrs, processed))
    decreases |own|
  {
    if own != [] {
      var pre := own[..|own| - 1];
      assert DistinctNames(pre) by {
        forall i, j | 0 <= i < j < |pre| ensures pre[i] != pre[j] { assert pre[i] == own[i] && pre[j] == own[j]; }
      }
      OwnRegsDistinct(pre, attrs, processed);
      OwnRegsSound(pre, attrs, processed);
      var p := OwnRegs(pre, attrs, processed);
      forall i | 0 <= i < |p| ensures p[i].0 != own[|own| - 1] {
        var k :| 0 <= k < |pre| && pre[k] == p[i].0;
      }
    }
  }

  /** With distinct fields, `metadata.columns` is exactly the registrations, in order. */
  lemma {:induction false} ColumnsOfDistinct(regs: seq<(string, ColumnMetadata)>)
    requires DistinctFields(regs)
    ensures ColumnsOf(regs) == regs
    decreases |regs|
  {
    if regs != [] {
      var pre := regs[..|regs| - 1];
      var (f, c) := regs[|regs| - 1];
      assert DistinctFields(pre) by {
        forall i, j | 0 <= i < j < |pre| ensures pre[i].0 != pre[j].0 { assert pre[i] == regs[i] && pre[j] == regs[j]; }
      }
      ColumnsOfDistinct(pre);
      assert ColumnsOf(regs) == Set(pre, f, c);
      assert !HasKey(pre, f) by {
        forall i | 0 <= i < |pre| ensures Keys(pre)[i] != f { assert pre[i] == regs[i]; }
      }
      assert Set(pre, f, c) == pre + [(f, c)];
      assert pre + [(f, c)] == regs;
    }
  }

  /**
   * Each field is registered at most once: the hint names and the own
   * attribute names are distinct, and the second loop skips what the first
   * processed. So `metadata.columns` lists the registrations in order.
   */
  lemma RegisteredOnce(hints: seq<(string, PyType)>, attrs: Dict<string, Attr>, own: seq<string>)
    requires Valid(hints) && DistinctNames(own)
    ensures DistinctFields(Registrations(hints, attrs, own))
    ensures ColumnsOf(Registrations(hints, attrs, own)) == Registrations(hints, attrs, own)
  {
    var a := AnnotatedRegs(hints, attrs);
    var o := OwnRegs(own, attrs, Fields(a));
    AnnotatedRegsDistinct(hints, attrs);
    OwnRegsDistinct(own, attrs, Fields(a));
    OwnRegsSound(own, attrs, Fields(a));
    var r := a + o;
    forall i, j | 0 <= i < j < |r| ensures r[i].0 != r[j].0 {
      if j >= |a| && i < |a| {
        assert r[j] == o[j - |a|];
        assert r[i].0 in Fields(a);
      }
    }
    ColumnsOfDistinct(r);
  }

  /** `metadata.primary_key` is the field of the last key registration, and None when there is none. */
  lemma {:induction false} LastKeyIsLast(regs: seq<(string, ColumnMetadata)>)
    ensures LastKey(regs).None? <==> forall i :: 0 <= i < |regs| ==> !regs[i].1.primaryKey
    ensures LastKey(regs).Some? ==> exists i :: (0 <= i < |regs| && regs[i].0 == LastKey(regs).value && regs[i].1.primaryKey
      && forall j :: i < j < |regs| ==> !regs[j].1.primaryKey)
    decreases |regs|
  {
    if regs != [] {
      var pre := regs[..|regs| - 1];
      LastKeyIsLast(pre);
      if !regs[|regs| - 1].1.primaryKey {
        if LastKey(pre).Some? {
          var i :| 0 <= i < |pre| && pre[i].0 == LastKey(pre).value && pre[i].1.primaryKey
            && forall j :: i < j < |pre| ==> !pre[j].1.primaryKey;
          assert regs[i] == pre[i];
          assert forall j :: i < j < |regs| ==> !regs[j].1.primaryKey by {
            forall j | i < j < |regs| ensures !regs[j].1.primaryKey {
              if j < |pre| { assert regs[j] == pre[j]; }
            }
          }
        } else {
          forall i | 0 <= i < |regs| ensures !regs[i].1.primaryKey {
            if i < |pre| { assert regs[i] == pre[i]; }
          }
        }
      }
    }
  }

  // ---------------------------------------------------------------------
  // BaseEntity

  /** What the class gives `getattr(self, name)` when the instance has no such attribute. */
  datatype ClassValue = ColumnMetaValue | PlainValue(v: Value)

  /** `isinstance(current_val, ColumnMetadata) or current_val is None` for `current_val = getattr(self, f, None)`. */
  predicate Unset(cur: Option<Value>, cls: Dict<string, ClassValue>, f: string) {
    if cur.Some? then cur.value == NoneV
    else
      var c := Get(cls, f);
      c.None? || c.value.ColumnMetaValue? || c.value.v == NoneV
  }

  /** What the defaulting assigns to an unset column: its default (called if callable), else None if nullable, else nothing. */
  function DefaultFor(m: ColumnMetadata): (r: Option<Value>)
    ensures HasDefault(m.default) ==> r == Some(DefaultValue(m.default))
    ensures !HasDefault(m.default) ==> (r.Some? <==> m.nullable) && (r.Some? ==> r.value == NoneV)
  {
    if HasDefault(m.default) then Some(DefaultValue(m.default))
    else if m.nullable then Some(NoneV)
    else None
  }

  /** The attribute `f` after its defaulting step, given its value `cur` before it. */
  function Resolved(cur: Option<Value>, kwargs: Dict<string, Value>, cls: Dict<string, ClassValue>,
                    f: string, m: ColumnMetadata): Option<Value> {
    if HasKey(kwargs, f) || !Unset(cur, cls, f) || DefaultFor(m).None? then cur else DefaultFor(m)
  }

  /** One iteration of the defaulting loop, for column `f` with metadata `m`. */
  function InitStep(attrs: Dict<string, Value>, kwargs: Dict<string, Value>, cls: Dict<string, ClassValue>,
                    f: string, m: ColumnMetadata): Dict<string, Value> {
    if HasKey(kwargs, f) || !Unset(Get(attrs, f), cls, f) || DefaultFor(m).None? then attrs
    else Set(attrs, f, DefaultFor(m).value)
  }

  /** The step changes at most attribute `f`, to its resolved value. */
  lemma InitStepGet(attrs: Dict<string, Value>, kwargs: Dict<string, Value>, cls: Dict<string, ClassValue>,
                    f: string, m: ColumnMetadata, k: string)
    ensures Get(InitStep(attrs, kwargs, cls, f, m), k) == if k == f then Resolved(Get(attrs, f), kwargs, cls, f, m) else Get(attrs, k)
  {
    if InitStep(attrs, kwargs, cls, f, m) != attrs {
      GetSet(attrs, f, DefaultFor(m).value, k);
    }
  }

  /** The defaulting loop over the columns, in order. */
  function InitColumns(attrs: Dict<string, Value>, kwargs: Dict<string, Value>, cls: Dict<string, ClassValue>,
                       cols: Dict<string, ColumnMetadata>): Dict<string, Value>
    decreases |cols|
  {
    if cols == [] then attrs
    else
      var (f, m) := cols[|cols| - 1];
      InitStep(InitColumns(attrs, kwargs, cls, cols[..|cols| - 1]), kwargs, cls, f, m)
  }

  /** The instance attributes after `BaseEntity.__init__(**kwargs)`. */
  function InitSpec(kwargs: Dict<string, Value>, cls: Dict<string, ClassValue>, md: Option<EntityMetadata>): Dict<string, Value> {
    var fromKwargs := Update([], kwargs);
    if md.None? then fromKwargs else InitColumns(fromKwargs, kwargs, cls, md.value.columns)
  }

  /** `hasattr(self, f)` */
  predicate Present(attrs: Dict<string, Value>, cls: Dict<string, ClassValue>, f: string) {
    HasKey(attrs, f) || HasKey(cls, f)
  }

  /** `getattr(self, f)`: the instance attribute, else the class's; a class-level `ColumnMetadata` is an ordinary object. */
  function Lookup(attrs: Dict<string, Value>, cls: Dict<string, ClassValue>, f: string): Value
    requires Present(attrs, cls, f)
  {
    if HasKey(attrs, f) then Get(attrs, f).value
    else
      var c := Get(cls, f).value;
      if c.ColumnMetaValue? then ObjectV("ColumnMetadata") else c.v
  }

  /** `value.isoformat()` for a datetime, the value itself otherwise. */
  function Serialized(v: Value): (r: Value)
    ensures !r.DateTimeV?
    ensures v.DateTimeV? ==> r == StrV(v.iso)
    ensures !v.DateTimeV? ==> r == v
  {
    if v.DateTimeV? then StrV(v.iso) else v
  }

  /** The `to_dict` loop over the given field names, in order. */
  function ToDictOver(attrs: Dict<string, Value>, cls: Dict<string, ClassValue>, fields: seq<string>): Dict<string, Value>
    decreases |fields|
  {
    if fields == [] then []
    else
      var f := fields[|fields| - 1];
      var prior := ToDictOver(attrs, cls, fields[..|fields| - 1]);
      if Present(attrs, cls, f) then Set(prior, f, Serialized(Lookup(attrs, cls, f))) else prior
  }

  /** `to_dict()`: an empty dict for a class without metadata. */
  function ToDictSpec(attrs: Dict<string, Value>, cls: Dict<string, ClassValue>, md: Option<EntityMetadata>): Dict<string, Value> {
    if md.None? then [] else ToDictOver(attrs, cls, Keys(md.value.columns))
  }

  /** One iteration of the defaulting loop: a column not passed as a keyword and still unset takes its default. */
  method ApplyDefault(a: Dict<string, Value>, kwargs: Dict<string, Value>, cls: Dict<string, ClassValue>,
                       f: string, m: ColumnMetadata) returns (a': Dict<string, Value>)
    ensures a' == InitStep(a, kwargs, cls, f, m)
  {
    a' := a;
    if !HasKey(kwargs, f) {
      var current := Get(a, f);
      if Unset(current, cls, f) {
        if HasDefault(m.default) {
          a' := Set(a, f, DefaultValue(m.default));
        } else if m.nullable {
          a' := Set(a, f, NoneV);
        }
      }
    }
  }

  lemma InitColumnsStep(attrs: Dict<string, Value>, kwargs: Dict<string, Value>, cls: Dict<string, ClassValue>,
                        cols: Dict<string, ColumnMetadata>, i: nat)
    requires i < |cols|
    ensures InitColumns(attrs, kwargs, cls, cols[..i + 1]) == InitStep(InitColumns(attrs, kwargs, cls, cols[..i]), kwargs, cls, cols[i].0, cols[i].1)
  {
    assert cols[..i + 1][..i] == cols[..i];
  }

  /**
   * An entity instance: its own attributes, plus what the class supplies
   * for names the instance lacks and the class's entity metadata, if any.
   */
  class EntityObject {
    var attrs: Dict<string, Value>
    const classAttrs: Dict<string, ClassValue>
    const metadata: Option<EntityMetadata>

    /** `BaseEntity.__init__(**kwargs)` */
    constructor (kwargs: Dict<string, Value>, classAttrs: Dict<string, ClassValue>, metadata: Option<EntityMetadata>)
      ensures this.classAttrs == classAttrs && this.metadata == metadata
      ensures attrs == InitSpec(kwargs, classAttrs, metadata)
    {
      this.classAttrs := classAttrs;
      this.metadata := metadata;
      var a: Dict<string, Value> := [];
      for i := 0 to |kwargs|
        invariant Update(a, kwargs[i..]) == Update([], kwargs)
      {
        UpdateStep(a, kwargs, i);
        a := Set(a, kwargs[i].0, kwargs[i].1);
      }
      assert kwargs[|kwargs|..] == [];
      if metadata.Some? {
        var cols := metadata.value.columns;
        ghost var a0 := a;
        for i := 0 to |cols|
          invariant a == InitColumns(a0, kwargs, classAttrs, cols[..i])
        {
          InitColumnsStep(a0, kwargs, classAttrs, cols, i);
          a := ApplyDefault(a, kwargs, classAttrs, cols[i].0, cols[i].1);
        }
        assert cols[..|cols|] == cols;
      }
      attrs := a;
    }

    /** `to_dict()` */
    method ToDict() returns (r: Dict<string, Value>)
      ensures r == ToDictSpec(attrs, classAttrs, metadata)
    {
      r := [];
      if metadata.Some? {
        var fields := Keys(metadata.value.columns);
        for i := 0 to |fields|
          invariant r == ToDictOver(attrs, classAttrs, fields[..i])
        {
          var f := fields[i];
          assert fields[..i + 1][..i] == fields[..i];
          if HasKey(attrs, f) || HasKey(classAttrs, f) {
            var value := Lookup(attrs, classAttrs, f);
            if value.DateTimeV? {
              r := Set(r, f, StrV(value.iso));
            } else {
              r := Set(r, f, value);
            }
          }
        }
        assert fields[..|fields|] == fields;
      }
    }
  }

  // ---------------------------------------------------------------------
  // Properties of `__init__` and `to_dict`

  /** The decorator's `metadata.columns` never holds a field twice. */
  lemma {:induction false} ColumnsOfValid(regs: seq<(string, ColumnMetadata)>)
    ensures Valid(ColumnsOf(regs))
    decreases |regs|
  {
    if regs != [] {
      var (f, c) := regs[|regs| - 1];
      ColumnsOfValid(regs[..|regs| - 1]);
      SetValid(ColumnsOf(regs[..|regs| - 1]), f, c);
    }
  }

  /** A keyword argument is never overwritten by the defaulting loop. */
  lemma {:induction false} InitColumnsKeeps(attrs: Dict<string, Value>, kwargs: Dict<string, Value>, cls: Dict<string, ClassValue>,
                                            cols: Dict<string, ColumnMetadata>, k: string)
    requires HasKey(kwargs, k)
    ensures Get(InitColumns(attrs, kwargs, cls, cols), k) == Get(attrs, k)
    decreases |cols|
  {
    if cols != [] {
      var (f, m) := cols[|cols| - 1];
      InitColumnsKeeps(attrs, kwargs, cls, cols[..|cols| - 1], k);
      InitStepGet(InitColumns(attrs, kwargs, cls, cols[..|cols| - 1]), kwargs, cls, f, m, k);
    }
  }

  /** Each column is resolved once, against its value before the loop; other attributes are untouched. */
  lemma {:induction false} InitColumnsGet(attrs: Dict<string, Value>, kwargs: Dict<string, Value>, cls: Dict<string, ClassValue>,
                                          cols: Dict<string, ColumnMetadata>, k: string)
    requires Valid(cols)
    ensures Get(InitColumns(attrs, kwargs, cls, cols), k)
      == if HasKey(cols, k) then Resolved(Get(attrs, k), kwargs, cls, k, Get(cols, k).value) else Get(attrs, k)
    decreases |cols|
  {
    if cols != [] {
      var pre := cols[..|cols| - 1];
      var (f, m) := cols[|cols| - 1];
      GetSnoc(cols, k);
      InitColumnsGet(attrs, kwargs, cls, pre, k);
      InitStepGet(InitColumns(attrs, kwargs, cls, pre), kwargs, cls, f, m, k);
    }
  }

  /** `__init__`: every keyword argument is assigned and keeps its value. */
  lemma InitKeepsKwargs(kwargs: Dict<string, Value>, cls: Dict<string, ClassValue>, md: Option<EntityMetadata>, k: string)
    requires Valid(kwargs) && HasKey(kwargs, k)
    ensures Get(InitSpec(kwargs, cls, md), k) == Get(kwargs, k)
  {
    GetUpdate([], kwargs, k);
    if md.Some? {
      InitColumnsKeeps(Update([], kwargs), kwargs, cls, md.value.columns, k);
    }
  }

  /**
   * `__init__`: a column missing from the keyword arguments whose current
   * value is None or the class-level metadata gets its default, else None
   * when nullable, else stays unset on the instance.
   */
  lemma InitDefaults(kwargs: Dict<string, Value>, cls: Dict<string, ClassValue>, md: EntityMetadata, f: string)
    requires Valid(kwargs) && Valid(md.columns) && HasKey(md.columns, f) && !HasKey(kwargs, f)
    ensures var m := Get(md.columns, f).value;
      && (Unset(None, cls, f) && HasDefault(m.default) ==> Get(InitSpec(kwargs, cls, Some(md)), f) == Some(DefaultValue(m.default)))
      && (Unset(None, cls, f) && !HasDefault(m.default) && m.nullable ==> Get(InitSpec(kwargs, cls, Some(md)), f) == Some(NoneV))
      && (!Unset(None, cls, f) || (!HasDefault(m.default) && !m.nullable) ==> Get(InitSpec(kwargs, cls, Some(md)), f) == None)
  {
    GetUpdate([], kwargs, f);
    InitColumnsGet(Update([], kwargs), kwargs, cls, md.columns, f);
  }

  /** `__init__` sets nothing beyond the keyword arguments and the columns. */
  lemma InitSetsNothingElse(kwargs: Dict<string, Value>, cls: Dict<string, ClassValue>, md: Option<EntityMetadata>, k: string)
    requires Valid(kwargs) && !HasKey(kwargs, k)
    requires md.Some? ==> Valid(md.value.columns) && !HasKey(md.value.columns, k)
    ensures Get(InitSpec(kwargs, cls, md), k).None?
  {
    GetUpdate([], kwargs, k);
    if md.Some? {
      InitColumnsGet(Update([], kwargs), kwargs, cls, md.value.columns, k);
    }
  }

  lemma {:induction false} ToDictOverGet(attrs: Dict<string, Value>, cls: Dict<string, ClassValue>, fields: seq<string>, k: string)
    ensures Get(ToDictOver(attrs, cls, fields), k)
      == if k in fields && Present(attrs, cls, k) then Some(Serialized(Lookup(attrs, cls, k))) else None
    decreases |fields|
  {
    if fields != [] {
      var pre := fields[..|fields| - 1];
      var f := fields[|fields| - 1];
      assert fields == pre + [f];
      ToDictOverGet(attrs, cls, pre, k);
      if Present(attrs, cls, f) {
        GetSet(ToDictOver(attrs, cls, pre), f, Serialized(Lookup(attrs, cls, f)), k);
      }
    }
  }

  /** `to_dict`: exactly the metadata's fields present on the instance, with datetimes as ISO text. */
  lemma ToDictEntries(attrs: Dict<string, Value>, cls: Dict<string, ClassValue>, md: Option<EntityMetadata>, k: string)
    ensures HasKey(ToDictSpec(attrs, cls, md), k) <==> md.Some? && HasKey(md.value.columns, k) && Present(attrs, cls, k)
    ensures HasKey(ToDictSpec(attrs, cls, md), k) ==> Get(ToDictSpec(attrs, cls, md), k) == Some(Serialized(Lookup(attrs, cls, k)))
  {
    if md.Some? {
      ToDictOverGet(attrs, cls, Keys(md.value.columns), k);
    }
  }

  lemma {:induction false} ToDictOverNoDateTime(attrs: Dict<string, Value>, cls: Dict<string, ClassValue>, fields: seq<string>)
    ensures forall i :: 0 <= i < |ToDictOver(attrs, cls, fields)| ==> !ToDictOver(attrs, cls, fields)[i].1.DateTimeV?
    decreases |fields|
  {
    if fields != [] {
      ToDictOverNoDateTime(attrs, cls, fields[..|fields| - 1]);
    }
  }

  /** `to_dict` never returns a datetime value. */
  lemma ToDictNoDateTime(attrs: Dict<string, Value>, cls: Dict<string, ClassValue>, md: Option<EntityMetadata>)
    ensures forall i :: 0 <= i < |ToDictSpec(attrs, cls, md)| ==> !ToDictSpec(attrs, cls, md)[i].1.DateTimeV?
  {
    if md.Some? {
      ToDictOverNoDateTime(attrs, cls, Keys(md.value.columns));
    }
  }
}
