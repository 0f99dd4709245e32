/**
 * Application properties: a flat store from dotted keys to values, filled
 * from a nested YAML mapping (flattened with `.`) or from `key=value`
 * lines, and read with environment-variable overrides and type coercions.
 *
 * Reading files is not modelled: YAML arrives as the parsed mapping and a
 * `.properties` file as its lines. The process environment is a parameter.
 */
module Properties {
  import opened Wrappers
  import opened Strings
  import opened Dicts
  import opened Values

  // ---------------------------------------------------------------------
  // Flattening

  /** `f"{parent_key}{sep}{k}" if parent_key else k` */
  function NewKey(parent: string, k: string): string {
    if parent == "" then k else parent + "." + k
  }

  /** The `items` list `_flatten_dict` has built after its first `n` entries. */
  function FlattenItems(d: seq<(string, Value)>, parent: string, n: nat): seq<(string, Value)>
    requires n <= |d|
    decreases DictV(d), 1, n
  {
    if n == 0 then [] else FlattenItems(d, parent, n - 1) + EntryItems(d[n - 1], parent)
  }

  /** What one entry adds to `items`: the flattened sub-mapping's items, or the entry under its new key. */
  function EntryItems(e: (string, Value), parent: string): seq<(string, Value)>
    decreases e
  {
    var (k, v) := e;
    if v.DictV? then Flatten(v.entries, NewKey(parent, k)) else [(NewKey(parent, k), v)]
  }

  /** `_flatten_dict(d, parent)`: `dict(items)`, so a repeated key keeps its first position and its last value. */
  function Flatten(d: seq<(string, Value)>, parent: string): Dict<string, Value>
    decreases DictV(d), 2
  {
    Update([], FlattenItems(d, parent, |d|))
  }

  /** The loop of `_flatten_dict`, recursing into mapping values. */
  method FlattenDict(d: seq<(string, Value)>, parent: string) returns (r: Dict<string, Value>)
    ensures r == Flatten(d, parent)
    decreases DictV(d)
  {
    var items: seq<(string, Value)> := [];
    for i := 0 to |d|
      invariant items == FlattenItems(d, parent, i)
    {
      var (k, v) := d[i];
      var newKey := NewKey(parent, k);
      if v.DictV? {
        assert DictV(v.entries) == d[i].1;
        var sub := FlattenDict(v.entries, newKey);
        items := items + sub;
      } else {
        items := items + [(newKey, v)];
      }
    }
    r := Update([], items);
  }

  predicate NoDictValues(d: seq<(string, Value)>) {
    forall i :: 0 <= i < |d| ==> !d[i].1.DictV?
  }

  lemma {:induction false} SetNoDictValues(d: Dict<string, Value>, k: string, v: Value)
    requires NoDictValues(d) && !v.DictV?
    ensures NoDictValues(Set(d, k, v))
  {
  }

  lemma {:induction false} UpdateNoDictValues(d: Dict<string, Value>, e: Dict<string, Value>)
    requires NoDictValues(d) && NoDictValues(e)
    ensures NoDictValues(Update(d, e))
    decreases |e|
  {
    if e != [] {
      SetNoDictValues(d, e[0].0, e[0].1);
      assert NoDictValues(e[1..]) by {
        forall i | 0 <= i < |e[1..]| ensures !e[1..][i].1.DictV? { assert e[1..][i] == e[i + 1]; }
      }
      UpdateNoDictValues(Set(d, e[0].0, e[0].1), e[1..]);
    }
  }

  lemma NoDictValuesAppend(a: seq<(string, Value)>, b: seq<(string, Value)>)
    requires NoDictValues(a) && NoDictValues(b)
    ensures NoDictValues(a + b)
  {
    forall i | 0 <= i < |a + b| ensures !(a + b)[i].1.DictV? {
      if i >= |a| { assert (a + b)[i] == b[i - |a|]; }
    }
  }

  /** Dict-valued keys are dropped: every flattened value is a leaf. */
  lemma {:induction false} FlattenLeaves(d: seq<(string, Value)>, parent: string)
    ensures NoDictValues(Flatten(d, parent))
    decreases DictV(d), 2
  {
    FlattenItemsLeaves(d, parent, |d|);
    UpdateNoDictValues([], FlattenItems(d, parent, |d|));
  }

  lemma {:induction false} FlattenItemsLeaves(d: seq<(string, Value)>, parent: string, n: nat)
    requires n <= |d|
    ensures NoDictValues(FlattenItems(d, parent, n))
    decreases DictV(d), 1, n
  {
    if n > 0 {
      FlattenItemsLeaves(d, parent, n - 1);
      EntryItemsLeaves(d[n - 1], parent);
      NoDictValuesAppend(FlattenItems(d, parent, n - 1), EntryItems(d[n - 1], parent));
    }
  }

  lemma {:induction false} EntryItemsLeaves(e: (string, Value), parent: string)
    ensures NoDictValues(EntryItems(e, parent))
    decreases e
  {
    if e.1.DictV? {
      FlattenLeaves(e.1.entries, NewKey(parent, e.0));
    }
  }

  /** Where a flattened key comes from: one entry's own key when its value is a leaf, or a key of its flattened sub-mapping. */
  predicate KeyFrom(entry: (string, Value), parent: string, q: string)
  {
    var (k, v) := entry;
    if v.DictV? then HasKey(Flatten(v.entries, NewKey(parent, k)), q) else q == NewKey(parent, k)
  }

  lemma HasKeyAppend<V>(a: Dict<string, V>, b: Dict<string, V>, q: string)
    ensures HasKey(a + b, q) <==> HasKey(a, q) || HasKey(b, q)
  {
    assert Keys(a + b) == Keys(a) + Keys(b);
  }

  lemma {:induction false} FlattenItemsKeys(d: seq<(string, Value)>, parent: string, n: nat, q: string)
    requires n <= |d|
    ensures HasKey(FlattenItems(d, parent, n), q) <==> KeyFromFirst(d, parent, n, q)
  {
    if n > 0 {
      FlattenItemsKeys(d, parent, n - 1, q);
      assert FlattenItems(d, parent, n) == FlattenItems(d, parent, n - 1) + EntryItems(d[n - 1], parent);
      HasKeyAppend(FlattenItems(d, parent, n - 1), EntryItems(d[n - 1], parent), q);
      EntryItemsKeys(d[n - 1], parent, q);
    }
  }

  lemma EntryItemsKeys(e: (string, Value), parent: string, q: string)
    ensures HasKey(EntryItems(e, parent), q) <==> KeyFrom(e, parent, q)
  {
    if !e.1.DictV? { assert Keys(EntryItems(e, parent)) == [NewKey(parent, e.0)]; }
  }

  /** Some of the first `n` entries gives the key `q`. */
  predicate KeyFromFirst(d: seq<(string, Value)>, parent: string, n: nat, q: string)
    requires n <= |d|
  {
    n > 0 && (KeyFromFirst(d, parent, n - 1, q) || KeyFrom(d[n - 1], parent, q))
  }

  lemma {:induction false} KeyFromFirstExists(d: seq<(string, Value)>, parent: string, n: nat, q: string)
    requires n <= |d|
    ensures KeyFromFirst(d, parent, n, q) <==> exists i :: 0 <= i < n && KeyFrom(d[i], parent, q)
  {
    if n > 0 {
      KeyFromFirstExists(d, parent, n - 1, q);
      if !KeyFromFirst(d, parent, n, q) {
        forall i | 0 <= i < n ensures !KeyFrom(d[i], parent, q) {
          if i < n - 1 {
            assert !(0 <= i < n - 1 && KeyFrom(d[i], parent, q));
          }
        }
      }
    }
  }

  /**
   * The keys of `_flatten_dict(d, parent)` are exactly the dot-joined paths
   * to leaves: an entry with a leaf value contributes its own key, an entry
   * with a mapping contributes the keys of that mapping flattened under it.
   */
  lemma FlattenKeys(d: seq<(string, Value)>, parent: string, q: string)
    ensures HasKey(Flatten(d, parent), q) <==> exists i :: 0 <= i < |d| && KeyFrom(d[i], parent, q)
  {
    UpdateHasKey([], FlattenItems(d, parent, |d|), q);
    FlattenItemsKeys(d, parent, |d|, q);
    KeyFromFirstExists(d, parent, |d|, q);
  }

  /** A top-level key with a leaf value keeps its own name. */
  lemma TopLevelScalarKept(d: seq<(string, Value)>, i: nat)
    requires i < |d| && !d[i].1.DictV?
    ensures HasKey(Flatten(d, ""), d[i].0)
  {
    FlattenKeys(d, "", d[i].0);
    assert KeyFrom(d[i], "", d[i].0);
  }

  /** What one entry gives the key `q`: its own value when it is a leaf under that key, or the value its flattened sub-mapping gives `q`. */
  function EntryValue(e: (string, Value), parent: string, q: string): Option<Value>
  {
    var (k, v) := e;
    if v.DictV? then Get(Flatten(v.entries, NewKey(parent, k)), q)
    else if q == NewKey(parent, k) then Some(v) else None
  }

  /** The value the last of the first `n` entries that gives the key `q` gives it. */
  function LastEntryValue(d: seq<(string, Value)>, parent: string, n: nat, q: string): Option<Value>
    requires n <= |d|
  {
    if n == 0 then None
    else if EntryValue(d[n - 1], parent, q).Some? then EntryValue(d[n - 1], parent, q)
    else LastEntryValue(d, parent, n - 1, q)
  }

  lemma EntryItemsValue(e: (string, Value), parent: string, q: string)
    ensures LastValue(EntryItems(e, parent), q) == EntryValue(e, parent, q)
  {
    if e.1.DictV? {
      var newKey := NewKey(parent, e.0);
      var sub := Flatten(e.1.entries, newKey);
      UpdateValid([], FlattenItems(e.1.entries, newKey, |e.1.entries|));
      GetUpdateLast([], sub, q);
      GetUpdate([], sub, q);
    } else {
      assert EntryItems(e, parent)[1..] == [];
    }
  }

  lemma {:induction false} FlattenItemsValue(d: seq<(string, Value)>, parent: string, n: nat, q: string)
    requires n <= |d|
    ensures LastValue(FlattenItems(d, parent, n), q) == LastEntryValue(d, parent, n, q)
  {
    if n > 0 {
      FlattenItemsValue(d, parent, n - 1, q);
      LastValueAppend(FlattenItems(d, parent, n - 1), EntryItems(d[n - 1], parent), q);
      EntryItemsValue(d[n - 1], parent, q);
    }
  }

  /**
   * The value of a flattened key: `dict(items)` keeps the last pair, so the
   * last entry of `d` that gives the key `q` decides its value.
   */
  lemma FlattenValue(d: seq<(string, Value)>, parent: string, q: string)
    ensures Get(Flatten(d, parent), q) == LastEntryValue(d, parent, |d|, q)
  {
    GetUpdateLast([], FlattenItems(d, parent, |d|), q);
    FlattenItemsValue(d, parent, |d|, q);
  }

  lemma {:induction false} LastEntryValueAt(d: seq<(string, Value)>, parent: string, n: nat, i: nat, q: string)
    requires i < n <= |d| && EntryValue(d[i], parent, q).Some?
    requires forall j :: i < j < n ==> !KeyFrom(d[j], parent, q)
    ensures LastEntryValue(d, parent, n, q) == EntryValue(d[i], parent, q)
  {
    if n - 1 > i {
      assert !KeyFrom(d[n - 1], parent, q);
      LastEntryValueAt(d, parent, n - 1, i, q);
    }
  }

  /** A leaf entry keeps its value under its dotted key unless a later entry gives the same key. */
  lemma LeafValueKept(d: seq<(string, Value)>, parent: string, i: nat)
    requires i < |d| && !d[i].1.DictV?
    requires forall j :: i < j < |d| ==> !KeyFrom(d[j], parent, NewKey(parent, d[i].0))
    ensures Get(Flatten(d, parent), NewKey(parent, d[i].0)) == Some(d[i].1)
  {
    FlattenValue(d, parent, NewKey(parent, d[i].0));
    LastEntryValueAt(d, parent, |d|, i, NewKey(parent, d[i].0));
  }

  // ---------------------------------------------------------------------
  // `.properties` lines

  /** One line of a `.properties` file: nothing for a blank, `#` or `=`-less line, else the stripped key and value around the first `=`. */
  function ParseLine(line: string): Option<(string, string)> {
    var t := Strip(line);
    if t == "" || StartsWith(t, "#") then None
    else match FirstIndexOf(t, '=')
      case None => None
      case Some(i) => Some((Strip(t[..i]), Strip(t[i + 1..])))
  }

  /** The store after `_load_properties` reads `lines`: later lines overwrite earlier ones. */
  function LoadLines(props: Dict<string, Value>, lines: seq<string>): Dict<string, Value>
    decreases |lines|
  {
    if lines == [] then props
    else LoadLines(ApplyLine(props, lines[0]), lines[1..])
  }

  /** A line is skipped exactly when it is blank, a comment, or has no `=`. */
  lemma ParseLineSkips(line: string)
    ensures ParseLine(line).None? <==>
      (Strip(line) == "" || StartsWith(Strip(line), "#") || !ContainsChar(Strip(line), '='))
  {
  }

  /** No white space at either end. */
  predicate Stripped(s: string) {
    s == [] || (!IsSpace(s[0]) && !IsSpace(s[|s| - 1]))
  }

  /** A key that a `key=value` line gives back as it is. */
  predicate LineKey(k: string) {
    Stripped(k) && !ContainsChar(k, '=') && !StartsWith(k, "#")
  }

  lemma FirstIndexOfAt(k: string, v: string, c: char)
    requires !ContainsChar(k, c)
    ensures FirstIndexOf(k + [c] + v, c) == Some(|k|)
  {
    var s := k + [c] + v;
    assert s[|k|] == c;
    assert s[..|k|] == k;
    assert forall i :: 0 <= i < |k| ==> s[..i] == k[..i] && s[i] == k[i];
  }

  /** Writing `key=value` and reading it back gives the key and the value. */
  lemma ParseLineOfEntry(k: string, v: string)
    requires LineKey(k) && Stripped(v)
    ensures ParseLine(k + "=" + v) == Some((k, v))
  {
    var line := k + "=" + v;
    assert Stripped(line) by {
      assert line[|line| - 1] == if v == [] then '=' else v[|v| - 1];
      if k != [] { assert line[0] == k[0]; }
    }
    StripUnchanged(line);
    assert !StartsWith(line, "#") by {
      if k != [] { assert line[..1] == k[..1]; }
    }
    FirstIndexOfAt(k, v, '=');
    assert line[..|k|] == k && line[|k| + 1..] == v;
    StripUnchanged(k);
    StripUnchanged(v);
  }

  /** The lines `key=value` of a list of entries. */
  function EntryLines(entries: seq<(string, string)>): (r: seq<string>)
    ensures |r| == |entries|
  {
    if entries == [] then [] else [entries[0].0 + "=" + entries[0].1] + EntryLines(entries[1..])
  }

  /** The same entries with string values, as the store holds them. */
  function StrEntries(entries: seq<(string, string)>): (r: Dict<string, Value>)
    ensures |r| == |entries|
  {
    if entries == [] then [] else [(entries[0].0, StrV(entries[0].1))] + StrEntries(entries[1..])
  }

  /** Every entry can be written as a `key=value` line that reads back as it is. */
  predicate Writable(entries: seq<(string, string)>) {
    forall i :: 0 <= i < |entries| ==> LineKey(entries[i].0) && Stripped(entries[i].1)
  }

  /** Loading the lines written from some entries assigns exactly those entries, in order. */
  lemma {:induction false} LoadEntryLines(props: Dict<string, Value>, entries: seq<(string, string)>)
    requires Writable(entries)
    ensures LoadLines(props, EntryLines(entries)) == Update(props, StrEntries(entries))
    decreases |entries|
  {
    if entries != [] {
      var (k, v) := entries[0];
      ParseLineOfEntry(k, v);
      var lines := EntryLines(entries);
      assert lines[1..] == EntryLines(entries[1..]);
      var strs := StrEntries(entries);
      assert strs[1..] == StrEntries(entries[1..]);
      assert Writable(entries[1..]) by {
        forall i | 0 <= i < |entries[1..]| ensures LineKey(entries[1..][i].0) && Stripped(entries[1..][i].1) {
          assert entries[1..][i] == entries[i + 1];
        }
      }
      LoadEntryLines(Set(props, k, StrV(v)), entries[1..]);
    }
  }

  // ---------------------------------------------------------------------
  // Reads

  /** `key.upper().replace('.', '_')` */
  function EnvKey(key: string): (r: string)
    ensures |r| == |key| && !ContainsChar(r, '.')
  {
    seq(|key|, i requires 0 <= i < |key| => if key[i] == '.' then '_' else UpperChar(key[i]))
  }

  /** The store after one line: the parsed key set to the parsed value, if the line holds an entry. */
  function ApplyLine(props: Dict<string, Value>, line: string): Dict<string, Value> {
    match ParseLine(line)
    case None => props
    case Some((k, v)) => Set(props, k, StrV(v))
  }

  lemma LoadLinesStep(props: Dict<string, Value>, lines: seq<string>, i: nat)
    requires i < |lines|
    ensures LoadLines(props, lines[i..]) == LoadLines(ApplyLine(props, lines[i]), lines[i + 1..])
  {
    assert lines[i..][0] == lines[i];
    assert lines[i..][1..] == lines[i + 1..];
  }

  /** `get(key, default)`: the environment variable when set, else the stored value, else the default. */
  function Lookup(props: Dict<string, Value>, env: Dict<string, string>, key: string, default: Value): Value {
    match Get(env, EnvKey(key))
    case Some(e) => StrV(e)
    case None => Get(props, key).GetOr(default)
  }

  /** Python `int(v)` for the values a property can hold. */
  function IntOf(v: Value): Result<int, string> {
    match v
    case IntV(i) => Ok(i)
    case BoolV(b) => Ok(if b then 1 else 0)
    case StrV(s) => (match ParseInt(s) case Some(i) => Ok(i) case None => Err("ValueError"))
    case _ => Err("TypeError")
  }

  /** `get_int`: the default when the value is None, else `int(value)`. */
  function GetInt(props: Dict<string, Value>, env: Dict<string, string>, key: string, default: int): Result<int, string> {
    var v := Lookup(props, env, key, IntV(default));
    if v == NoneV then Ok(default) else IntOf(v)
  }

  /** `get_bool`: a bool as it is, a string by its lower-case form, anything else by truthiness. */
  function GetBool(props: Dict<string, Value>, env: Dict<string, string>, key: string, default: bool): bool {
    BoolOf(Lookup(props, env, key, BoolV(default)))
  }

  /** A bool as it is, a string by its lower-case form, anything else by truthiness. */
  function BoolOf(v: Value): bool {
    match v
    case BoolV(b) => b
    case StrV(s) => Lower(s) in {"true", "yes", "1", "on"}
    case _ => Truthy(v)
  }

  /** The items of a comma-separated string, each stripped. */
  function CommaItems(s: string): seq<Value> {
    var parts := Split(s, ',');
    seq(|parts|, i requires 0 <= i < |parts| => StrV(Strip(parts[i])))
  }

  /** `get_list`: a list as it is, a string split on `,` with each item stripped, else the default or `[]`. */
  function GetList(props: Dict<string, Value>, env: Dict<string, string>, key: string, default: Option<seq<Value>>): seq<Value> {
    var fallback := default.GetOr([]);
    var v := Lookup(props, env, key, ListV(fallback));
    match v
    case ListV(items) => items
    case StrV(s) => CommaItems(s)
    case _ => fallback
  }

  /** A set environment variable wins over every store and default. */
  lemma EnvOverrides(props: Dict<string, Value>, env: Dict<string, string>, key: string, default: Value)
    requires HasKey(env, EnvKey(key))
    ensures Lookup(props, env, key, default) == StrV(Get(env, EnvKey(key)).value)
  {
  }

  /** After `set(k, v)`, with no environment override, `get(k)` is `v`; other keys read as before. */
  lemma SetThenGet(props: Dict<string, Value>, env: Dict<string, string>, k: string, v: Value, k': string, default: Value)
    requires !HasKey(env, EnvKey(k'))
    ensures Lookup(Set(props, k, v), env, k', default) == if k' == k then v else Lookup(props, env, k', default)
  {
    GetSet(props, k, v, k');
  }

  /** `get_int` reads back an int, and the decimal text of an int. */
  lemma GetIntRoundTrip(props: Dict<string, Value>, env: Dict<string, string>, k: string, i: int, default: int)
    requires !HasKey(env, EnvKey(k))
    ensures GetInt(Set(props, k, IntV(i)), env, k, default) == Ok(i)
    ensures GetInt(Set(props, k, StrV(IntToString(i))), env, k, default) == Ok(i)
  {
    SetThenGet(props, env, k, IntV(i), k, IntV(default));
    SetThenGet(props, env, k, StrV(IntToString(i)), k, IntV(default));
    IntOfText(i);
  }

  lemma IntOfText(i: int)
    ensures IntOf(StrV(IntToString(i))) == Ok(i)
  {
    ParseIntToString(i);
  }

  /** A missing key reads as the default under `get_int`. */
  lemma GetIntDefault(props: Dict<string, Value>, env: Dict<string, string>, k: string, default: int)
    requires !HasKey(env, EnvKey(k)) && !HasKey(props, k)
    ensures GetInt(props, env, k, default) == Ok(default)
  {
  }

  /** `str(b)` */
  function BoolText(b: bool): string {
    if b then "True" else "False"
  }

  /** `get_bool` reads back a bool, and Python's text of a bool. */
  lemma GetBoolRoundTrip(props: Dict<string, Value>, env: Dict<string, string>, k: string, b: bool, default: bool)
    requires !HasKey(env, EnvKey(k))
    ensures GetBool(Set(props, k, BoolV(b)), env, k, default) == b
    ensures GetBool(Set(props, k, StrV(BoolText(b))), env, k, default) == b
  {
    SetThenGet(props, env, k, BoolV(b), k, BoolV(default));
    SetThenGet(props, env, k, StrV(BoolText(b)), k, BoolV(default));
    BoolOfText(b);
  }

  lemma BoolOfText(b: bool)
    ensures BoolOf(StrV(BoolText(b))) == b
  {
    if b {
      assert Lower("True") == "true";
    } else {
      assert Lower("False") == "false";
      assert "false" != "true" && "false" != "yes" && "false" != "1" && "false" != "on";
    }
  }

  /** Splitting a comma-joined list on commas gives it back, when no item holds a comma. */
  lemma SplitCommaJoin(items: seq<string>)
    requires items != []
    requires forall i :: 0 <= i < |items| ==> !ContainsChar(items[i], ',')
    ensures Split(Join(items, ","), ',') == items
  {
    var pad: string := "";
    assert [','] + pad == ",";
    SplitJoin(items, ',', pad);
    PadEachEmpty(items[1..]);
    assert [items[0]] + items[1..] == items;
  }

  /** `get_list` reads back items written as one comma-joined string, when no item holds a comma or surrounding space. */
  lemma CommaItemsJoin(items: seq<string>)
    requires items != []
    requires forall i :: 0 <= i < |items| ==> !ContainsChar(items[i], ',') && Stripped(items[i])
    ensures CommaItems(Join(items, ",")) == seq(|items|, i requires 0 <= i < |items| => StrV(items[i]))
  {
    SplitCommaJoin(items);
    forall i | 0 <= i < |items| ensures Strip(items[i]) == items[i] {
      StripUnchanged(items[i]);
    }
  }

  lemma GetListRoundTrip(props: Dict<string, Value>, env: Dict<string, string>, k: string, items: seq<string>, default: Option<seq<Value>>)
    requires !HasKey(env, EnvKey(k)) && items != []
    requires forall i :: 0 <= i < |items| ==> !ContainsChar(items[i], ',') && Stripped(items[i])
    ensures GetList(Set(props, k, StrV(Join(items, ","))), env, k, default)
      == seq(|items|, i requires 0 <= i < |items| => StrV(items[i]))
  {
    SetThenGet(props, env, k, StrV(Join(items, ",")), k, ListV(default.GetOr([])));
    CommaItemsJoin(items);
  }

  // ---------------------------------------------------------------------
  // The store

  class ApplicationProperties {
    var properties: Dict<string, Value>

    /** A store without a configuration file. */
    constructor ()
      ensures properties == []
    {
      properties := [];
    }

    /** `_load_yaml` on a parsed mapping: a non-empty mapping replaces the store with its flattening. */
    method LoadYaml(data: seq<(string, Value)>)
      modifies this
      ensures properties == if data == [] then old(properties) else Flatten(data, "")
    {
      if data != [] {
        properties := FlattenDict(data, "");
      }
    }

    /** `_load_properties` on the lines of a file. */
    method LoadPropertyLines(lines: seq<string>)
      modifies this
      ensures properties == LoadLines(old(properties), lines)
    {
      for i := 0 to |lines|
        invariant LoadLines(properties, lines[i..]) == LoadLines(old(properties), lines)
      {
        LoadLinesStep(properties, lines, i);
        LoadLine(lines[i]);
      }
      assert lines[|lines|..] == [];
    }

    /** The body of the `_load_properties` loop: one line of the file. */
    method LoadLine(rawLine: string)
      modifies this
      ensures properties == ApplyLine(old(properties), rawLine)
    {
      var line := Strip(rawLine);
      if line != "" && !StartsWith(line, "#") {
        match FirstIndexOf(line, '=')
        case Some(j) =>
          properties := Set(properties, Strip(line[..j]), StrV(Strip(line[j + 1..])));
        case None =>
      }
    }

    /** `set(key, value)` */
    method SetProperty(key: string, value: Value)
      modifies this
      ensures properties == Set(old(properties), key, value)
    {
      properties := Set(properties, key, value);
    }

    /** `get_all()`: a copy of the store (a value here, so later changes to either side do not reach the other). */
    method GetAll() returns (r: Dict<string, Value>)
      ensures r == properties
    {
      r := properties;
    }
  }
}
