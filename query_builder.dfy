/**
 * Derived queries: a repository method name such as
 * `findByAgeGreaterThanAndActiveOrderByNameDesc` is parsed into an
 * operation, a list of conditions and an order-by list, and turned into a
 * parameterised SQL statement with `?` placeholders.
 */
module QueryBuilder {
  import opened Wrappers
  import opened Sequences
  import opened Strings
  import opened Naming

  datatype QueryOperation = Find | Count | Delete | Exists

  /** The enum value, which is also the method-name prefix before `By`. */
  function OperationValue(op: QueryOperation): string {
    match op
    case Find => "find"
    case Count => "count"
    case Delete => "delete"
    case Exists => "exists"
  }

  datatype QueryCondition =
    | Equals | And | Or
    | GreaterThan | LessThan | GreaterThanEqual | LessThanEqual
    | Like | Containing | StartingWith | EndingWith
    | Between | In | Not | IsNull | IsNotNull | True | False

  /** The enum member's name, the key of `QueryCondition[...]`. */
  function MemberName(c: QueryCondition): string {
    match c
    case Equals => "EQUALS"
    case And => "AND"
    case Or => "OR"
    case GreaterThan => "GREATER_THAN"
    case LessThan => "LESS_THAN"
    case GreaterThanEqual => "GREATER_THAN_EQUAL"
    case LessThanEqual => "LESS_THAN_EQUAL"
    case Like => "LIKE"
    case Containing => "CONTAINING"
    case StartingWith => "STARTING_WITH"
    case EndingWith => "ENDING_WITH"
    case Between => "BETWEEN"
    case In => "IN"
    case Not => "NOT"
    case IsNull => "IS_NULL"
    case IsNotNull => "IS_NOT_NULL"
    case True => "TRUE"
    case False => "FALSE"
  }

  /** The enum member's value: the suffix a method name uses for it. */
  function ConditionValue(c: QueryCondition): string {
    match c
    case Equals => ""
    case And => "And"
    case Or => "Or"
    case GreaterThan => "GreaterThan"
    case LessThan => "LessThan"
    case GreaterThanEqual => "GreaterThanEqual"
    case LessThanEqual => "LessThanEqual"
    case Like => "Like"
    case Containing => "Containing"
    case StartingWith => "StartingWith"
    case EndingWith => "EndingWith"
    case Between => "Between"
    case In => "In"
    case Not => "Not"
    case IsNull => "IsNull"
    case IsNotNull => "IsNotNull"
    case True => "True"
    case False => "False"
  }

  /** `QueryCondition[key]`: lookup by member name; `None` is a `KeyError`. */
  function LookupMember(key: string): (r: Option<QueryCondition>)
    ensures r.Some? ==> MemberName(r.value) == key
    ensures r.None? ==> forall c :: MemberName(c) != key
  {
    if key == "EQUALS" then Some(Equals)
    else if key == "AND" then Some(And)
    else if key == "OR" then Some(Or)
    else if key == "GREATER_THAN" then Some(GreaterThan)
    else if key == "LESS_THAN" then Some(LessThan)
    else if key == "GREATER_THAN_EQUAL" then Some(GreaterThanEqual)
    else if key == "LESS_THAN_EQUAL" then Some(LessThanEqual)
    else if key == "LIKE" then Some(Like)
    else if key == "CONTAINING" then Some(Containing)
    else if key == "STARTING_WITH" then Some(StartingWith)
    else if key == "ENDING_WITH" then Some(EndingWith)
    else if key == "BETWEEN" then Some(Between)
    else if key == "IN" then Some(In)
    else if key == "NOT" then Some(Not)
    else if key == "IS_NULL" then Some(IsNull)
    else if key == "IS_NOT_NULL" then Some(IsNotNull)
    else if key == "TRUE" then Some(True)
    else if key == "FALSE" then Some(False)
    else None
  }

  /** The suffix table, tried in this order. */
  const ConditionPatterns: seq<string> := [
    "GreaterThanEqual", "LessThanEqual", "GreaterThan", "LessThan",
    "Containing", "StartingWith", "EndingWith", "Between", "Like", "In",
    "IsNull", "IsNotNull", "True", "False", "Not"
  ]

  /** `op_name.upper().replace('THAN', '_THAN')` */
  function EnumKey(opName: string): string {
    ReplaceAll(Upper(opName), "THAN", "_THAN")
  }

  /** Index of the first table entry that `c` ends with. */
  function FirstSuffix(c: string, k: nat): (r: Option<nat>)
    requires k <= |ConditionPatterns|
    ensures r.Some? ==> k <= r.value < |ConditionPatterns| && EndsWith(c, ConditionPatterns[r.value])
    ensures r.Some? ==> forall j :: k <= j < r.value ==> !EndsWith(c, ConditionPatterns[j])
    ensures r.None? ==> forall j :: k <= j < |ConditionPatterns| ==> !EndsWith(c, ConditionPatterns[j])
    decreases |ConditionPatterns| - k
  {
    if k == |ConditionPatterns| then None
    else if EndsWith(c, ConditionPatterns[k]) then Some(k)
    else FirstSuffix(c, k + 1)
  }

  datatype ParseError =
    | InvalidMethodName(name: string)   // ValueError from `parse`
    | UnknownCondition(key: string)     // KeyError from `QueryCondition[...]`

  /** `_parse_single_condition`: the field (snake_case) and the operator. */
  function ParseSingleCondition(condition: string): (r: Result<(string, QueryCondition), ParseError>)
    ensures r.Err? ==> r.error.UnknownCondition?
  {
    match FirstSuffix(condition, 0)
    case None => Ok((CamelToSnake(condition), Equals))
    case Some(i) =>
      var name := ConditionPatterns[i];
      var field := condition[..|condition| - |name|];
      var key := EnumKey(name);
      match LookupMember(key)
      case None => Err(UnknownCondition(key))
      case Some(op) => Ok((CamelToSnake(field), op))
  }

  /** What each table entry resolves to under `EnumKey` and `QueryCondition[...]`. */
  function Resolve(name: string): Option<QueryCondition> {
    LookupMember(EnumKey(name))
  }

  // The lemmas from here to `EntriesNonEmpty` evaluate the fifteen table
  // entries one at a time: the upper-cased text, where `THAN` occurs, the
  // enum key it becomes and the member that key names. Each is a small
  // constant fact; together they record what every entry resolves to.

  /** An upper-cased entry without `THAN` is its own key. */
  lemma PlainKey(u: string, n: nat)
    requires n == |u| && NoMatchBetween(u, "THAN", 0, n)
    ensures ReplaceAll(u, "THAN", "_THAN") == u
  {
    ReplaceFromSkip(u, "THAN", "_THAN", 0, n);
  }

  /** An upper-cased entry with one `THAN` at position `i` gets `_THAN` there. */
  lemma ThanKey(u: string, i: nat, k: nat, n: nat)
    requires n == |u| && k == i + 4 <= n
    requires NoMatchBetween(u, "THAN", 0, i) && MatchesAt(u, i, "THAN", 0)
    requires NoMatchBetween(u, "THAN", k, n)
    ensures ReplaceAll(u, "THAN", "_THAN") == u[..i] + "_THAN" + u[k..]
  {
    ReplaceFromSkip(u, "THAN", "_THAN", 0, i);
    ReplaceFromHit(u, "THAN", "_THAN", i);
    ReplaceFromSkip(u, "THAN", "_THAN", k, n);
  }

  lemma UpperGreaterThan()
    ensures Upper("GreaterThan") == "GREATERTHAN"
  {
  }

  lemma ThanGreaterThan()
    ensures NoMatchBetween("GREATERTHAN", "THAN", 0, 7) && MatchesAt("GREATERTHAN", 7, "THAN", 0)
    ensures NoMatchBetween("GREATERTHAN", "THAN", 11, 11)
  {
  }

  lemma MemberGreaterThan()
    ensures LookupMember("GREATER_THAN") == Some(GreaterThan)
  {
  }

  lemma SplicedGreaterThan()
    ensures "GREATERTHAN"[..7] + "_THAN" + "GREATERTHAN"[11..] == "GREATER_THAN"
  {
  }

  lemma KeyGreaterThan()
    ensures Resolve("GreaterThan") == Some(GreaterThan)
    ensures EnumKey("GreaterThan") == "GREATER_THAN"
  {
    UpperGreaterThan();
    ThanGreaterThan();
    ThanKey("GREATERTHAN", 7, 11, 11);
    SplicedGreaterThan();
    MemberGreaterThan();
  }

  lemma UpperLessThan()
    ensures Upper("LessThan") == "LESSTHAN"
  {
  }

  lemma ThanLessThan()
    ensures NoMatchBetween("LESSTHAN", "THAN", 0, 4) && MatchesAt("LESSTHAN", 4, "THAN", 0)
    ensures NoMatchBetween("LESSTHAN", "THAN", 8, 8)
  {
  }

  lemma MemberLessThan()
    ensures LookupMember("LESS_THAN") == Some(LessThan)
  {
  }

  lemma SplicedLessThan()
    ensures "LESSTHAN"[..4] + "_THAN" + "LESSTHAN"[8..] == "LESS_THAN"
  {
  }

  lemma KeyLessThan()
    ensures Resolve("LessThan") == Some(LessThan)
    ensures EnumKey("LessThan") == "LESS_THAN"
  {
    UpperLessThan();
    ThanLessThan();
    ThanKey("LESSTHAN", 4, 8, 8);
    SplicedLessThan();
    MemberLessThan();
  }

  lemma UpperContaining()
    ensures Upper("Containing") == "CONTAINING"
  {
  }

  lemma NoThanContaining()
    ensures NoMatchBetween("CONTAINING", "THAN", 0, 10)
  {
  }

  lemma MemberContaining()
    ensures LookupMember("CONTAINING") == Some(Containing)
  {
  }

  lemma KeyContaining()
    ensures Resolve("Containing") == Some(Containing)
    ensures EnumKey("Containing") == "CONTAINING"
  {
    UpperContaining();
    NoThanContaining();
    PlainKey("CONTAINING", 10);
    MemberContaining();
  }

  lemma UpperBetween()
    ensures Upper("Between") == "BETWEEN"
  {
  }

  lemma NoThanBetween()
    ensures NoMatchBetween("BETWEEN", "THAN", 0, 7)
  {
  }

  lemma MemberBetween()
    ensures LookupMember("BETWEEN") == Some(Between)
  {
  }

  lemma KeyBetween()
    ensures Resolve("Between") == Some(Between)
    ensures EnumKey("Between") == "BETWEEN"
  {
    UpperBetween();
    NoThanBetween();
    PlainKey("BETWEEN", 7);
    MemberBetween();
  }

  lemma UpperLike()
    ensures Upper("Like") == "LIKE"
  {
  }

  lemma NoThanLike()
    ensures NoMatchBetween("LIKE", "THAN", 0, 4)
  {
  }

  lemma MemberLike()
    ensures LookupMember("LIKE") == Some(Like)
  {
  }

  lemma KeyLike()
    ensures Resolve("Like") == Some(Like)
    ensures EnumKey("Like") == "LIKE"
  {
    UpperLike();
    NoThanLike();
    PlainKey("LIKE", 4);
    MemberLike();
  }

  lemma UpperIn()
    ensures Upper("In") == "IN"
  {
  }

  lemma NoThanIn()
    ensures NoMatchBetween("IN", "THAN", 0, 2)
  {
  }

  lemma MemberIn()
    ensures LookupMember("IN") == Some(In)
  {
  }

  lemma KeyIn()
    ensures Resolve("In") == Some(In)
    ensures EnumKey("In") == "IN"
  {
    UpperIn();
    NoThanIn();
    PlainKey("IN", 2);
    MemberIn();
  }

  lemma UpperTrue()
    ensures Upper("True") == "TRUE"
  {
  }

  lemma NoThanTrue()
    ensures NoMatchBetween("TRUE", "THAN", 0, 4)
  {
  }

  lemma MemberTrue()
    ensures LookupMember("TRUE") == Some(True)
  {
  }

  lemma KeyTrue()
    ensures Resolve("True") == Some(True)
    ensures EnumKey("True") == "TRUE"
  {
    UpperTrue();
    NoThanTrue();
    PlainKey("TRUE", 4);
    MemberTrue();
  }

  lemma UpperFalse()
    ensures Upper("False") == "FALSE"
  {
  }

  lemma NoThanFalse()
    ensures NoMatchBetween("FALSE", "THAN", 0, 5)
  {
  }

  lemma MemberFalse()
    ensures LookupMember("FALSE") == Some(False)
  {
  }

  lemma KeyFalse()
    ensures Resolve("False") == Some(False)
    ensures EnumKey("False") == "FALSE"
  {
    UpperFalse();
    NoThanFalse();
    PlainKey("FALSE", 5);
    MemberFalse();
  }

  lemma UpperNot()
    ensures Upper("Not") == "NOT"
  {
  }

  lemma NoThanNot()
    ensures NoMatchBetween("NOT", "THAN", 0, 3)
  {
  }

  lemma MemberNot()
    ensures LookupMember("NOT") == Some(Not)
  {
  }

  lemma KeyNot()
    ensures Resolve("Not") == Some(Not)
    ensures EnumKey("Not") == "NOT"
  {
    UpperNot();
    NoThanNot();
    PlainKey("NOT", 3);
    MemberNot();
  }

  lemma UpperGreaterThanEqual()
    ensures Upper("GreaterThanEqual") == "GREATERTHANEQUAL"
  {
  }

  lemma ThanGreaterThanEqual()
    ensures NoMatchBetween("GREATERTHANEQUAL", "THAN", 0, 7) && MatchesAt("GREATERTHANEQUAL", 7, "THAN", 0)
    ensures NoMatchBetween("GREATERTHANEQUAL", "THAN", 11, 16)
  {
  }

  lemma NoMemberGreaterThanEqual()
    ensures LookupMember("GREATER_THANEQUAL") == None
  {
  }

  lemma SplicedGreaterThanEqual()
    ensures "GREATERTHANEQUAL"[..7] + "_THAN" + "GREATERTHANEQUAL"[11..] == "GREATER_THANEQUAL"
  {
  }

  lemma KeyGreaterThanEqual()
    ensures EnumKey("GreaterThanEqual") == "GREATER_THANEQUAL"
    ensures LookupMember("GREATER_THANEQUAL") == None
  {
    UpperGreaterThanEqual();
    ThanGreaterThanEqual();
    ThanKey("GREATERTHANEQUAL", 7, 11, 16);
    SplicedGreaterThanEqual();
    NoMemberGreaterThanEqual();
  }

  lemma UpperLessThanEqual()
    ensures Upper("LessThanEqual") == "LESSTHANEQUAL"
  {
  }

  lemma ThanLessThanEqual()
    ensures NoMatchBetween("LESSTHANEQUAL", "THAN", 0, 4) && MatchesAt("LESSTHANEQUAL", 4, "THAN", 0)
    ensures NoMatchBetween("LESSTHANEQUAL", "THAN", 8, 13)
  {
  }

  lemma NoMemberLessThanEqual()
    ensures LookupMember("LESS_THANEQUAL") == None
  {
  }

  lemma SplicedLessThanEqual()
    ensures "LESSTHANEQUAL"[..4] + "_THAN" + "LESSTHANEQUAL"[8..] == "LESS_THANEQUAL"
  {
  }

  lemma KeyLessThanEqual()
    ensures EnumKey("LessThanEqual") == "LESS_THANEQUAL"
    ensures LookupMember("LESS_THANEQUAL") == None
  {
    UpperLessThanEqual();
    ThanLessThanEqual();
    ThanKey("LESSTHANEQUAL", 4, 8, 13);
    SplicedLessThanEqual();
    NoMemberLessThanEqual();
  }

  lemma UpperStartingWith()
    ensures Upper("StartingWith") == "STARTINGWITH"
  {
  }

  lemma NoThanStartingWith()
    ensures NoMatchBetween("STARTINGWITH", "THAN", 0, 12)
  {
  }

  lemma NoMemberStartingWith()
    ensures LookupMember("STARTINGWITH") == None
  {
  }

  lemma KeyStartingWith()
    ensures EnumKey("StartingWith") == "STARTINGWITH"
    ensures LookupMember("STARTINGWITH") == None
  {
    UpperStartingWith();
    NoThanStartingWith();
    PlainKey("STARTINGWITH", 12);
    NoMemberStartingWith();
  }

  lemma UpperEndingWith()
    ensures Upper("EndingWith") == "ENDINGWITH"
  {
  }

  lemma NoThanEndingWith()
    ensures NoMatchBetween("ENDINGWITH", "THAN", 0, 10)
  {
  }

  lemma NoMemberEndingWith()
    ensures LookupMember("ENDINGWITH") == None
  {
  }

  lemma KeyEndingWith()
    ensures EnumKey("EndingWith") == "ENDINGWITH"
    ensures LookupMember("ENDINGWITH") == None
  {
    UpperEndingWith();
    NoThanEndingWith();
    PlainKey("ENDINGWITH", 10);
    NoMemberEndingWith();
  }

  lemma UpperIsNull()
    ensures Upper("IsNull") == "ISNULL"
  {
  }

  lemma NoThanIsNull()
    ensures NoMatchBetween("ISNULL", "THAN", 0, 6)
  {
  }

  lemma NoMemberIsNull()
    ensures LookupMember("ISNULL") == None
  {
  }

  lemma KeyIsNull()
    ensures EnumKey("IsNull") == "ISNULL"
    ensures LookupMember("ISNULL") == None
  {
    UpperIsNull();
    NoThanIsNull();
    PlainKey("ISNULL", 6);
    NoMemberIsNull();
  }

  lemma UpperIsNotNull()
    ensures Upper("IsNotNull") == "ISNOTNULL"
  {
  }

  lemma NoThanIsNotNull()
    ensures NoMatchBetween("ISNOTNULL", "THAN", 0, 9)
  {
  }

  lemma NoMemberIsNotNull()
    ensures LookupMember("ISNOTNULL") == None
  {
  }

  lemma KeyIsNotNull()
    ensures EnumKey("IsNotNull") == "ISNOTNULL"
    ensures LookupMember("ISNOTNULL") == None
  {
    UpperIsNotNull();
    NoThanIsNotNull();
    PlainKey("ISNOTNULL", 9);
    NoMemberIsNotNull();
  }

  lemma ResolvedEntries()
    ensures Resolve("GreaterThan") == Some(GreaterThan)
    ensures Resolve("LessThan") == Some(LessThan)
    ensures Resolve("Containing") == Some(Containing)
    ensures Resolve("Between") == Some(Between)
    ensures Resolve("Like") == Some(Like)
    ensures Resolve("In") == Some(In)
    ensures Resolve("True") == Some(True)
    ensures Resolve("False") == Some(False)
    ensures Resolve("Not") == Some(Not)
  {
    KeyGreaterThan();
    KeyLessThan();
    KeyContaining();
    KeyBetween();
    KeyLike();
    KeyIn();
    KeyTrue();
    KeyFalse();
    KeyNot();
  }

  /** Six table entries produce a key that names no member, so `QueryCondition[...]` raises `KeyError`. */
  lemma UnresolvedEntries()
    ensures EnumKey("GreaterThanEqual") == "GREATER_THANEQUAL" && Resolve("GreaterThanEqual") == None
    ensures EnumKey("LessThanEqual") == "LESS_THANEQUAL" && Resolve("LessThanEqual") == None
    ensures EnumKey("StartingWith") == "STARTINGWITH" && Resolve("StartingWith") == None
    ensures EnumKey("EndingWith") == "ENDINGWITH" && Resolve("EndingWith") == None
    ensures EnumKey("IsNull") == "ISNULL" && Resolve("IsNull") == None
    ensures EnumKey("IsNotNull") == "ISNOTNULL" && Resolve("IsNotNull") == None
  {
    KeyGreaterThanEqual();
    KeyLessThanEqual();
    KeyStartingWith();
    KeyEndingWith();
    KeyIsNull();
    KeyIsNotNull();
  }

  /** The six table entries whose key names no member. */
  const UnresolvableSuffixes: seq<string> := [
    "GreaterThanEqual", "LessThanEqual", "StartingWith", "EndingWith", "IsNull", "IsNotNull"
  ]

  lemma EntryNotSuffix0()
    ensures forall j :: 0 <= j < |ConditionPatterns| && j != 0 ==> !EndsWith(ConditionPatterns[0], ConditionPatterns[j])
  {
  }

  lemma EntryNotSuffix1()
    ensures forall j :: 0 <= j < |ConditionPatterns| && j != 1 ==> !EndsWith(ConditionPatterns[1], ConditionPatterns[j])
  {
  }

  lemma EntryNotSuffix2()
    ensures forall j :: 0 <= j < |ConditionPatterns| && j != 2 ==> !EndsWith(ConditionPatterns[2], ConditionPatterns[j])
  {
  }

  lemma EntryNotSuffix3()
    ensures forall j :: 0 <= j < |ConditionPatterns| && j != 3 ==> !EndsWith(ConditionPatterns[3], ConditionPatterns[j])
  {
  }

  lemma EntryNotSuffix4()
    ensures forall j :: 0 <= j < |ConditionPatterns| && j != 4 ==> !EndsWith(ConditionPatterns[4], ConditionPatterns[j])
  {
  }

  lemma EntryNotSuffix5()
    ensures forall j :: 0 <= j < |ConditionPatterns| && j != 5 ==> !EndsWith(ConditionPatterns[5], ConditionPatterns[j])
  {
  }

  lemma EntryNotSuffix6()
    ensures forall j :: 0 <= j < |ConditionPatterns| && j != 6 ==> !EndsWith(ConditionPatterns[6], ConditionPatterns[j])
  {
  }

  lemma EntryNotSuffix7()
    ensures forall j :: 0 <= j < |ConditionPatterns| && j != 7 ==> !EndsWith(ConditionPatterns[7], ConditionPatterns[j])
  {
  }

  lemma EntryNotSuffix8()
    ensures forall j :: 0 <= j < |ConditionPatterns| && j != 8 ==> !EndsWith(ConditionPatterns[8], ConditionPatterns[j])
  {
  }

  lemma EntryNotSuffix9()
    ensures forall j :: 0 <= j < |ConditionPatterns| && j != 9 ==> !EndsWith(ConditionPatterns[9], ConditionPatterns[j])
  {
  }

  lemma EntryNotSuffix10()
    ensures forall j :: 0 <= j < |ConditionPatterns| && j != 10 ==> !EndsWith(ConditionPatterns[10], ConditionPatterns[j])
  {
  }

  lemma EntryNotSuffix11()
    ensures forall j :: 0 <= j < |ConditionPatterns| && j != 11 ==> !EndsWith(ConditionPatterns[11], ConditionPatterns[j])
  {
  }

  lemma EntryNotSuffix12()
    ensures forall j :: 0 <= j < |ConditionPatterns| && j != 12 ==> !EndsWith(ConditionPatterns[12], ConditionPatterns[j])
  {
  }

  lemma EntryNotSuffix13()
    ensures forall j :: 0 <= j < |ConditionPatterns| && j != 13 ==> !EndsWith(ConditionPatterns[13], ConditionPatterns[j])
  {
  }

  lemma EntryNotSuffix14()
    ensures forall j :: 0 <= j < |ConditionPatterns| && j != 14 ==> !EndsWith(ConditionPatterns[14], ConditionPatterns[j])
  {
  }

  /** No entry of the suffix table ends with another entry. */
  lemma TableSuffixFree()
    ensures forall i, j :: 0 <= i < |ConditionPatterns| && 0 <= j < |ConditionPatterns| && i != j ==>
      !EndsWith(ConditionPatterns[i], ConditionPatterns[j])
  {
    EntryNotSuffix0();
    EntryNotSuffix1();
    EntryNotSuffix2();
    EntryNotSuffix3();
    EntryNotSuffix4();
    EntryNotSuffix5();
    EntryNotSuffix6();
    EntryNotSuffix7();
    EntryNotSuffix8();
    EntryNotSuffix9();
    EntryNotSuffix10();
    EntryNotSuffix11();
    EntryNotSuffix12();
    EntryNotSuffix13();
    EntryNotSuffix14();
  }

  lemma SuffixOfSuffix(c: string, a: string, b: string)
    requires EndsWith(c, a) && EndsWith(c, b) && |b| <= |a|
    ensures EndsWith(a, b)
  {
    assert a[|a| - |b|..] == c[|c| - |b|..];
  }

  /** At most one entry matches, so table order cannot change the result. */
  lemma AtMostOneEntryMatches(c: string, i: nat, j: nat)
    requires i < |ConditionPatterns| && j < |ConditionPatterns|
    requires EndsWith(c, ConditionPatterns[i]) && EndsWith(c, ConditionPatterns[j])
    ensures i == j
  {
    TableSuffixFree();
  }

  /** Whichever entry an atom ends with is the one the scan picks. */
  lemma FirstSuffixIsTheMatch(c: string, i: nat)
    requires i < |ConditionPatterns| && EndsWith(c, ConditionPatterns[i])
    ensures FirstSuffix(c, 0) == Some(i)
  {
    var r := FirstSuffix(c, 0);
    AtMostOneEntryMatches(c, r.value, i);
  }

  /** An entry resolves to the member whose value it is, or to nothing exactly when it is one of the six. */
  predicate EntryResolves(p: string) {
    && (Resolve(p).Some? ==> ConditionValue(Resolve(p).value) == p)
    && (Resolve(p).None? <==> p in UnresolvableSuffixes)
    && (Resolve(p).Some? ==> Resolve(p).value != And && Resolve(p).value != Or)
  }

  /** What each entry resolves to: its own member, or nothing for the six. */
  lemma EntryResolution(i: nat)
    requires i < |ConditionPatterns|
    ensures Resolve(ConditionPatterns[i]).Some? ==> ConditionValue(Resolve(ConditionPatterns[i]).value) == ConditionPatterns[i]
    ensures Resolve(ConditionPatterns[i]).None? <==> ConditionPatterns[i] in UnresolvableSuffixes
    ensures Resolve(ConditionPatterns[i]).Some? ==> Resolve(ConditionPatterns[i]).value != And && Resolve(ConditionPatterns[i]).value != Or
  {
    if i < 3 { EntryResolutionA(i); assert EntryResolves(ConditionPatterns[i]); }
    else if i < 6 { EntryResolutionB(i); assert EntryResolves(ConditionPatterns[i]); }
    else if i < 9 { EntryResolutionC(i); assert EntryResolves(ConditionPatterns[i]); }
    else if i < 12 { EntryResolutionD(i); assert EntryResolves(ConditionPatterns[i]); }
    else { EntryResolutionE(i); assert EntryResolves(ConditionPatterns[i]); }
  }

  lemma EntryResolutionA(i: nat)
    requires 0 <= i < 3
    ensures EntryResolves(ConditionPatterns[i])
  {
    if i == 0 {
      assert ConditionPatterns[i] == "GreaterThanEqual";
      ResolvesGreaterThanEqual();
    } else if i == 1 {
      assert ConditionPatterns[i] == "LessThanEqual";
      ResolvesLessThanEqual();
    } else if i == 2 {
      assert ConditionPatterns[i] == "GreaterThan";
      ResolvesGreaterThan();
    }
  }

  lemma EntryResolutionB(i: nat)
    requires 3 <= i < 6
    ensures EntryResolves(ConditionPatterns[i])
  {
    if i == 3 {
      assert ConditionPatterns[i] == "LessThan";
      ResolvesLessThan();
    } else if i == 4 {
      assert ConditionPatterns[i] == "Containing";
      ResolvesContaining();
    } else if i == 5 {
      assert ConditionPatterns[i] == "StartingWith";
      ResolvesStartingWith();
    }
  }

  lemma EntryResolutionC(i: nat)
    requires 6 <= i < 9
    ensures EntryResolves(ConditionPatterns[i])
  {
    if i == 6 {
      assert ConditionPatterns[i] == "EndingWith";
      ResolvesEndingWith();
    } else if i == 7 {
      assert ConditionPatterns[i] == "Between";
      ResolvesBetween();
    } else if i == 8 {
      assert ConditionPatterns[i] == "Like";
      ResolvesLike();
    }
  }

  lemma EntryResolutionD(i: nat)
    requires 9 <= i < 12
    ensures EntryResolves(ConditionPatterns[i])
  {
    if i == 9 {
      assert ConditionPatterns[i] == "In";
      ResolvesIn();
    } else if i == 10 {
      assert ConditionPatterns[i] == "IsNull";
      ResolvesIsNull();
    } else if i == 11 {
      assert ConditionPatterns[i] == "IsNotNull";
      ResolvesIsNotNull();
    }
  }

  lemma EntryResolutionE(i: nat)
    requires 12 <= i < 15
    ensures EntryResolves(ConditionPatterns[i])
  {
    if i == 12 {
      assert ConditionPatterns[i] == "True";
      ResolvesTrue();
    } else if i == 13 {
      assert ConditionPatterns[i] == "False";
      ResolvesFalse();
    } else if i == 14 {
      assert ConditionPatterns[i] == "Not";
      ResolvesNot();
    }
  }

  lemma ResolvesGreaterThanEqual()
    ensures EntryResolves("GreaterThanEqual")
  {
    KeyGreaterThanEqual();
  }

  lemma ResolvesLessThanEqual()
    ensures EntryResolves("LessThanEqual")
  {
    KeyLessThanEqual();
  }

  lemma ResolvesGreaterThan()
    ensures EntryResolves("GreaterThan")
  {
    KeyGreaterThan();
  }

  lemma ResolvesEndingWith()
    ensures EntryResolves("EndingWith")
  {
    KeyEndingWith();
  }

  lemma ResolvesBetween()
    ensures EntryResolves("Between")
  {
    KeyBetween();
  }

  lemma ResolvesLike()
    ensures EntryResolves("Like")
  {
    KeyLike();
  }

  lemma ResolvesIn()
    ensures EntryResolves("In")
  {
    KeyIn();
  }

  lemma ResolvesIsNull()
    ensures EntryResolves("IsNull")
  {
    KeyIsNull();
  }

  lemma ResolvesIsNotNull()
    ensures EntryResolves("IsNotNull")
  {
    KeyIsNotNull();
  }

  lemma ResolvesTrue()
    ensures EntryResolves("True")
  {
    KeyTrue();
  }

  lemma ResolvesFalse()
    ensures EntryResolves("False")
  {
    KeyFalse();
  }

  lemma ResolvesNot()
    ensures EntryResolves("Not")
  {
    KeyNot();
  }

  lemma ResolvesLessThan()
    ensures EntryResolves("LessThan")
  {
    KeyLessThan();
  }

  lemma ResolvesContaining()
    ensures EntryResolves("Containing")
  {
    KeyContaining();
  }

  lemma ResolvesStartingWith()
    ensures EntryResolves("StartingWith")
  {
    KeyStartingWith();
  }

  /** Every entry of the table is a non-empty suffix. */
  lemma EntriesNonEmpty()
    ensures forall i :: 0 <= i < |ConditionPatterns| ==> |ConditionPatterns[i]| > 0
  {
  }

  /**
   * The meaning of a parsed atom: it ends with the operator's enum value and
   * the field is the snake_case of what precedes it (the whole atom for
   * `EQUALS`). Parsing never yields the `AND`/`OR` members.
   */
  lemma SingleConditionOk(c: string, f: string, op: QueryCondition)
    requires ParseSingleCondition(c) == Ok((f, op))
    ensures EndsWith(c, ConditionValue(op))
    ensures f == CamelToSnake(c[..|c| - |ConditionValue(op)|])
    ensures op != And && op != Or
  {
    match FirstSuffix(c, 0)
    case None =>
      assert c[..|c|] == c;
    case Some(i) =>
      var name := ConditionPatterns[i];
      var field := c[..|c| - |name|];
      assert Resolve(name) == Some(op) && f == CamelToSnake(field);
      EntryResolution(i);
  }

  /** An atom parses as `EQUALS` on the whole atom iff it ends with no table entry. */
  lemma SingleConditionEquals(c: string)
    ensures ParseSingleCondition(c) == Ok((CamelToSnake(c), Equals))
      <==> forall j :: 0 <= j < |ConditionPatterns| ==> !EndsWith(c, ConditionPatterns[j])
  {
    match FirstSuffix(c, 0)
    case None =>
    case Some(i) =>
      EntryResolution(i);
      EntriesNonEmpty();
  }

  /** Parsing an atom fails iff it ends with one of the six unresolvable entries. */
  lemma SingleConditionFails(c: string)
    ensures ParseSingleCondition(c).Err? <==> exists p :: p in UnresolvableSuffixes && EndsWith(c, p)
  {
    match FirstSuffix(c, 0)
    case None =>
      assert forall p :: p in UnresolvableSuffixes ==> p in ConditionPatterns;
    case Some(i) =>
      EntryResolution(i);
      if exists p :: p in UnresolvableSuffixes && EndsWith(c, p) {
        var p :| p in UnresolvableSuffixes && EndsWith(c, p);
        assert p in ConditionPatterns;
        var j :| 0 <= j < |ConditionPatterns| && ConditionPatterns[j] == p;
        AtMostOneEntryMatches(c, i, j);
      }
  }

  // ---------------------------------------------------------------------
  // Splitting on a capture group: `re.split('(A|B|...)', s)`

  /** The first separator (in alternation order) that `s` starts with. */
  function MatchSep(s: string, seps: seq<string>): (r: Option<string>)
    ensures r.Some? ==> r.value in seps && StartsWith(s, r.value)
    ensures r.None? ==> forall sep :: sep in seps ==> !StartsWith(s, sep)
  {
    if seps == [] then None
    else if StartsWith(s, seps[0]) then Some(seps[0])
    else MatchSep(s, seps[1..])
  }

  predicate NonEmptySeps(seps: seq<string>) {
    forall sep :: sep in seps ==> |sep| > 0
  }

  /**
   * `re.split` with one capturing group: the pieces between matches, with
   * each matched separator in between, scanning left to right.
   */
  function ReSplit(s: string, seps: seq<string>): (r: seq<string>)
    requires NonEmptySeps(seps)
    ensures |r| % 2 == 1
    decreases |s|
  {
    if s == [] then [""]
    else match MatchSep(s, seps)
      case Some(m) => ["", m] + ReSplit(s[|m|..], seps)
      case None =>
        var rest := ReSplit(s[1..], seps);
        [[s[0]] + rest[0]] + rest[1..]
  }

  /** `sep` does not occur anywhere in `t`. */
  predicate Avoids(t: string, sep: string) {
    forall j :: 0 <= j < |t| ==> !StartsWith(t[j..], sep)
  }

  lemma {:induction false} ReSplitFirstIsPrefix(s: string, seps: seq<string>)
    requires NonEmptySeps(seps)
    ensures StartsWith(s, ReSplit(s, seps)[0])
    decreases |s|
  {
    if s != [] && MatchSep(s, seps).None? {
      ReSplitFirstIsPrefix(s[1..], seps);
      var rest := ReSplit(s[1..], seps);
      assert s[..|rest[0]| + 1] == [s[0]] + s[1..][..|rest[0]|];
    }
  }

  /** The split loses nothing: the tokens concatenate back to the input. */
  lemma {:induction false} ReSplitConcat(s: string, seps: seq<string>)
    requires NonEmptySeps(seps)
    ensures Concat(ReSplit(s, seps)) == s
    decreases |s|
  {
    var r := ReSplit(s, seps);
    if s != [] {
      match MatchSep(s, seps)
      case Some(m) =>
        var tail := ReSplit(s[|m|..], seps);
        ReSplitConcat(s[|m|..], seps);
        assert r[1..] == [m] + tail;
        assert r[1..][1..] == tail;
        assert s == m + s[|m|..] by { assert s[..|m|] == m; }
      case None =>
        var rest := ReSplit(s[1..], seps);
        ReSplitConcat(s[1..], seps);
        assert r[1..] == rest[1..];
        assert Concat(rest) == rest[0] + Concat(rest[1..]);
        assert s == [s[0]] + s[1..];
    }
  }

  /** Every odd-indexed token is one of the separators. */
  lemma {:induction false} ReSplitSeparators(s: string, seps: seq<string>)
    requires NonEmptySeps(seps)
    ensures forall k :: 0 <= k < |ReSplit(s, seps)| && k % 2 == 1 ==> ReSplit(s, seps)[k] in seps
    decreases |s|
  {
    var r := ReSplit(s, seps);
    if s != [] {
      match MatchSep(s, seps)
      case Some(m) =>
        var tail := ReSplit(s[|m|..], seps);
        ReSplitSeparators(s[|m|..], seps);
        forall k | 0 <= k < |r| && k % 2 == 1 ensures r[k] in seps {
          if k > 1 { assert r[k] == tail[k - 2]; }
        }
      case None =>
        var rest := ReSplit(s[1..], seps);
        ReSplitSeparators(s[1..], seps);
        forall k | 0 <= k < |r| && k % 2 == 1 ensures r[k] in seps {
          assert r[k] == rest[k];
        }
    }
  }

  /** No even-indexed piece contains a separator: the split fires on every occurrence, even inside a field name. */
  lemma {:induction false} ReSplitPiecesAvoid(s: string, seps: seq<string>)
    requires NonEmptySeps(seps)
    ensures forall k, sep :: 0 <= k < |ReSplit(s, seps)| && k % 2 == 0 && sep in seps ==> Avoids(ReSplit(s, seps)[k], sep)
    decreases |s|
  {
    var r := ReSplit(s, seps);
    if s != [] {
      match MatchSep(s, seps)
      case Some(m) =>
        var tail := ReSplit(s[|m|..], seps);
        ReSplitPiecesAvoid(s[|m|..], seps);
        forall k, sep | 0 <= k < |r| && k % 2 == 0 && sep in seps ensures Avoids(r[k], sep) {
          if k > 1 { assert r[k] == tail[k - 2]; }
        }
      case None =>
        var rest := ReSplit(s[1..], seps);
        ReSplitPiecesAvoid(s[1..], seps);
        ReSplitFirstIsPrefix(s[1..], seps);
        forall k, sep | 0 <= k < |r| && k % 2 == 0 && sep in seps ensures Avoids(r[k], sep) {
          if k > 0 {
            assert r[k] == rest[k];
          } else {
            FirstPieceAvoids(s, seps, sep);
          }
        }
    }
  }

  lemma FirstPieceAvoids(s: string, seps: seq<string>, sep: string)
    requires NonEmptySeps(seps) && s != [] && MatchSep(s, seps).None? && sep in seps
    requires Avoids(ReSplit(s[1..], seps)[0], sep)
    requires StartsWith(s[1..], ReSplit(s[1..], seps)[0])
    ensures Avoids([s[0]] + ReSplit(s[1..], seps)[0], sep)
  {
    ConsAvoids(s, ReSplit(s[1..], seps)[0], sep);
  }

  /** A character that does not start `sep`, put before a text that avoids `sep`, keeps it avoided. */
  lemma ConsAvoids(s: string, rest0: string, sep: string)
    requires s != [] && !StartsWith(s, sep) && Avoids(rest0, sep) && StartsWith(s[1..], rest0)
    ensures Avoids([s[0]] + rest0, sep)
  {
    var t := [s[0]] + rest0;
    assert s[..|t|] == t;
    forall j | 0 <= j < |t| ensures !StartsWith(t[j..], sep) {
      if j == 0 {
        if |sep| <= |t| {
          assert s[..|sep|] == t[..|sep|];
        }
      } else {
        assert t[j..] == rest0[j - 1..];
      }
    }
  }

  /** The tokens of a condition string: `re.split(r'(And|Or)', s)`. */
  function ConditionTokens(s: string): seq<string> {
    ReSplit(s, ["And", "Or"])
  }

  /**
   * The split is case-sensitive and ignores word boundaries: text starting
   * with `Or` (such as the field `OrderNumber`) opens with an `Or` connector.
   */
  lemma ConditionTokensOr(s: string)
    ensures ConditionTokens("Or" + s) == ["", "Or"] + ConditionTokens(s)
  {
    var t := "Or" + s;
    DiffersAt(t, "And", 0);
    assert t[..2] == "Or";
    assert MatchSep(t, ["And", "Or"]) == Some("Or");
    assert t[2..] == s;
    assert ReSplit(t, ["And", "Or"]) == ["", "Or"] + ReSplit(t[2..], ["And", "Or"]);
  }

  /** The tokens of an order clause: `re.split(r'(And)', s)`. */
  function OrderTokens(s: string): seq<string> {
    ReSplit(s, ["And"])
  }

  // ---------------------------------------------------------------------
  // Conditions

  datatype QueryPart = QueryPart(field: string, operator: QueryCondition, connector: Option<string>)

  predicate IsConnectorToken(t: string) { t == "And" || t == "Or" }

  /** A token that becomes a condition: neither a connector nor empty. */
  predicate IsAtom(t: string) { !IsConnectorToken(t) && t != "" }

  /** Prepend finished parts to the outcome of the remaining tokens. */
  function PrependParts(done: seq<QueryPart>, r: Result<seq<QueryPart>, ParseError>): Result<seq<QueryPart>, ParseError> {
    match r
    case Ok(rest) => Ok(done + rest)
    case Err(e) => Err(e)
  }

  /** `_parse_conditions` from token `i` on, with `connector` the current connector. */
  function ConditionsFrom(tokens: seq<string>, i: nat, connector: Option<string>): Result<seq<QueryPart>, ParseError>
    requires i <= |tokens|
    decreases |tokens| - i
  {
    if i == |tokens| then Ok([])
    else if IsConnectorToken(tokens[i]) then ConditionsFrom(tokens, i + 1, Some(Upper(tokens[i])))
    else if tokens[i] == "" then ConditionsFrom(tokens, i + 1, connector)
    else match ParseSingleCondition(tokens[i])
      case Err(e) => Err(e)
      case Ok((field, op)) => PrependParts([QueryPart(field, op, connector)], ConditionsFrom(tokens, i + 1, connector))
  }

  lemma PrependPartsAssoc(a: seq<QueryPart>, b: seq<QueryPart>, r: Result<seq<QueryPart>, ParseError>)
    ensures PrependParts(a, PrependParts(b, r)) == PrependParts(a + b, r)
  {
    if r.Ok? {
      assert a + (b + r.value) == (a + b) + r.value;
    }
  }

  /** `_parse_conditions` */
  method ParseConditions(conditionStr: string) returns (r: Result<seq<QueryPart>, ParseError>)
    ensures r == ConditionsFrom(ConditionTokens(conditionStr), 0, None)
  {
    var tokens := ConditionTokens(conditionStr);
    var parts: seq<QueryPart> := [];
    var currentConnector: Option<string> := None;
    var i := 0;
    assert ConditionsFrom(tokens, 0, None) == PrependParts([], ConditionsFrom(tokens, 0, None)) by {
      match ConditionsFrom(tokens, 0, None)
      case Ok(rest) => assert [] + rest == rest;
      case Err(_) =>
    }
    while i < |tokens|
      invariant 0 <= i <= |tokens|
      invariant ConditionsFrom(tokens, 0, None) == PrependParts(parts, ConditionsFrom(tokens, i, currentConnector))
      decreases |tokens| - i
    {
      var token := tokens[i];
      if IsConnectorToken(token) {
        currentConnector := Some(Upper(token));
        i := i + 1;
        continue;
      }
      if token == "" {
        i := i + 1;
        continue;
      }
      var single := ParseSingleCondition(token);
      if single.Err? {
        return Err(single.error);
      }
      var (field, operator) := single.value;
      PrependPartsAssoc(parts, [QueryPart(field, operator, currentConnector)], ConditionsFrom(tokens, i + 1, currentConnector));
      assert PrependParts(parts, ConditionsFrom(tokens, i, currentConnector))
          == PrependParts(parts + [QueryPart(field, operator, currentConnector)], ConditionsFrom(tokens, i + 1, currentConnector));
      parts := parts + [QueryPart(field, operator, currentConnector)];
      i := i + 1;
    }
    assert parts + [] == parts;
    return Ok(parts);
  }

  /** Indices of the atoms among `tokens[i..]`, in order. */
  function AtomPositions(tokens: seq<string>, i: nat): (r: seq<nat>)
    requires i <= |tokens|
    ensures forall k :: 0 <= k < |r| ==> i <= r[k] < |tokens| && IsAtom(tokens[r[k]])
    ensures forall k, l :: 0 <= k < l < |r| ==> r[k] < r[l]
    decreases |tokens| - i
  {
    if i == |tokens| then []
    else if IsAtom(tokens[i]) then [i] + AtomPositions(tokens, i + 1)
    else AtomPositions(tokens, i + 1)
  }

  /** The connector in effect at token `j` when the scan starts at `i` with `c`: the latest `And`/`Or` before `j`, upper-cased. */
  function ConnectorAt(tokens: seq<string>, i: nat, j: nat, c: Option<string>): Option<string>
    requires i <= j <= |tokens|
    decreases j - i
  {
    if i == j then c
    else ConnectorAt(tokens, i + 1, j, if IsConnectorToken(tokens[i]) then Some(Upper(tokens[i])) else c)
  }

  /** A failed condition parse reports the error of an atom that fails to parse, and of no other token. */
  lemma {:induction false} ConditionsErr(tokens: seq<string>, i: nat, c: Option<string>)
    requires i <= |tokens|
    requires ConditionsFrom(tokens, i, c).Err?
    ensures exists j :: (i <= j < |tokens| && IsAtom(tokens[j]) &&
      ParseSingleCondition(tokens[j]) == Err(ConditionsFrom(tokens, i, c).error))
    decreases |tokens| - i
  {
    var t := tokens[i];
    var c' := if IsConnectorToken(t) then Some(Upper(t)) else c;
    if IsAtom(t) && ParseSingleCondition(t).Err? {
      assert IsAtom(tokens[i]) && ParseSingleCondition(tokens[i]) == Err(ConditionsFrom(tokens, i, c).error);
    } else {
      assert ConditionsFrom(tokens, i + 1, c').Err? && ConditionsFrom(tokens, i + 1, c').error == ConditionsFrom(tokens, i, c).error;
      ConditionsErr(tokens, i + 1, c');
    }
  }

  /**
   * Condition parts keep source order: the k-th part is the parse of the
   * k-th atom, and its connector is the latest connector token before that
   * atom, upper-cased (or the initial one, None, before the first).
   */
  lemma {:induction false} ConditionsParts(tokens: seq<string>, i: nat, c: Option<string>)
    requires i <= |tokens|
    requires ConditionsFrom(tokens, i, c).Ok?
    ensures |ConditionsFrom(tokens, i, c).value| == |AtomPositions(tokens, i)|
    ensures forall k :: 0 <= k < |AtomPositions(tokens, i)| ==>
      var part := ConditionsFrom(tokens, i, c).value[k];
      var j := AtomPositions(tokens, i)[k];
      ParseSingleCondition(tokens[j]) == Ok((part.field, part.operator)) && part.connector == ConnectorAt(tokens, i, j, c)
    decreases |tokens| - i
  {
    if i < |tokens| {
      var t := tokens[i];
      var c' := if IsConnectorToken(t) then Some(Upper(t)) else c;
      ConditionsParts(tokens, i + 1, c');
      var ps' := ConditionsFrom(tokens, i + 1, c').value;
      assert PartsParse(tokens, i + 1, ps') && PartsConnect(tokens, i + 1, c', ps');
      if IsAtom(t) {
        var (field, op) := ParseSingleCondition(t).value;
        PartsParseAtom(tokens, i, field, op, ps');
        PartsConnectAtom(tokens, i, c, QueryPart(field, op, c), ps');
      } else {
        PartsConnectSkip(tokens, i, c, ps');
      }
    }
  }

  /** The parts `ps` are, in order, the parses of the atoms from `i` on. */
  ghost predicate PartsParse(tokens: seq<string>, i: nat, ps: seq<QueryPart>)
    requires i <= |tokens|
  {
    var pos := AtomPositions(tokens, i);
    |ps| == |pos| && forall k :: 0 <= k < |pos| ==> ParseSingleCondition(tokens[pos[k]]) == Ok((ps[k].field, ps[k].operator))
  }

  /** Each of the parts `ps` carries the connector in effect at its atom when the scan starts at `i` with `c`. */
  ghost predicate PartsConnect(tokens: seq<string>, i: nat, c: Option<string>, ps: seq<QueryPart>)
    requires i <= |tokens|
  {
    var pos := AtomPositions(tokens, i);
    |ps| == |pos| && forall k :: 0 <= k < |pos| ==> ps[k].connector == ConnectorAt(tokens, i, pos[k], c)
  }

  /** One scan step leaves the connector in effect at every later token unchanged. */
  lemma ConnectorStep(tokens: seq<string>, i: nat, j: nat, c: Option<string>)
    requires i < j <= |tokens|
    ensures ConnectorAt(tokens, i, j, c) == ConnectorAt(tokens, i + 1, j, if IsConnectorToken(tokens[i]) then Some(Upper(tokens[i])) else c)
  {
  }

  lemma PartsParseAtom(tokens: seq<string>, i: nat, field: string, op: QueryCondition, ps': seq<QueryPart>)
    requires i < |tokens| && IsAtom(tokens[i]) && ParseSingleCondition(tokens[i]) == Ok((field, op))
    requires PartsParse(tokens, i + 1, ps')
    ensures forall c :: PartsParse(tokens, i, [QueryPart(field, op, c)] + ps')
  {
    var pos := AtomPositions(tokens, i);
    var pos' := AtomPositions(tokens, i + 1);
    assert pos == [i] + pos';
    forall c ensures PartsParse(tokens, i, [QueryPart(field, op, c)] + ps') {
      var ps := [QueryPart(field, op, c)] + ps';
      forall k | 0 < k < |pos| ensures ps[k] == ps'[k - 1] && pos[k] == pos'[k - 1] {
      }
    }
  }

  lemma PartsConnectAtom(tokens: seq<string>, i: nat, c: Option<string>, p: QueryPart, ps': seq<QueryPart>)
    requires i < |tokens| && IsAtom(tokens[i]) && p.connector == c
    requires PartsConnect(tokens, i + 1, c, ps')
    ensures PartsConnect(tokens, i, c, [p] + ps')
  {
    var pos := AtomPositions(tokens, i);
    var pos' := AtomPositions(tokens, i + 1);
    assert pos == [i] + pos';
    var ps := [p] + ps';
    forall k | 0 < k < |pos| ensures ps[k] == ps'[k - 1] && pos[k] == pos'[k - 1] {
    }
    forall k | 0 < k < |pos| ensures ps[k].connector == ConnectorAt(tokens, i, pos[k], c) {
      ConnectorStep(tokens, i, pos[k], c);
    }
  }

  lemma PartsConnectSkip(tokens: seq<string>, i: nat, c: Option<string>, ps': seq<QueryPart>)
    requires i < |tokens| && !IsAtom(tokens[i])
    requires PartsConnect(tokens, i + 1, if IsConnectorToken(tokens[i]) then Some(Upper(tokens[i])) else c, ps')
    ensures PartsConnect(tokens, i, c, ps')
  {
    var pos := AtomPositions(tokens, i);
    assert pos == AtomPositions(tokens, i + 1);
    forall k | 0 <= k < |pos| ensures ConnectorAt(tokens, i, pos[k], c) == ConnectorAt(tokens, i + 1, pos[k], if IsConnectorToken(tokens[i]) then Some(Upper(tokens[i])) else c) {
      ConnectorStep(tokens, i, pos[k], c);
    }
  }

  // ---------------------------------------------------------------------
  // Order clause

  datatype Direction = Asc | Desc

  function DirectionSql(d: Direction): string {
    match d
    case Asc => "ASC"
    case Desc => "DESC"
  }

  /** One `And`-separated order item: a `Desc`/`Asc` suffix is stripped, `ASC` by default. */
  function OrderItem(part: string): (string, Direction) {
    if EndsWith(part, "Desc") then (CamelToSnake(part[..|part| - 4]), Desc)
    else if EndsWith(part, "Asc") then (CamelToSnake(part[..|part| - 3]), Asc)
    else (CamelToSnake(part), Asc)
  }

  /** An order item written as `field + "Desc"`, `field + "Asc"` or a bare field reads back as that field and direction. */
  lemma OrderItemRoundTrip(field: string)
    ensures OrderItem(field + "Desc") == (CamelToSnake(field), Desc)
    ensures OrderItem(field + "Asc") == (CamelToSnake(field), Asc)
    ensures !EndsWith(field, "Desc") && !EndsWith(field, "Asc") ==> OrderItem(field) == (CamelToSnake(field), Asc)
  {
    assert (field + "Desc")[..|field|] == field;
    assert (field + "Desc")[|field|..] == "Desc";
    assert (field + "Asc")[..|field|] == field;
    assert (field + "Asc")[|field|..] == "Asc";
    assert !EndsWith(field + "Asc", "Desc") by {
      var t := field + "Asc";
      assert |t| >= 4 ==> t[|t| - 3] == 'A' != "Desc"[1];
    }
  }

  /** `_parse_order_by` from token `i` on. */
  function OrderItemsFrom(tokens: seq<string>, i: nat): seq<(string, Direction)>
    requires i <= |tokens|
    decreases |tokens| - i
  {
    if i == |tokens| then []
    else if tokens[i] == "And" || tokens[i] == "" then OrderItemsFrom(tokens, i + 1)
    else [OrderItem(tokens[i])] + OrderItemsFrom(tokens, i + 1)
  }

  /** `_parse_order_by` */
  method ParseOrderBy(orderStr: string) returns (orders: seq<(string, Direction)>)
    ensures orders == OrderItemsFrom(OrderTokens(orderStr), 0)
  {
    var parts := OrderTokens(orderStr);
    orders := [];
    for i := 0 to |parts|
      invariant OrderItemsFrom(parts, 0) == orders + OrderItemsFrom(parts, i)
    {
      var part := parts[i];
      if part == "And" || part == "" {
        OrderItemsSkip(parts, i);
        continue;
      }
      var field: string;
      var direction: Direction;
      if EndsWith(part, "Desc") {
        field := part[..|part| - 4];
        direction := Desc;
      } else if EndsWith(part, "Asc") {
        field := part[..|part| - 3];
        direction := Asc;
      } else {
        field := part;
        direction := Asc;
      }
      assert (CamelToSnake(field), direction) == OrderItem(part);
      OrderItemsTake(parts, i, orders);
      orders := orders + [OrderItem(part)];
    }
    assert orders + [] == orders;
  }

  lemma OrderItemsSkip(tokens: seq<string>, i: nat)
    requires i < |tokens| && (tokens[i] == "And" || tokens[i] == "")
    ensures OrderItemsFrom(tokens, i) == OrderItemsFrom(tokens, i + 1)
  {
  }

  lemma OrderItemsTake(tokens: seq<string>, i: nat, done: seq<(string, Direction)>)
    requires i < |tokens| && tokens[i] != "And" && tokens[i] != ""
    ensures done + OrderItemsFrom(tokens, i) == (done + [OrderItem(tokens[i])]) + OrderItemsFrom(tokens, i + 1)
  {
    assert OrderItemsFrom(tokens, i) == [OrderItem(tokens[i])] + OrderItemsFrom(tokens, i + 1);
  }

  /** Indices of the order items among `tokens[i..]`: every token that is neither `And` nor empty. */
  function OrderPositions(tokens: seq<string>, i: nat): (r: seq<nat>)
    requires i <= |tokens|
    ensures forall k :: 0 <= k < |r| ==> i <= r[k] < |tokens| && tokens[r[k]] != "And" && tokens[r[k]] != ""
    ensures forall k, l :: 0 <= k < l < |r| ==> r[k] < r[l]
    decreases |tokens| - i
  {
    if i == |tokens| then []
    else if tokens[i] == "And" || tokens[i] == "" then OrderPositions(tokens, i + 1)
    else [i] + OrderPositions(tokens, i + 1)
  }

  /** The k-th order item is read from the k-th non-empty, non-`And` token, in source order. */
  lemma {:induction false} OrderItemsSpec(tokens: seq<string>, i: nat)
    requires i <= |tokens|
    ensures |OrderItemsFrom(tokens, i)| == |OrderPositions(tokens, i)|
    ensures forall k :: 0 <= k < |OrderPositions(tokens, i)| ==>
      OrderItemsFrom(tokens, i)[k] == OrderItem(tokens[OrderPositions(tokens, i)[k]])
    decreases |tokens| - i
  {
    if i < |tokens| {
      OrderItemsSpec(tokens, i + 1);
      if tokens[i] != "And" && tokens[i] != "" {
        var items := OrderItemsFrom(tokens, i);
        var pos := OrderPositions(tokens, i);
        forall k | 0 <= k < |pos| ensures items[k] == OrderItem(tokens[pos[k]]) {
          if k > 0 { assert items[k] == OrderItemsFrom(tokens, i + 1)[k - 1] && pos[k] == OrderPositions(tokens, i + 1)[k - 1]; }
        }
      }
    }
  }

  // ---------------------------------------------------------------------
  // Whole method names

  /** The parser's result. */
  datatype ParsedQuery = ParsedQuery(operation: QueryOperation, parts: seq<QueryPart>, orderBy: seq<(string, Direction)>)

  /** `re.match(r'^(find|count|delete|exists)By', name)`: the operation whose prefix `name` starts with. */
  function OperationOf(name: string): (r: Option<QueryOperation>)
    ensures r.Some? ==> StartsWith(name, OperationValue(r.value) + "By")
    ensures r.None? <==> forall op :: !StartsWith(name, OperationValue(op) + "By")
  {
    if StartsWith(name, "findBy") then Some(Find)
    else if StartsWith(name, "countBy") then Some(Count)
    else if StartsWith(name, "deleteBy") then Some(Delete)
    else if StartsWith(name, "existsBy") then Some(Exists)
    else None
  }

  /**
   * `remainder.split('OrderBy')` taking pieces 0 and 1 when `'OrderBy' in
   * remainder`: the condition text before the first `OrderBy` and the order
   * clause up to the second one (or the end).
   */
  function SplitOrderBy(remainder: string): (string, Option<string>) {
    SplitPieces(remainder, "OrderBy")
  }

  /** Pieces 0 and 1 of `s.split(sep)`, the second only when `sep in s`. */
  function SplitPieces(s: string, sep: string): (string, Option<string>) {
    match SplitOnce(s, sep)
    case None => (s, None)
    case Some((first, rest)) =>
      match SplitOnce(rest, sep)
      case None => (first, Some(rest))
      case Some((second, _)) => (first, Some(second))
  }

  /**
   * Without `OrderBy` the whole remainder is condition text. Otherwise both
   * pieces are free of `OrderBy` and the remainder reads condition text,
   * `OrderBy`, order clause, then whatever follows a second `OrderBy`.
   */
  lemma SplitOrderBySpec(remainder: string)
    ensures SplitOrderBy(remainder).1.None? <==> !Contains(remainder, "OrderBy")
    ensures SplitOrderBy(remainder).1.None? ==> SplitOrderBy(remainder).0 == remainder
    ensures SplitOrderBy(remainder).1.Some? ==>
      !Contains(SplitOrderBy(remainder).0, "OrderBy") && !Contains(SplitOrderBy(remainder).1.value, "OrderBy")
    ensures SplitOrderBy(remainder).1.Some? ==>
      StartsWith(remainder, SplitOrderBy(remainder).0 + "OrderBy" + SplitOrderBy(remainder).1.value)
  {
    SplitPiecesSpec(remainder, "OrderBy");
  }

  lemma SplitPiecesSpec(s: string, sep: string)
    requires |sep| > 0
    ensures SplitPieces(s, sep).1.None? <==> !Contains(s, sep)
    ensures SplitPieces(s, sep).1.None? ==> SplitPieces(s, sep).0 == s
    ensures SplitPieces(s, sep).1.Some? ==>
      !Contains(SplitPieces(s, sep).0, sep) && !Contains(SplitPieces(s, sep).1.value, sep)
    ensures SplitPieces(s, sep).1.Some? ==>
      StartsWith(s, SplitPieces(s, sep).0 + sep + SplitPieces(s, sep).1.value)
  {
    match SplitOnce(s, sep)
    case None =>
    case Some((first, rest)) =>
      SplitOnceFirst(s, sep);
      SecondPiece(s, sep, first, rest);
  }

  lemma SecondPiece(s: string, sep: string, first: string, rest: string)
    requires |sep| > 0 && s == first + sep + rest
    ensures var second := if SplitOnce(rest, sep).Some? then SplitOnce(rest, sep).value.0 else rest;
      !Contains(second, sep) || SplitOnce(rest, sep).None?
    ensures var second := if SplitOnce(rest, sep).Some? then SplitOnce(rest, sep).value.0 else rest;
      StartsWith(s, first + sep + second)
  {
    match SplitOnce(rest, sep)
    case None =>
      TakeConcat(s, []);
    case Some((second, dropped)) =>
      SplitOnceFirst(rest, sep);
      Regroup(first + sep, second, sep, dropped);
      TakeConcat(first + sep + second, sep + dropped);
  }

  /** `QueryMethodParser.parse` as a function of the name. */
  function ParseSpec(methodName: string): Result<ParsedQuery, ParseError> {
    match OperationOf(methodName)
    case None => Err(InvalidMethodName(methodName))
    case Some(op) =>
      var (conditions, clause) := SplitOrderBy(methodName[|OperationValue(op)| + 2..]);
      var orderBy := if clause.Some? then OrderItemsFrom(OrderTokens(clause.value), 0) else [];
      match ConditionsFrom(ConditionTokens(conditions), 0, None)
      case Err(e) => Err(e)
      case Ok(parts) => Ok(ParsedQuery(op, parts, orderBy))
  }

  /** `QueryMethodParser.parse` */
  method Parse(methodName: string) returns (r: Result<ParsedQuery, ParseError>)
    ensures r == ParseSpec(methodName)
  {
    var operation := OperationOf(methodName);
    if operation.None? {
      return Err(InvalidMethodName(methodName));
    }
    var remainder := methodName[|OperationValue(operation.value)| + 2..];
    var orderBy: seq<(string, Direction)> := [];
    var split := SplitOrderBy(remainder);
    if split.1.Some? {
      remainder := split.0;
      orderBy := ParseOrderBy(split.1.value);
    }
    var queryParts := ParseConditions(remainder);
    if queryParts.Err? {
      return Err(queryParts.error);
    }
    return Ok(ParsedQuery(operation.value, queryParts.value, orderBy));
  }

  /** The condition tokens of a name that has an operation prefix. */
  function ParsedTokens(methodName: string): seq<string>
    requires OperationOf(methodName).Some?
  {
    ConditionTokens(SplitOrderBy(methodName[|OperationValue(OperationOf(methodName).value)| + 2..]).0)
  }

  /** The parts of a parsed name are those its condition tokens parse to. */
  lemma ParsedParts(methodName: string)
    requires ParseSpec(methodName).Ok?
    ensures OperationOf(methodName).Some? && ConditionsFrom(ParsedTokens(methodName), 0, None).Ok?
    ensures ParseSpec(methodName).value.parts == ConditionsFrom(ParsedTokens(methodName), 0, None).value
  {
  }

  /** The error of a name that fails on a condition is the one its condition tokens fail with. */
  lemma ParsedError(methodName: string)
    requires ParseSpec(methodName).Err? && ParseSpec(methodName).error.UnknownCondition?
    ensures OperationOf(methodName).Some? && ConditionsFrom(ParsedTokens(methodName), 0, None).Err?
    ensures ParseSpec(methodName).error == ConditionsFrom(ParsedTokens(methodName), 0, None).error
  {
  }

  /** A name without one of the four prefixes is rejected as an invalid method name, and only such a name is. */
  lemma ParseInvalidName(methodName: string)
    ensures ParseSpec(methodName) == Err(InvalidMethodName(methodName))
      <==> forall op :: !StartsWith(methodName, OperationValue(op) + "By")
  {
    match OperationOf(methodName)
    case None =>
    case Some(op) =>
      var tokens := ConditionTokens(SplitOrderBy(methodName[|OperationValue(op)| + 2..]).0);
      if ConditionsFrom(tokens, 0, None).Err? {
        ConditionsErr(tokens, 0, None);
      }
  }

  /** On success the operation is the one named by the prefix. */
  lemma ParseOperation(methodName: string)
    requires ParseSpec(methodName).Ok?
    ensures StartsWith(methodName, OperationValue(ParseSpec(methodName).value.operation) + "By")
  {
  }

  /**
   * Parsing fails with a condition error iff the name has a prefix and one
   * atom of its condition text fails; the reported key is that atom's.
   */
  lemma ParseConditionError(methodName: string)
    requires ParseSpec(methodName).Err? && ParseSpec(methodName).error.UnknownCondition?
    ensures OperationOf(methodName).Some?
    ensures var tokens := ParsedTokens(methodName);
      exists j :: 0 <= j < |tokens| && IsAtom(tokens[j]) && ParseSingleCondition(tokens[j]) == Err(ParseSpec(methodName).error)
  {
    ParsedError(methodName);
    ConditionsErr(ParsedTokens(methodName), 0, None);
  }

  /** Just a prefix (`findBy`, ...) parses to no conditions and no ordering rather than failing. */
  lemma ParseBarePrefix(op: QueryOperation)
    ensures ParseSpec(OperationValue(op) + "By") == Ok(ParsedQuery(op, [], []))
  {
    var name := OperationValue(op) + "By";
    OperationOfBare(op);
    assert name[|OperationValue(op)| + 2..] == "";
    EmptyRemainder();
  }

  lemma OperationOfBare(op: QueryOperation)
    ensures OperationOf(OperationValue(op) + "By") == Some(op)
  {
    var name := OperationValue(op) + "By";
    match op
    case Find =>
    case Count => DiffersAt(name, "findBy", 0);
    case Delete => DiffersAt(name, "findBy", 0); DiffersAt(name, "countBy", 0);
    case Exists => DiffersAt(name, "findBy", 0); DiffersAt(name, "countBy", 0); DiffersAt(name, "deleteBy", 0);
  }

  lemma EmptyRemainder()
    ensures SplitOrderBy("") == ("", None)
    ensures ConditionsFrom(ConditionTokens(""), 0, None) == Ok([])
  {
    assert ConditionTokens("") == [""];
    assert ConditionsFrom([""], 0, None) == Ok([]);
  }

  // ---------------------------------------------------------------------
  // SQL generation

  /** `ValueError("Unsupported operator: ...")` from `_build_condition`. */
  datatype GenerateError = UnsupportedOperator(op: QueryCondition)

  /** How many placeholders, and so how many copies of the field name as parameters, an operator takes. */
  function Arity(op: QueryCondition): nat {
    match op
    case Between => 2
    case IsNull | IsNotNull | True | False => 0
    case _ => 1
  }

  /** The SQL text after `field + " "` for each operator. */
  function OperatorSql(op: QueryCondition): string {
    match op
    case Equals => "= " + "?"
    case GreaterThan => "> " + "?"
    case LessThan => "< " + "?"
    case GreaterThanEqual => ">= " + "?"
    case LessThanEqual => "<= " + "?"
    case Like | Containing | StartingWith | EndingWith => "LIKE " + "?"
    case Between => "BETWEEN " + "?" + " AND " + "?"
    case In => "IN (" + "?" + ")"
    case IsNull => "IS NULL"
    case IsNotNull => "IS NOT NULL"
    case True => "= TRUE"
    case False => "= FALSE"
    case Not => "!= " + "?"
    case And | Or => ""
  }

  /** Text without a `?`, then one placeholder. */
  lemma OnePlaceholder(a: string)
    requires !ContainsChar(a, '?')
    ensures CountChar(a + "?", '?') == 1
  {
    CountCharAbsent(a, '?');
    CountCharAppend(a, "?", '?');
  }

  /** The operators whose SQL text takes no value. */
  predicate TakesNoValue(op: QueryCondition) {
    op == IsNull || op == IsNotNull || op == True || op == False
  }

  lemma NoPlaceholder(op: QueryCondition)
    requires TakesNoValue(op)
    ensures CountChar(OperatorSql(op), '?') == 0
  {
    match op
    case IsNull => NoPlaceholderIn(IsNull, "IS NULL");
    case IsNotNull => NoPlaceholderIn(IsNotNull, "IS NOT NULL");
    case True => NoPlaceholderIn(True, "= TRUE");
    case False => NoPlaceholderIn(False, "= FALSE");
  }

  lemma NoPlaceholderIn(op: QueryCondition, sql: string)
    requires OperatorSql(op) == sql && !ContainsChar(sql, '?')
    ensures CountChar(OperatorSql(op), '?') == 0
  {
    CountCharAbsent(sql, '?');
  }

  lemma SomePlaceholders(op: QueryCondition)
    requires op != And && op != Or && !TakesNoValue(op)
    ensures CountChar(OperatorSql(op), '?') == Arity(op)
  {
    match op
    case Equals => OnePlaceholder("= ");
    case GreaterThan => OnePlaceholder("> ");
    case LessThan => OnePlaceholder("< ");
    case GreaterThanEqual => OnePlaceholder(">= ");
    case LessThanEqual => OnePlaceholder("<= ");
    case Like | Containing | StartingWith | EndingWith => OnePlaceholder("LIKE ");
    case Between =>
      OnePlaceholder("BETWEEN ");
      CountCharAbsent(" AND ", '?');
      CountCharAppend("BETWEEN " + "?", " AND ", '?');
      CountCharAppend("BETWEEN " + "?" + " AND ", "?", '?');
    case In =>
      OnePlaceholder("IN (");
      CountCharAbsent(")", '?');
      CountCharAppend("IN (" + "?", ")", '?');
    case Not => OnePlaceholder("!= ");
  }

  /** Each operator's SQL text holds exactly `Arity` placeholders. */
  lemma OperatorPlaceholders(op: QueryCondition)
    requires op != And && op != Or
    ensures CountChar(OperatorSql(op), '?') == Arity(op)
  {
    if TakesNoValue(op) {
      NoPlaceholder(op);
    } else {
      SomePlaceholders(op);
    }
  }

  /** The parameter names a part contributes: its field, `Arity` times. */
  function PartParams(part: QueryPart): seq<string> {
    seq(Arity(part.operator), _ => part.field)
  }

  /** `_build_condition` */
  function BuildCondition(part: QueryPart): (r: Result<(string, seq<string>), GenerateError>)
    ensures r.Err? <==> part.operator == And || part.operator == Or
    ensures r.Ok? ==> StartsWith(r.value.0, part.field + " ") && r.value.1 == PartParams(part)
    ensures r.Ok? ==> CountChar(r.value.0, '?') == CountChar(part.field, '?') + |r.value.1|
  {
    var op := part.operator;
    if op == And || op == Or then Err(UnsupportedOperator(op))
    else
      var sql := part.field + " " + OperatorSql(op);
      CountCharAppend(part.field, " ", '?');
      CountCharAppend(part.field + " ", OperatorSql(op), '?');
      OperatorPlaceholders(op);
      assert sql[..|part.field + " "|] == part.field + " ";
      Ok((sql, PartParams(part)))
  }

  /** A connector is used only when it is truthy: present and non-empty. */
  predicate HasConnector(part: QueryPart) {
    part.connector.Some? && part.connector.value != ""
  }

  /** The text a part adds to the WHERE clause, given whether conditions were added before it. */
  function Joined(part: QueryPart, condition: string, first: bool): string {
    if HasConnector(part) && !first then " " + part.connector.value + " " + condition else condition
  }

  /** `_build_where_clause` over the parts, as a function of its prefix. */
  function WhereClause(parts: seq<QueryPart>): Result<(string, seq<string>), GenerateError>
    decreases |parts|
  {
    if parts == [] then Ok(("", []))
    else
      var last := parts[|parts| - 1];
      match WhereClause(parts[..|parts| - 1])
      case Err(e) => Err(e)
      case Ok((sql, params)) =>
        match BuildCondition(last)
        case Err(e) => Err(e)
        case Ok((condition, partParams)) =>
          Ok((sql + Joined(last, condition, |parts| == 1), params + partParams))
  }

  /** `_build_where_clause` */
  method BuildWhereClause(parts: seq<QueryPart>) returns (r: Result<(string, seq<string>), GenerateError>)
    ensures r == WhereClause(parts)
  {
    var conditions: seq<string> := [];
    var sql := "";
    var params: seq<string> := [];
    for i := 0 to |parts|
      invariant |conditions| == i
      invariant WhereClause(parts[..i]) == Ok((sql, params))
    {
      var part := parts[i];
      var built := BuildCondition(part);
      WhereClauseNext(parts, i);
      if built.Err? {
        WhereErrPrefix(parts, i + 1);
        return Err(built.error);
      }
      var (condition, partParams) := built.value;
      var piece := if HasConnector(part) && |conditions| > 0 then " " + part.connector.value + " " + condition else condition;
      assert piece == Joined(part, condition, i == 0);
      conditions := conditions + [piece];
      sql := sql + piece;
      params := params + partParams;
    }
    assert parts[..|parts|] == parts;
    return Ok((sql, params));
  }

  /** The clause of the first `i + 1` parts extends that of the first `i` by part `i`; an error in either is the error of the whole. */
  lemma WhereClauseNext(parts: seq<QueryPart>, i: nat)
    requires i < |parts|
    ensures WhereClause(parts[..i + 1]) ==
      match WhereClause(parts[..i])
      case Err(e) => Err(e)
      case Ok((sql, params)) =>
        match BuildCondition(parts[i])
        case Err(e) => Err(e)
        case Ok((condition, partParams)) => Ok((sql + Joined(parts[i], condition, i == 0), params + partParams))
  {
    assert parts[..i + 1][..i] == parts[..i];
    assert parts[..i + 1][i] == parts[i];
  }

  lemma {:induction false} WhereErrPrefix(parts: seq<QueryPart>, n: nat)
    requires n <= |parts| && WhereClause(parts[..n]).Err?
    ensures WhereClause(parts) == WhereClause(parts[..n])
    decreases |parts| - n
  {
    if n < |parts| {
      assert parts[..n + 1][..n] == parts[..n];
      WhereErrPrefix(parts, n + 1);
    } else {
      assert parts[..n] == parts;
    }
  }

  /** The parameter names of a list of parts: each part's, in part order. */
  function ParamsOf(parts: seq<QueryPart>): seq<string> {
    if parts == [] then [] else PartParams(parts[0]) + ParamsOf(parts[1..])
  }

  lemma {:induction false} ParamsOfAppend(parts: seq<QueryPart>, part: QueryPart)
    ensures ParamsOf(parts + [part]) == ParamsOf(parts) + PartParams(part)
  {
    if parts == [] {
      assert parts + [part] == [part];
    } else {
      assert (parts + [part])[1..] == parts[1..] + [part];
      ParamsOfAppend(parts[1..], part);
    }
  }

  /** No part repeats its operator as `AND`/`OR`: the clause builds exactly then. */
  predicate NoConnectorOperators(parts: seq<QueryPart>) {
    forall k :: 0 <= k < |parts| ==> parts[k].operator != And && parts[k].operator != Or
  }

  /** No `?` in the field names and connectors. */
  predicate NoQuestionMarks(parts: seq<QueryPart>) {
    forall k :: 0 <= k < |parts| ==>
      !ContainsChar(parts[k].field, '?') && (parts[k].connector.Some? ==> !ContainsChar(parts[k].connector.value, '?'))
  }

  /** The WHERE clause builds iff no part has the `AND`/`OR` operator. */
  lemma {:induction false} WhereClauseOk(parts: seq<QueryPart>)
    ensures WhereClause(parts).Ok? <==> NoConnectorOperators(parts)
    decreases |parts|
  {
    if parts != [] {
      var init := parts[..|parts| - 1];
      WhereClauseOk(init);
      WhereClauseStep(parts);
      NoConnectorSnoc(parts);
    }
  }

  lemma NoConnectorSnoc(parts: seq<QueryPart>)
    requires parts != []
    ensures NoConnectorOperators(parts) <==>
      (NoConnectorOperators(parts[..|parts| - 1]) && parts[|parts| - 1].operator != And && parts[|parts| - 1].operator != Or)
  {
    var init := parts[..|parts| - 1];
    assert forall k :: 0 <= k < |init| ==> init[k] == parts[k];
  }

  /** One step of the WHERE clause: the prefix's clause, then the last part's condition. */
  lemma WhereClauseStep(parts: seq<QueryPart>)
    requires parts != []
    ensures var init := parts[..|parts| - 1]; var last := parts[|parts| - 1];
      (WhereClause(parts).Ok? <==> WhereClause(init).Ok? && BuildCondition(last).Ok?)
      && (WhereClause(parts).Ok? ==> WhereClause(parts).value.1 == WhereClause(init).value.1 + BuildCondition(last).value.1)
  {
  }

  /** Its parameters are each part's parameters, in part order. */
  lemma {:induction false} WhereClauseParams(parts: seq<QueryPart>)
    requires WhereClause(parts).Ok?
    ensures WhereClause(parts).value.1 == ParamsOf(parts)
    decreases |parts|
  {
    if parts != [] {
      var init := parts[..|parts| - 1];
      var last := parts[|parts| - 1];
      WhereClauseParams(init);
      WhereClauseStep(parts);
      InitLast(parts);
      ParamsOfAppend(init, last);
    }
  }

  lemma CountSpaced(c: string, condition: string)
    requires !ContainsChar(c, '?')
    ensures CountChar(" " + c + " " + condition, '?') == CountChar(condition, '?')
  {
    CountCharAbsent(c, '?');
    CountCharAppend(" " + c + " ", condition, '?');
    CountCharAppend(" " + c, " ", '?');
    CountCharAppend(" ", c, '?');
  }

  /** When no field or connector holds a `?`, the clause has exactly one placeholder per parameter. */
  lemma {:induction false} WhereClausePlaceholders(parts: seq<QueryPart>)
    requires WhereClause(parts).Ok? && NoQuestionMarks(parts)
    ensures CountChar(WhereClause(parts).value.0, '?') == |WhereClause(parts).value.1|
    decreases |parts|
  {
    if parts != [] {
      var init := parts[..|parts| - 1];
      var last := parts[|parts| - 1];
      assert NoQuestionMarks(init) by {
        assert forall k :: 0 <= k < |init| ==> init[k] == parts[k];
      }
      WhereClausePlaceholders(init);
      var (sql, params) := WhereClause(init).value;
      var (condition, partParams) := BuildCondition(last).value;
      CountCharAbsent(last.field, '?');
      var piece := Joined(last, condition, |parts| == 1);
      if HasConnector(last) && |parts| != 1 {
        CountSpaced(last.connector.value, condition);
      }
      CountCharAppend(sql, piece, '?');
    }
  }

  /** The first part is never prefixed by its connector: the clause starts with its condition. */
  lemma {:induction false} WhereClauseFirst(parts: seq<QueryPart>)
    requires parts != [] && WhereClause(parts).Ok?
    ensures BuildCondition(parts[0]).Ok? && StartsWith(WhereClause(parts).value.0, BuildCondition(parts[0]).value.0)
    decreases |parts|
  {
    if |parts| == 1 {
      assert parts[..0] == [];
      assert WhereClause(parts).value.0 == BuildCondition(parts[0]).value.0;
    } else {
      var init := parts[..|parts| - 1];
      WhereClauseFirst(init);
      var c0 := BuildCondition(parts[0]).value.0;
      var sql := WhereClause(init).value.0;
      var piece := Joined(parts[|parts| - 1], BuildCondition(parts[|parts| - 1]).value.0, false);
      assert (sql + piece)[..|c0|] == sql[..|c0|];
    }
  }

  /** The fixed statement text before any WHERE clause. */
  function StatementPrefix(op: QueryOperation, tableName: string): string {
    match op
    case Find => "SELECT * FROM " + tableName
    case Count => "SELECT COUNT(*) FROM " + tableName
    case Delete => "DELETE FROM " + tableName
    case Exists => "SELECT EXISTS(SELECT 1 FROM " + tableName
  }

  /** `f"{field} {direction}"` for each order item. */
  function OrderParts(orderBy: seq<(string, Direction)>): (r: seq<string>)
    ensures |r| == |orderBy|
    ensures forall k :: 0 <= k < |r| ==> r[k] == orderBy[k].0 + " " + DirectionSql(orderBy[k].1)
  {
    seq(|orderBy|, k requires 0 <= k < |orderBy| => orderBy[k].0 + " " + DirectionSql(orderBy[k].1))
  }

  /** The ORDER BY text; only `SELECT` statements carry one. */
  function OrderText(op: QueryOperation, orderBy: seq<(string, Direction)>): string {
    if op == Find && orderBy != [] then " ORDER BY " + Join(OrderParts(orderBy), ", ") else ""
  }

  /** `SQLQueryGenerator.generate` as a function of the table name and the parsed query. */
  function Statement(tableName: string, q: ParsedQuery): Result<(string, seq<string>), GenerateError> {
    var close := if q.operation == Exists then ")" else "";
    if q.parts == [] then
      Ok((StatementPrefix(q.operation, tableName) + OrderText(q.operation, q.orderBy) + close, []))
    else
      match WhereClause(q.parts)
      case Err(e) => Err(e)
      case Ok((where, params)) =>
        Ok((StatementPrefix(q.operation, tableName) + (" WHERE " + where) + OrderText(q.operation, q.orderBy) + close, params))
  }

  /** `SQLQueryGenerator.generate` and its `_generate_*` helpers. */
  method Generate(tableName: string, q: ParsedQuery) returns (r: Result<(string, seq<string>), GenerateError>)
    ensures r == Statement(tableName, q)
  {
    var sql := StatementPrefix(q.operation, tableName);
    var params: seq<string> := [];
    if q.parts != [] {
      var where := BuildWhereClause(q.parts);
      if where.Err? {
        return Err(where.error);
      }
      sql := sql + (" WHERE " + where.value.0);
      params := where.value.1;
    }
    if q.operation == Find && q.orderBy != [] {
      var orderParts := OrderParts(q.orderBy);
      sql := sql + (" ORDER BY " + Join(orderParts, ", "));
    } else {
      assert sql + OrderText(q.operation, q.orderBy) == sql;
    }
    if q.operation == Exists {
      sql := sql + ")";
    } else {
      assert sql + "" == sql;
    }
    return Ok((sql, params));
  }

  /**
   * Statement shape: the fixed prefix first, ` WHERE ` exactly when there are
   * parts, `EXISTS` closed by `)`, and the ordering ignored by every
   * operation but `FIND`.
   */
  lemma StatementShape(tableName: string, q: ParsedQuery)
    requires Statement(tableName, q).Ok?
    ensures StartsWith(Statement(tableName, q).value.0, StatementPrefix(q.operation, tableName))
    ensures q.parts != [] <==> StartsWith(Statement(tableName, q).value.0, StatementPrefix(q.operation, tableName) + " WHERE ")
    ensures q.operation == Exists ==> EndsWith(Statement(tableName, q).value.0, ")")
    ensures q.operation != Find ==> Statement(tableName, q) == Statement(tableName, q.(orderBy := []))
    ensures q.parts == [] ==> Statement(tableName, q).value.1 == []
  {
    var sql := Statement(tableName, q).value.0;
    var prefix := StatementPrefix(q.operation, tableName);
    assert sql[..|prefix|] == prefix;
    if q.parts != [] {
      assert sql[..|prefix + " WHERE "|] == prefix + " WHERE ";
    } else {
      var rest := OrderText(q.operation, q.orderBy) + (if q.operation == Exists then ")" else "");
      assert sql == prefix + rest;
      StartsWithCancel(prefix, rest, " WHERE ");
      NoWhereAfterPrefix(q.operation, q.orderBy, if q.operation == Exists then ")" else "");
    }
  }

  /** What follows the prefix of a statement without parts is no `WHERE` clause. */
  lemma NoWhereAfterPrefix(op: QueryOperation, orderBy: seq<(string, Direction)>, close: string)
    requires |close| <= 1
    ensures !StartsWith(OrderText(op, orderBy) + close, " WHERE ")
  {
    var order := OrderText(op, orderBy);
    if order != "" {
      var joined := Join(OrderParts(orderBy), ", ");
      assert order == " ORDER BY " + joined;
      assert (order + close)[1] == 'O';
    }
  }

  /**
   * The generated statement builds iff no part has the `AND`/`OR` operator;
   * its parameters are the parts' parameters in order, one placeholder per
   * parameter when no name holds a `?`.
   */
  lemma StatementParams(tableName: string, q: ParsedQuery)
    ensures Statement(tableName, q).Ok? <==> NoConnectorOperators(q.parts)
    ensures Statement(tableName, q).Ok? ==> Statement(tableName, q).value.1 == ParamsOf(q.parts)
  {
    WhereClauseOk(q.parts);
    if Statement(tableName, q).Ok? && q.parts != [] {
      WhereClauseParams(q.parts);
    }
  }

  lemma PrefixPlaceholders(op: QueryOperation, tableName: string)
    requires !ContainsChar(tableName, '?')
    ensures CountChar(StatementPrefix(op, tableName), '?') == 0
  {
    assert '?' !in tableName;
    assert '?' !in StatementPrefix(op, tableName);
    CountCharAbsent(StatementPrefix(op, tableName), '?');
  }

  lemma OrderTextPlaceholders(op: QueryOperation, orderBy: seq<(string, Direction)>)
    requires forall k :: 0 <= k < |orderBy| ==> !ContainsChar(orderBy[k].0, '?')
    ensures CountChar(OrderText(op, orderBy), '?') == 0
  {
    if op == Find && orderBy != [] {
      var ps := OrderParts(orderBy);
      forall k | 0 <= k < |ps| ensures CountChar(ps[k], '?') == 0 {
        assert '?' !in orderBy[k].0 && '?' !in DirectionSql(orderBy[k].1);
        assert '?' !in ps[k];
        CountCharAbsent(ps[k], '?');
      }
      JoinCountAbsent(ps, ", ", '?');
      CountCharAround(" ORDER BY ", Join(ps, ", "), "", '?');
      assert OrderText(op, orderBy) == " ORDER BY " + Join(ps, ", ") + "";
    }
  }

  lemma WherePlaceholderFree()
    ensures CountChar(" WHERE ", '?') == 0
  {
    CountCharAbsent(" WHERE ", '?');
  }

  /**
   * When neither the table name nor any field or connector holds a `?`, the
   * statement has exactly one placeholder per parameter.
   */
  lemma StatementPlaceholders(tableName: string, q: ParsedQuery)
    requires Statement(tableName, q).Ok? && NoQuestionMarks(q.parts) && !ContainsChar(tableName, '?')
    requires forall k :: 0 <= k < |q.orderBy| ==> !ContainsChar(q.orderBy[k].0, '?')
    ensures CountChar(Statement(tableName, q).value.0, '?') == |Statement(tableName, q).value.1|
  {
    var prefix := StatementPrefix(q.operation, tableName);
    var order := OrderText(q.operation, q.orderBy);
    var close := if q.operation == Exists then ")" else "";
    PrefixPlaceholders(q.operation, tableName);
    OrderTextPlaceholders(q.operation, q.orderBy);
    assert CountChar(close, '?') == 0;
    if q.parts == [] {
      assert Statement(tableName, q).value == (prefix + order + close, []);
      CountCharAppend(prefix, order, '?');
      CountCharAppend(prefix + order, close, '?');
    } else {
      var (where, params) := WhereClause(q.parts).value;
      assert Statement(tableName, q).value == (prefix + (" WHERE " + where) + order + close, params);
      WhereClausePlaceholders(q.parts);
      ClausePlaceholders(prefix, where, order, close, |params|);
    }
  }

  /** A `WHERE` clause adds its own placeholders and no more to a statement. */
  lemma ClausePlaceholders(prefix: string, where: string, order: string, close: string, n: nat)
    requires CountChar(prefix, '?') == 0 && CountChar(order, '?') == 0 && CountChar(close, '?') == 0
    requires CountChar(where, '?') == n
    ensures CountChar(prefix + (" WHERE " + where) + order + close, '?') == n
  {
    WherePlaceholderFree();
    CountCharAppend(" WHERE ", where, '?');
    CountCharAppend4(prefix, " WHERE " + where, order, close, '?');
  }

  /** Every method name the parser accepts generates a statement. */
  lemma ParsedGenerates(methodName: string, tableName: string)
    requires ParseSpec(methodName).Ok?
    ensures Statement(tableName, ParseSpec(methodName).value).Ok?
  {
    var q := ParseSpec(methodName).value;
    ParsedParts(methodName);
    ConditionsNoConnectors(ParsedTokens(methodName), 0, None);
    StatementParams(tableName, q);
  }

  /** Parsed conditions never carry the `AND`/`OR` members as operators. */
  lemma ConditionsNoConnectors(tokens: seq<string>, i: nat, c: Option<string>)
    requires i <= |tokens| && ConditionsFrom(tokens, i, c).Ok?
    ensures NoConnectorOperators(ConditionsFrom(tokens, i, c).value)
  {
    var ps := ConditionsFrom(tokens, i, c).value;
    ConditionsParts(tokens, i, c);
    forall k | 0 <= k < |ps| ensures ps[k].operator != And && ps[k].operator != Or {
      var j := AtomPositions(tokens, i)[k];
      SingleConditionOk(tokens[j], ps[k].field, ps[k].operator);
    }
  }

}
