/**
 * The routing decorators: the HTTP methods each mapping attaches to a
 * handler, the `_method` override that lets an HTML form stand in for
 * PUT, PATCH and DELETE, and the conversion of path and query values to
 * a handler's declared parameter types.
 */
module Routing {
  import opened Wrappers
  import opened Strings
  import opened Values

  datatype Mapping =
    | GetMapping
    | PostMapping
    | PutMapping
    | DeleteMapping
    | PatchMapping
    /** `RequestMapping(path, methods=None)` */
    | RequestMapping(methods: Option<seq<string>>)

  /** The verbs a form may name in its `_method` field. */
  const OverrideVerbs: set<string> := {"PUT", "PATCH", "DELETE"}

  /** The verb a fixed mapping is named after. */
  function Verb(m: Mapping): string
    requires !m.RequestMapping?
  {
    match m
    case GetMapping => "GET"
    case PostMapping => "POST"
    case PutMapping => "PUT"
    case DeleteMapping => "DELETE"
    case PatchMapping => "PATCH"
  }

  /** The method list each decorator passes to `_create_route_decorator`. */
  function RouteMethods(m: Mapping): (r: seq<string>)
    ensures !m.RequestMapping? ==> |r| >= 1 && r[0] == Verb(m)
    ensures m.RequestMapping? && m.methods.None? ==> r == ["GET"]
    ensures m.RequestMapping? && m.methods.Some? ==> r == m.methods.value
  {
    match m
    case GetMapping => ["GET"]
    case PostMapping => ["POST"]
    case PutMapping => ["PUT", "POST"]
    case DeleteMapping => ["DELETE", "POST"]
    case PatchMapping => ["PATCH", "POST"]
    case RequestMapping(methods) => methods.GetOr(["GET"])
  }

  /** Every mapping other than `GetMapping` also accepts POST, the only other method an HTML form can send. */
  lemma PostAccepted(m: Mapping)
    requires !m.RequestMapping?
    ensures "POST" in RouteMethods(m) <==> m != GetMapping
    ensures "GET" in RouteMethods(m) <==> m == GetMapping
  {
    var r := RouteMethods(m);
    if m == GetMapping {
      assert r == ["GET"];
    } else {
      assert r[|r| - 1] == "POST";
    }
  }

  predicate IsFormContent(contentType: string) {
    Contains(contentType, "application/x-www-form-urlencoded") || Contains(contentType, "multipart/form-data")
  }

  /**
   * The method a request is handled as: a POST with a form content type
   * whose `_method` field is PUT, PATCH or DELETE in any case takes that
   * verb, upper-cased; every other request keeps its own method.
   */
  function EffectiveMethod(requestMethod: string, contentType: string, formMethod: Option<string>): string {
    if requestMethod == "POST" && IsFormContent(contentType) && formMethod.Some? && formMethod.value != []
      && Upper(formMethod.value) in OverrideVerbs
    then Upper(formMethod.value)
    else requestMethod
  }

  /** The method changes exactly when a form POST names an override verb, and then it becomes that verb. */
  lemma OverrideExactly(requestMethod: string, contentType: string, formMethod: Option<string>)
    ensures var r := EffectiveMethod(requestMethod, contentType, formMethod);
      (r != requestMethod <==> requestMethod == "POST" && IsFormContent(contentType) && formMethod.Some? && Upper(formMethod.value) in OverrideVerbs)
      && (r == requestMethod || r in OverrideVerbs)
  {
    if formMethod.Some? && formMethod.value == [] {
      assert Upper(formMethod.value) == [];
    }
  }

  /**
   * For a form POST to a PUT, DELETE or PATCH mapping, the method the
   * handler sees is one the mapping lists exactly when `_method` names that
   * mapping's verb or names no override verb at all (the POST then stays).
   */
  lemma FormOverrideListed(m: Mapping, contentType: string, formMethod: string)
    requires m in {PutMapping, DeleteMapping, PatchMapping} && IsFormContent(contentType)
    ensures EffectiveMethod("POST", contentType, Some(formMethod)) in RouteMethods(m)
      <==> Upper(formMethod) == Verb(m) || Upper(formMethod) !in OverrideVerbs
  {
    if formMethod == [] {
      assert Upper(formMethod) == [];
    }
  }

  /** The function object a decorator marks; `_route_path` and `_route_methods` are unset until then. */
  class RouteFunction {
    var routePath: Option<string>
    var routeMethods: Option<seq<string>>

    constructor ()
      ensures routePath == None && routeMethods == None
    {
      routePath := None;
      routeMethods := None;
    }

    /** The decorator `_create_route_decorator(path, methods)` returns, applied: it marks the function and returns it unwrapped. */
    method Decorate(path: string, methods: seq<string>) returns (r: RouteFunction)
      modifies this
      ensures r == this
      ensures routePath == Some(path) && routeMethods == Some(methods)
    {
      routePath := Some(path);
      routeMethods := Some(methods);
      r := this;
    }
  }

  /** A declared parameter type the handler converts path and query values to. */
  datatype TypeHint = NoHint | StrHint | IntHint | BoolHint

  /**
   * A path or query value, converted by a declared type other than `str`;
   * when the conversion fails the raw text is kept.
   */
  function Convert(hint: TypeHint, raw: string): (v: Value)
    ensures v.StrV? ==> v == StrV(raw)
    ensures v.IntV? <==> hint == IntHint && ParseInt(raw).Some?
    ensures v.IntV? ==> Some(v.i) == ParseInt(raw)
  {
    match hint
    case NoHint => StrV(raw)
    case StrHint => StrV(raw)
    case IntHint => (if ParseInt(raw).Some? then IntV(ParseInt(raw).value) else StrV(raw))
    case BoolHint => BoolV(raw != [])
  }

  /** An integer's decimal text converts back to that integer. */
  lemma ConvertIntRoundTrip(n: int)
    ensures Convert(IntHint, IntToString(n)) == IntV(n)
  {
    ParseIntToString(n);
  }

  /** A `bool` parameter is true for every non-empty text, `"false"` and `"0"` included. */
  lemma ConvertBoolTruthy(raw: string)
    ensures Convert(BoolHint, raw) == BoolV(Truthy(StrV(raw)))
    ensures Convert(BoolHint, "false") == BoolV(true) && Convert(BoolHint, "0") == BoolV(true)
  {
  }
}
