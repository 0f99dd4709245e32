/**
 * The framework's exception hierarchy: a base exception carrying a
 * message, an HTTP status code and a details mapping, subclasses with
 * fixed codes, and the JSON form `to_dict` gives them.
 */
module Exceptions {
  import opened Wrappers
  import opened Dicts
  import opened Values

  datatype ExceptionClass =
    | StarSpringException
    | BadRequestException
    | UnauthorizedException
    | ForbiddenException
    | NotFoundException
    | ConflictException
    | ValidationException
    | InternalServerException

  /** `e.__class__.__name__` */
  function ClassName(c: ExceptionClass): string {
    match c
    case StarSpringException => "StarSpringException"
    case BadRequestException => "BadRequestException"
    case UnauthorizedException => "UnauthorizedException"
    case ForbiddenException => "ForbiddenException"
    case NotFoundException => "NotFoundException"
    case ConflictException => "ConflictException"
    case ValidationException => "ValidationException"
    case InternalServerException => "InternalServerException"
  }

  /** The status code a subclass passes to the base constructor. */
  function FixedStatus(c: ExceptionClass): int
    requires c != StarSpringException
  {
    match c
    case BadRequestException => 400
    case UnauthorizedException => 401
    case ForbiddenException => 403
    case NotFoundException => 404
    case ConflictException => 409
    case ValidationException => 422
    case InternalServerException => 500
  }

  /** The message a subclass uses when none is given. */
  function DefaultMessage(c: ExceptionClass): string
    requires c != StarSpringException
  {
    match c
    case BadRequestException => "Bad Request"
    case UnauthorizedException => "Unauthorized"
    case ForbiddenException => "Forbidden"
    case NotFoundException => "Resource Not Found"
    case ConflictException => "Conflict"
    case ValidationException => "Validation Failed"
    case InternalServerException => "Internal Server Error"
  }

  datatype AppException = AppException(cls: ExceptionClass, message: string, statusCode: int, details: Dict<string, Value>)

  /** `StarSpringException(message, status_code=500, details=None)`: missing or empty details become `{}`. */
  function NewException(message: string, statusCode: Option<int>, details: Option<Dict<string, Value>>): (e: AppException)
    ensures e.cls == StarSpringException && e.message == message
    ensures statusCode.None? ==> e.statusCode == 500
    ensures statusCode.Some? ==> e.statusCode == statusCode.value
    ensures e.details == (if details.Some? then details.value else [])
  {
    AppException(StarSpringException, message, statusCode.GetOr(500), details.GetOr([]))
  }

  /** A subclass constructor, `BadRequestException(message=..., details=None)` and the rest. */
  function NewSubclassException(c: ExceptionClass, message: Option<string>, details: Option<Dict<string, Value>>): (e: AppException)
    requires c != StarSpringException
    ensures e.cls == c && e.statusCode == FixedStatus(c)
    ensures e.message == (if message.Some? then message.value else DefaultMessage(c))
    ensures e.details == (if details.Some? then details.value else [])
  {
    AppException(c, message.GetOr(DefaultMessage(c)), FixedStatus(c), details.GetOr([]))
  }

  /** `to_dict()`: `error`, `message` and `status`, then `details` only when it is not empty. */
  function ToDict(e: AppException): (r: Dict<string, Value>)
    ensures |r| >= 3 && Keys(r)[..3] == ["error", "message", "status"]
    ensures HasKey(r, "details") <==> e.details != []
  {
    var r := BaseFields(e) + (if e.details != [] then [("details", DictV(e.details))] else []);
    assert Keys(r)[0] == "error" && Keys(r)[1] == "message" && Keys(r)[2] == "status";
    assert Keys(r)[..3] == ["error", "message", "status"];
    assert e.details != [] ==> Keys(r)[3] == "details";
    r
  }

  function BaseFields(e: AppException): Dict<string, Value> {
    [("error", StrV(ClassName(e.cls))), ("message", StrV(e.message)), ("status", IntV(e.statusCode))]
  }

  /** Each key of `to_dict()` holds the exception's class name, message, code and details. */
  lemma ToDictGet(e: AppException)
    ensures Get(ToDict(e), "error") == Some(StrV(ClassName(e.cls)))
    ensures Get(ToDict(e), "message") == Some(StrV(e.message))
    ensures Get(ToDict(e), "status") == Some(IntV(e.statusCode))
    ensures e.details != [] ==> Get(ToDict(e), "details") == Some(DictV(e.details))
  {
    var r := ToDict(e);
    assert r[..3] == BaseFields(e);
    BaseFieldsGet(r, e);
    if e.details != [] {
      assert r[3] == ("details", DictV(e.details));
      assert Keys(r)[..3] == ["error", "message", "status"];
      GetFirst(r, 3);
    }
  }

  /**
   * The error body of a base exception built from constructor arguments:
   * its class name, its message, the given status or 500, and a `details`
   * entry exactly when non-empty details were given.
   */
  lemma NewExceptionBody(message: string, statusCode: Option<int>, details: Option<Dict<string, Value>>)
    ensures var r := ToDict(NewException(message, statusCode, details));
      Get(r, "error") == Some(StrV("StarSpringException")) &&
      Get(r, "message") == Some(StrV(message)) &&
      Get(r, "status") == Some(IntV(if statusCode.Some? then statusCode.value else 500)) &&
      (HasKey(r, "details") <==> details.Some? && details.value != []) &&
      (details.Some? && details.value != [] ==> Get(r, "details") == Some(DictV(details.value)))
  {
    ToDictGet(NewException(message, statusCode, details));
  }

  /** The three fixed fields at the head of a `to_dict()` are the ones `Get` finds. */
  lemma BaseFieldsGet(r: Dict<string, Value>, e: AppException)
    requires |r| >= 3 && r[..3] == BaseFields(e)
    ensures Get(r, "error") == Some(StrV(ClassName(e.cls)))
    ensures Get(r, "message") == Some(StrV(e.message))
    ensures Get(r, "status") == Some(IntV(e.statusCode))
  {
    assert r[0] == ("error", StrV(ClassName(e.cls))) && r[1] == ("message", StrV(e.message)) && r[2] == ("status", IntV(e.statusCode));
    var ks := Keys(r);
    assert ks[..1] == ["error"] && ks[..2] == ["error", "message"];
    GetFirst(r, 0);
    GetFirst(r, 1);
    GetFirst(r, 2);
  }
}
