/**
 * The exception-handling middleware: whatever the rest of the request
 * pipeline raises becomes a JSON error response with a fixed shape.
 */
module ExceptionMiddleware {
  import opened Wrappers
  import opened Dicts
  import opened Values
  import opened Exceptions

  /** What the wrapped handler raised. */
  datatype Failure =
    | Framework(e: AppException)
    /** a pydantic `ValidationError`; `errors` is what its `errors()` gives */
    | ModelValidation(errors: Value)
    /** any other exception: its class name and `str(e)` */
    | Unexpected(className: string, text: string)

  /** What `call_next(request)` did. */
  datatype Outcome = Returned(response: Value) | Raised(failure: Failure)

  datatype ErrorResponse = ErrorResponse(statusCode: int, content: Dict<string, Value>)

  datatype Reply = PassThrough(response: Value) | ErrorReply(error: ErrorResponse)

  /** `_create_error_response`: the body keys are always `success`, `error`, `message`, `status`, then `details` when given and not empty. */
  function CreateErrorResponse(statusCode: int, error: string, message: string, details: Option<Dict<string, Value>>): (r: ErrorResponse)
    ensures r.statusCode == statusCode
    ensures |r.content| >= 4 && Keys(r.content)[..4] == ["success", "error", "message", "status"]
    ensures HasKey(r.content, "details") <==> details.Some? && details.value != []
  {
    var given := details.Some? && details.value != [];
    var content := ErrorFields(statusCode, error, message) + (if given then [("details", DictV(details.value))] else []);
    assert Keys(content)[0] == "success" && Keys(content)[1] == "error" && Keys(content)[2] == "message" && Keys(content)[3] == "status";
    assert Keys(content)[..4] == ["success", "error", "message", "status"];
    assert given ==> Keys(content)[4] == "details";
    ErrorResponse(statusCode, content)
  }

  function ErrorFields(statusCode: int, error: string, message: string): Dict<string, Value> {
    [("success", BoolV(false)), ("error", StrV(error)), ("message", StrV(message)), ("status", IntV(statusCode))]
  }

  /** Each field of an error body holds what it was given. */
  lemma ErrorResponseFields(statusCode: int, error: string, message: string, details: Option<Dict<string, Value>>)
    ensures var c := CreateErrorResponse(statusCode, error, message, details).content;
      && Get(c, "success") == Some(BoolV(false))
      && Get(c, "error") == Some(StrV(error))
      && Get(c, "message") == Some(StrV(message))
      && Get(c, "status") == Some(IntV(statusCode))
      && (details.Some? && details.value != [] ==> Get(c, "details") == Some(DictV(details.value)))
  {
    var c := CreateErrorResponse(statusCode, error, message, details).content;
    FieldsGet(c, statusCode, error, message);
    if details.Some? && details.value != [] {
      assert c[4] == ("details", DictV(details.value));
      assert Keys(c)[..4] == ["success", "error", "message", "status"];
      GetFirst(c, 4);
    }
  }

  /** The four fixed fields at the head of a body are the ones `Get` finds. */
  lemma FieldsGet(c: Dict<string, Value>, statusCode: int, error: string, message: string)
    requires |c| >= 4 && c[..4] == ErrorFields(statusCode, error, message)
    ensures Get(c, "success") == Some(BoolV(false))
    ensures Get(c, "error") == Some(StrV(error))
    ensures Get(c, "message") == Some(StrV(message))
    ensures Get(c, "status") == Some(IntV(statusCode))
  {
    assert c[0] == ("success", BoolV(false)) && c[1] == ("error", StrV(error));
    assert c[2] == ("message", StrV(message)) && c[3] == ("status", IntV(statusCode));
    var ks := Keys(c);
    assert ks[..1] == ["success"] && ks[..2] == ["success", "error"] && ks[..3] == ["success", "error", "message"];
    GetFirst(c, 0);
    GetFirst(c, 1);
    GetFirst(c, 2);
    GetFirst(c, 3);
  }

  /**
   * `dispatch`. `debug` is the middleware's flag; `traceback` stands for
   * the text `traceback.format_exc()` would give.
   */
  function Dispatch(debug: bool, traceback: string, outcome: Outcome): (r: Reply)
    ensures outcome.Returned? <==> r.PassThrough?
    ensures outcome.Returned? ==> r.response == outcome.response
  {
    match outcome
    case Returned(response) => PassThrough(response)
    case Raised(Framework(e)) =>
      ErrorReply(CreateErrorResponse(e.statusCode, ClassName(e.cls), e.message, Some(e.details)))
    case Raised(ModelValidation(errors)) =>
      ErrorReply(CreateErrorResponse(422, "ValidationError", "Validation failed", Some([("errors", errors)])))
    case Raised(Unexpected(className, text)) =>
      ErrorReply(CreateErrorResponse(500, "InternalServerError",
        if debug then text else "An internal error occurred",
        if debug then Some(UnexpectedDetails(className, traceback)) else None))
  }

  /** The details of an unexpected error in debug mode: its type, then the traceback. */
  function UnexpectedDetails(className: string, traceback: string): Dict<string, Value> {
    [("type", StrV(className)), ("traceback", StrV(traceback))]
  }

  /** A framework exception's response body is `{"success": false}` followed by its `to_dict()`, with its own status code. */
  lemma FrameworkResponse(debug: bool, traceback: string, e: AppException)
    ensures Dispatch(debug, traceback, Raised(Framework(e))) == ErrorReply(ErrorResponse(e.statusCode, [("success", BoolV(false))] + ToDict(e)))
  {
  }

  /** Every error response sets `success` to false and repeats its status code in the body. */
  lemma ErrorShape(debug: bool, traceback: string, f: Failure)
    ensures var r := Dispatch(debug, traceback, Raised(f));
      r.ErrorReply? && Get(r.error.content, "success") == Some(BoolV(false))
      && Get(r.error.content, "status") == Some(IntV(r.error.statusCode))
  {
    match f
    case Framework(e) => ErrorResponseFields(e.statusCode, ClassName(e.cls), e.message, Some(e.details));
    case ModelValidation(errors) => ErrorResponseFields(422, "ValidationError", "Validation failed", Some([("errors", errors)]));
    case Unexpected(className, text) =>
      ErrorResponseFields(500, "InternalServerError", if debug then text else "An internal error occurred", if debug then Some(UnexpectedDetails(className, traceback)) else None);
  }

  /** A model validation error is a 422 whose details carry the validation errors. */
  lemma ModelValidationResponse(debug: bool, traceback: string, errors: Value)
    ensures var r := Dispatch(debug, traceback, Raised(ModelValidation(errors))).error;
      r.statusCode == 422 && Get(r.content, "error") == Some(StrV("ValidationError"))
      && Get(r.content, "details") == Some(DictV([("errors", errors)]))
  {
    assert Dispatch(debug, traceback, Raised(ModelValidation(errors))) == ErrorReply(CreateErrorResponse(422, "ValidationError", "Validation failed", Some([("errors", errors)])));
    ErrorResponseFields(422, "ValidationError", "Validation failed", Some([("errors", errors)]));
  }

  /** Outside debug mode an unexpected error is a 500 that reveals neither its text nor its type. */
  lemma UnexpectedHidden(traceback: string, className: string, text: string)
    ensures var r := Dispatch(false, traceback, Raised(Unexpected(className, text))).error;
      r.statusCode == 500 && Get(r.content, "message") == Some(StrV("An internal error occurred"))
      && !HasKey(r.content, "details")
  {
    assert Dispatch(false, traceback, Raised(Unexpected(className, text))) == ErrorReply(CreateErrorResponse(500, "InternalServerError", "An internal error occurred", None));
    ErrorResponseFields(500, "InternalServerError", "An internal error occurred", None);
  }

  /** In debug mode an unexpected error shows its text, its type and the traceback. */
  lemma UnexpectedDebug(traceback: string, className: string, text: string)
    ensures var r := Dispatch(true, traceback, Raised(Unexpected(className, text))).error;
      r.statusCode == 500 && Get(r.content, "message") == Some(StrV(text))
      && Get(r.content, "details") == Some(DictV([("type", StrV(className)), ("traceback", StrV(traceback))]))
  {
    var details := UnexpectedDetails(className, traceback);
    assert Dispatch(true, traceback, Raised(Unexpected(className, text))) == ErrorReply(CreateErrorResponse(500, "InternalServerError", text, Some(details)));
    ErrorResponseFields(500, "InternalServerError", text, Some(details));
  }
}
