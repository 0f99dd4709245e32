/**
 * `ResponseEntity`: a body, a status code and headers, with a fluent
 * `header` setter and one factory per common status.
 */
module Responses {
  import opened Wrappers
  import opened Dicts
  import opened Values
  import Exceptions

  datatype HttpStatus =
    | OK
    | CREATED
    | ACCEPTED
    | NO_CONTENT
    | BAD_REQUEST
    | UNAUTHORIZED
    | FORBIDDEN
    | NOT_FOUND
    | CONFLICT
    | UNPROCESSABLE_ENTITY
    | INTERNAL_SERVER_ERROR

  /** `HttpStatus.X.value` */
  function Code(s: HttpStatus): int {
    match s
    case OK => 200
    case CREATED => 201
    case ACCEPTED => 202
    case NO_CONTENT => 204
    case BAD_REQUEST => 400
    case UNAUTHORIZED => 401
    case FORBIDDEN => 403
    case NOT_FOUND => 404
    case CONFLICT => 409
    case UNPROCESSABLE_ENTITY => 422
    case INTERNAL_SERVER_ERROR => 500
  }

  predicate IsSuccess(code: int) {
    200 <= code < 300
  }

  predicate IsClientError(code: int) {
    400 <= code < 500
  }

  /** No two members of the enumeration share a code, so `HttpStatus(code)` finds at most one. */
  lemma CodeInjective(a: HttpStatus, b: HttpStatus)
    ensures Code(a) == Code(b) ==> a == b
  {
  }

  /** The status names are those of their codes: 2xx success, 4xx client errors, 500 a server error. */
  lemma CodeClasses(s: HttpStatus)
    ensures IsSuccess(Code(s)) <==> s in {OK, CREATED, ACCEPTED, NO_CONTENT}
    ensures IsClientError(Code(s)) <==> s in {BAD_REQUEST, UNAUTHORIZED, FORBIDDEN, NOT_FOUND, CONFLICT, UNPROCESSABLE_ENTITY}
    ensures Code(s) >= 500 <==> s == INTERNAL_SERVER_ERROR
  {
  }

  /** The status named after each exception subclass. */
  function ExceptionStatus(c: Exceptions.ExceptionClass): HttpStatus
    requires c != Exceptions.StarSpringException
  {
    match c
    case BadRequestException => BAD_REQUEST
    case UnauthorizedException => UNAUTHORIZED
    case ForbiddenException => FORBIDDEN
    case NotFoundException => NOT_FOUND
    case ConflictException => CONFLICT
    case ValidationException => UNPROCESSABLE_ENTITY
    case InternalServerException => INTERNAL_SERVER_ERROR
  }

  /** Every exception subclass raises with the code of the status it is named after; only the internal one is a server error. */
  lemma ExceptionCodes(c: Exceptions.ExceptionClass)
    requires c != Exceptions.StarSpringException
    ensures Exceptions.FixedStatus(c) == Code(ExceptionStatus(c))
    ensures IsClientError(Exceptions.FixedStatus(c)) <==> c != Exceptions.InternalServerException
  {
  }

  class ResponseEntity {
    var body: Value
    var status: int
    var headers: Dict<string, string>

    /** `ResponseEntity(body=None, status=200, headers=None)`; missing or empty headers become `{}`. */
    constructor (body: Value, status: int, headers: Option<Dict<string, string>>)
      ensures this.body == body && this.status == status
      ensures this.headers == if headers.Some? then headers.value else []
    {
      this.body := body;
      this.status := status;
      this.headers := headers.GetOr([]);
    }

    /** `header(key, value)`: sets one header and returns the same entity for chaining. */
    method Header(key: string, value: string) returns (r: ResponseEntity)
      modifies this
      ensures r == this
      ensures headers == Set(old(headers), key, value)
      ensures body == old(body) && status == old(status)
      ensures Get(headers, key) == Some(value)
      ensures forall k :: k != key ==> Get(headers, k) == Get(old(headers), k)
      ensures Valid(old(headers)) ==> Valid(headers)
    {
      headers := Set(headers, key, value);
      forall k ensures Get(headers, k) == if k == key then Some(value) else Get(old(headers), k) {
        GetSet(old(headers), key, value, k);
      }
      if Valid(old(headers)) {
        SetValid(old(headers), key, value);
      }
      r := this;
    }

    static method Ok(body: Value) returns (r: ResponseEntity)
      ensures fresh(r) && r.body == body && r.status == Code(OK) && r.headers == []
    {
      r := new ResponseEntity(body, Code(OK), None);
    }

    static method Created(body: Value) returns (r: ResponseEntity)
      ensures fresh(r) && r.body == body && r.status == Code(CREATED) && r.headers == []
    {
      r := new ResponseEntity(body, Code(CREATED), None);
    }

    static method Accepted(body: Value) returns (r: ResponseEntity)
      ensures fresh(r) && r.body == body && r.status == Code(ACCEPTED) && r.headers == []
    {
      r := new ResponseEntity(body, Code(ACCEPTED), None);
    }

    /** `no_content()` takes no body: the body is always None. */
    static method NoContent() returns (r: ResponseEntity)
      ensures fresh(r) && r.body == NoneV && r.status == Code(NO_CONTENT) && r.headers == []
    {
      r := new ResponseEntity(NoneV, Code(NO_CONTENT), None);
    }

    static method BadRequest(body: Value) returns (r: ResponseEntity)
      ensures fresh(r) && r.body == body && r.status == Code(BAD_REQUEST) && r.headers == []
    {
      r := new ResponseEntity(body, Code(BAD_REQUEST), None);
    }

    static method Unauthorized(body: Value) returns (r: ResponseEntity)
      ensures fresh(r) && r.body == body && r.status == Code(UNAUTHORIZED) && r.headers == []
    {
      r := new ResponseEntity(body, Code(UNAUTHORIZED), None);
    }

    static method Forbidden(body: Value) returns (r: ResponseEntity)
      ensures fresh(r) && r.body == body && r.status == Code(FORBIDDEN) && r.headers == []
    {
      r := new ResponseEntity(body, Code(FORBIDDEN), None);
    }

    static method NotFound(body: Value) returns (r: ResponseEntity)
      ensures fresh(r) && r.body == body && r.status == Code(NOT_FOUND) && r.headers == []
    {
      r := new ResponseEntity(body, Code(NOT_FOUND), None);
    }

    /** `status(status_code, body)`: any code, taken as given. */
    static method WithStatus(statusCode: int, body: Value) returns (r: ResponseEntity)
      ensures fresh(r) && r.body == body && r.status == statusCode && r.headers == []
    {
      r := new ResponseEntity(body, statusCode, None);
    }
  }
}
