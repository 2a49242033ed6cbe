/**
 * The exception hierarchy and handlers of app/core/exceptions.py: how a
 * raised exception becomes an HTTP status and a JSON error body.  A custom
 * exception's class decides the status; an `HTTPException` keeps its own;
 * anything else is a 500 whose body reveals nothing; an admin
 * authentication failure redirects to the login page.
 */
module ErrorHandlers {
  import opened Outcomes
  import opened Json
  import Text

  /** The class of a raised `BaseCustomException`: one of its six subclasses, or the base class itself. */
  datatype CustomClass = Subclass(kind: ExceptionKind) | BaseClass

  datatype Raised =
    | CustomRaised(cls: CustomClass, message: string, code: Option<string>, details: Option<Object>)
    | HttpRaised(status: int, detail: string)
    | AdminAuthRaised
    | OtherRaised

  datatype Response =
    | JsonResponse(status: int, body: Json)
    | Redirect(url: string, status: int)

  function ClassName(c: CustomClass): string {
    match c
    case BaseClass => "BaseCustomException"
    case Subclass(k) =>
      match k
      case ValidationError => "ValidationException"
      case NotFoundError => "NotFoundException"
      case UnauthorizedError => "UnauthorizedException"
      case ForbiddenError => "ForbiddenException"
      case ConflictError => "ConflictException"
      case InternalServerError => "InternalServerException"
  }

  /** The `isinstance` chain of `custom_exception_handler`. */
  function CustomStatus(c: CustomClass): (s: int)
    ensures c == Subclass(ValidationError) ==> s == 422
    ensures c == Subclass(NotFoundError) ==> s == 404
    ensures c == Subclass(UnauthorizedError) ==> s == 401
    ensures c == Subclass(ForbiddenError) ==> s == 403
    ensures c == Subclass(ConflictError) ==> s == 409
    ensures c == BaseClass || c == Subclass(InternalServerError) ==> s == 500
  {
    match c
    case BaseClass => 500
    case Subclass(k) =>
      match k
      case ValidationError => 422
      case NotFoundError => 404
      case UnauthorizedError => 401
      case ForbiddenError => 403
      case ConflictError => 409
      case InternalServerError => 500
  }

  /** Below 500 the status names the exception class: no two client-error classes share one. */
  lemma ClientStatusNamesClass(a: CustomClass, b: CustomClass)
    requires CustomStatus(a) == CustomStatus(b) < 500
    ensures a == b
  {
  }

  function ErrorBody(typeName: string, message: string, code: Json, details: Object): Json {
    JObj(map["success" := JBool(false),
             "error" := JObj(map["type" := JStr(typeName), "message" := JStr(message),
                                 "code" := code, "details" := JObj(details)])])
  }

  /** The error part of a body built by `ErrorBody`, field by field. */
  predicate ErrorFields(body: Json, typeName: string, message: string, code: Json, details: Object) {
    body.JObj? && "success" in body.fields && body.fields["success"] == JBool(false)
    && "error" in body.fields && body.fields["error"].JObj?
    && var e := body.fields["error"].fields;
    "type" in e && e["type"] == JStr(typeName) && "message" in e && e["message"] == JStr(message)
    && "code" in e && e["code"] == code && "details" in e && e["details"] == JObj(details)
  }

  /**
   * `BaseCustomException.__init__` with `exception_handler`: the body carries
   * the class name, the message, the code (null when absent) and the
   * details (`{}` when absent).
   */
  function CustomBody(cls: CustomClass, message: string, code: Option<string>, details: Option<Object>): (j: Json)
    ensures ErrorFields(j, ClassName(cls), message, if code.Some? then JStr(code.value) else JNull,
                        if details.Some? then details.value else map[])
  {
    ErrorBody(ClassName(cls), message, if code.Some? then JStr(code.value) else JNull,
              if details.Some? then details.value else map[])
  }

  /** The handler FastAPI picks for a raised exception, and the response it builds. */
  function Handle(e: Raised): (r: Response)
    ensures e.AdminAuthRaised? <==> r == Redirect("/admin/login", 302)
    ensures e.CustomRaised? ==> (r.JsonResponse? && r.status == CustomStatus(e.cls)
                                 && ErrorFields(r.body, ClassName(e.cls), e.message,
                                                if e.code.Some? then JStr(e.code.value) else JNull,
                                                if e.details.Some? then e.details.value else map[]))
    ensures e.HttpRaised? ==> r.JsonResponse? && r.status == e.status
    ensures e.HttpRaised? && e.status >= 0 ==> (r.JsonResponse?
                               && ErrorFields(r.body, "HTTPException", e.detail, JStr(Text.ToDecimal(e.status)), map[]))
    ensures e.OtherRaised? ==> (r.JsonResponse? && r.status == 500
                                && ErrorFields(r.body, "InternalServerError", "Internal server error",
                                               JStr("INTERNAL_ERROR"), map[]))
  {
    match e
    case AdminAuthRaised => Redirect("/admin/login", 302)
    case CustomRaised(cls, message, code, details) =>
      JsonResponse(CustomStatus(cls), CustomBody(cls, message, code, details))
    case HttpRaised(status, detail) =>
      // `str(exc.status_code)`; statuses are three-digit positives
      var code := if status >= 0 then Text.ToDecimal(status) else "-" + Text.ToDecimal(-status);
      JsonResponse(status, ErrorBody("HTTPException", detail, JStr(code), map[]))
    case OtherRaised => JsonResponse(500, ErrorBody("InternalServerError", "Internal server error", JStr("INTERNAL_ERROR"), map[]))
  }

  /** The exception a modelled failure stands for; custom exceptions are raised without code or details. */
  function Raise(f: Failure): Raised {
    match f
    case Custom(kind, message) => CustomRaised(Subclass(kind), message, None, None)
    case Http(status, detail) => HttpRaised(status, detail)
    case ValueErr => OtherRaised
    case RuntimeErr => OtherRaised
  }

  /** The status a client sees for a modelled failure. */
  function StatusOf(f: Failure): (s: int)
    ensures f.Http? ==> s == f.status
    ensures f.Custom? ==> s == CustomStatus(Subclass(f.kind))
    ensures f.ValueErr? || f.RuntimeErr? ==> s == 500
  {
    Handle(Raise(f)).status
  }

  /** A custom exception's message reaches the client unchanged; a plain Python exception's never does. */
  lemma MessageReachesClient(f: Failure)
    ensures f.Custom? ==> ErrorFields(Handle(Raise(f)).body, ClassName(Subclass(f.kind)), f.message, JNull, map[])
    ensures f.ValueErr? || f.RuntimeErr? ==> Handle(Raise(f)) == Handle(OtherRaised)
  {
  }
}
