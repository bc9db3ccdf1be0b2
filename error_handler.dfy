/**
 * src/lib/api/error-handler.ts: `handleApiError` turns whatever was thrown into one JSON
 * error response. The `instanceof` tests run in the order ValidationError, AuthError,
 * NotFoundError, ServiceError; everything else, the base `AppError` included, gets a
 * fixed 500 response.
 */
module ErrorHandler {
  import opened Wrappers
  import opened AppErrors
  import opened UserErrors

  /** The value `handleApiError` receives. */
  datatype Thrown<D> =
    | App(error: AppError<D>)       // an AppError or one of its subclasses
    | Other(plain: PlainError)      // any other Error
    | NonError                      // a thrown value that is not an Error

  /**
   * The `details` member of the object literal the handler builds: absent, or present
   * with the error's (possibly undefined) details. `NextResponse.json` serialises it with
   * `JSON.stringify`, which drops a `details: undefined`, so on the wire
   * `DetailsKey(None)` reads like `NoDetailsKey`.
   */
  datatype DetailsField<D> = NoDetailsKey | DetailsKey(value: Option<D>)

  datatype ErrorBody<D> = ErrorBody(code: string, message: string, details: DetailsField<D>)

  /** `NextResponse.json({ error: body }, { status })` */
  datatype Response<D> = Response(status: nat, body: ErrorBody<D>)

  const InternalCode := "INTERNAL_SERVER_ERROR"
  const InternalMessage := "サーバーエラーが発生しました"

  predicate IsClass<D>(t: Thrown<D>, c: ErrorClass) {
    t.App? && t.error.errorClass == c
  }

  function HandleApiError<D>(t: Thrown<D>): (r: Response<D>)
    ensures r.status in {400, 401, 404, 500}
  {
    if IsClass(t, ValidationErrorClass) then
      Response(400, ErrorBody(t.error.code, t.error.message, DetailsKey(t.error.details)))
    else if IsClass(t, AuthErrorClass) then
      Response(401, ErrorBody(t.error.code, t.error.message, NoDetailsKey))
    else if IsClass(t, NotFoundErrorClass) then
      Response(404, ErrorBody(t.error.code, t.error.message, NoDetailsKey))
    else if IsClass(t, ServiceErrorClass) then
      Response(500, ErrorBody(t.error.code, t.error.message, DetailsKey(t.error.details)))
    else
      Response(500, ErrorBody(InternalCode, InternalMessage, NoDetailsKey))
  }

  /** The classes the handler recognises. */
  predicate Recognised<D>(t: Thrown<D>) {
    t.App? && t.error.errorClass != AppErrorClass
  }

  /**
   * The status tells the class: 400 exactly for ValidationError, 401 for AuthError, 404
   * for NotFoundError, and 500 for ServiceError and everything unrecognised.
   */
  lemma StatusByClass<D>(t: Thrown<D>)
    ensures var r := HandleApiError(t);
      && (r.status == 400 <==> IsClass(t, ValidationErrorClass))
      && (r.status == 401 <==> IsClass(t, AuthErrorClass))
      && (r.status == 404 <==> IsClass(t, NotFoundErrorClass))
      && (r.status == 500 <==> IsClass(t, ServiceErrorClass) || !Recognised(t))
  {
  }

  /**
   * A recognised error's own code and message are passed on, and the details member is
   * present exactly for ValidationError and ServiceError; anything else gets the fixed
   * internal-error body without details. This is the object literal, before
   * serialisation drops an undefined `details`.
   */
  lemma BodyByClass<D>(t: Thrown<D>)
    ensures var r := HandleApiError(t);
      && (Recognised(t) ==> r.body.code == t.error.code && r.body.message == t.error.message)
      && (r.body.details.DetailsKey? <==>
            IsClass(t, ValidationErrorClass) || IsClass(t, ServiceErrorClass))
      && (r.body.details.DetailsKey? ==> r.body.details.value == t.error.details)
      && (!Recognised(t) ==> r.body == ErrorBody(InternalCode, InternalMessage, NoDetailsKey))
  {
  }

  /** The four subclass constructors map to their statuses whatever their arguments. */
  lemma ConstructedStatuses<D>(code: string, message: string, details: Option<D>)
    ensures HandleApiError(App(NewValidationError(code, message, details))) ==
      Response(400, ErrorBody(code, message, DetailsKey(details)))
    ensures HandleApiError(App(NewAuthError(code, message, details))) ==
      Response(401, ErrorBody(code, message, NoDetailsKey))
    ensures HandleApiError(App(NewNotFoundError(code, message, details))) ==
      Response(404, ErrorBody(code, message, NoDetailsKey))
    ensures HandleApiError(App(NewServiceError(code, message, details))) ==
      Response(500, ErrorBody(code, message, DetailsKey(details)))
    ensures HandleApiError(App(NewAppError(code, message, details))).body.code == InternalCode
  {
  }

  /**
   * `UserNotFoundError` is not an `AppError`, so it reaches the client as a 500
   * internal error, not as 404.
   */
  lemma UserNotFoundIsInternal<D>(userId: Option<string>)
    ensures HandleApiError(Thrown<D>.Other(UserNotFoundError(userId))) ==
      Response(500, ErrorBody(InternalCode, InternalMessage, NoDetailsKey))
  {
  }
}
