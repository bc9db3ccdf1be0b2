/**
 * src/lib/errors/app-error.ts: `AppError` and its four subclasses. Each object keeps
 * the code, message and optional details it was constructed with, and its `name` is the
 * name of the class it was constructed as. The fields are read-only, so an error is a
 * value.
 */
module AppErrors {
  import opened Wrappers

  /** The class an error object was constructed as. */
  datatype ErrorClass =
    | AppErrorClass
    | ValidationErrorClass
    | AuthErrorClass
    | NotFoundErrorClass
    | ServiceErrorClass

  /** `this.constructor.name` */
  function ClassName(c: ErrorClass): string {
    match c
    case AppErrorClass => "AppError"
    case ValidationErrorClass => "ValidationError"
    case AuthErrorClass => "AuthError"
    case NotFoundErrorClass => "NotFoundError"
    case ServiceErrorClass => "ServiceError"
  }

  /** An `AppError` object; `D` stands for the `Record<string, unknown>` of details. */
  datatype AppError<D> = AppError(errorClass: ErrorClass, name: string, code: string,
                                  message: string, details: Option<D>)

  /** A JavaScript `Error` that is not an `AppError`: only its name and message matter here. */
  datatype PlainError = PlainError(name: string, message: string)

  /** `new C(code, message, details)` for the class `c`; `details` is None when not passed. */
  function Construct<D>(c: ErrorClass, code: string, message: string, details: Option<D>): (e: AppError<D>)
    ensures e.errorClass == c && e.name == ClassName(c)
    ensures e.code == code && e.message == message && e.details == details
  {
    AppError(c, ClassName(c), code, message, details)
  }

  function NewAppError<D>(code: string, message: string, details: Option<D>): AppError<D> {
    Construct(AppErrorClass, code, message, details)
  }

  function NewValidationError<D>(code: string, message: string, details: Option<D>): AppError<D> {
    Construct(ValidationErrorClass, code, message, details)
  }

  function NewAuthError<D>(code: string, message: string, details: Option<D>): AppError<D> {
    Construct(AuthErrorClass, code, message, details)
  }

  function NewNotFoundError<D>(code: string, message: string, details: Option<D>): AppError<D> {
    Construct(NotFoundErrorClass, code, message, details)
  }

  function NewServiceError<D>(code: string, message: string, details: Option<D>): AppError<D> {
    Construct(ServiceErrorClass, code, message, details)
  }

  /** The error objects the constructors can build: the name always matches the class. */
  predicate Constructed<D>(e: AppError<D>) {
    e.name == ClassName(e.errorClass)
  }

  /** Different classes have different names, so `name` tells the class. */
  lemma ClassNameInjective(c1: ErrorClass, c2: ErrorClass)
    ensures ClassName(c1) == ClassName(c2) <==> c1 == c2
  {
  }

  /**
   * Each subclass forwards code, message and details to `AppError` unchanged and only the
   * class (and with it the name) differs; two errors built from the same arguments are
   * equal exactly when they were built as the same class.
   */
  lemma SubclassesForward<D>(code: string, message: string, details: Option<D>)
    ensures var all := [NewAppError(code, message, details), NewValidationError(code, message, details),
                        NewAuthError(code, message, details), NewNotFoundError(code, message, details),
                        NewServiceError(code, message, details)];
      forall i :: 0 <= i < |all| ==>
        && Constructed(all[i])
        && all[i].code == code && all[i].message == message && all[i].details == details
        && forall j :: 0 <= j < |all| ==> (all[i] == all[j] <==> i == j)
  {
  }

  /** A constructed error is determined by its name, code, message and details. */
  lemma ConstructedByFields<D>(e: AppError<D>)
    requires Constructed(e)
    ensures exists c :: ClassName(c) == e.name && e == Construct(c, e.code, e.message, e.details)
  {
    assert e == Construct(e.errorClass, e.code, e.message, e.details);
  }
}
