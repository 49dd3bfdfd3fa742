/** The shared operation outcome: `Result` / `Result<T>` with their static
    factories, and the typed `ErrorDetail` helpers. */
module Results {
  import opened Common

  /** The four `Error` helpers; each tags the detail with its own type name. */
  datatype ErrorKind = NotFoundError | ValidationError | ConflictError | FailureError

  function TypeName(k: ErrorKind): string {
    match k
    case NotFoundError => "NotFound"
    case ValidationError => "Validation"
    case ConflictError => "Conflict"
    case FailureError => "Failure"
  }

  datatype ErrorDetail = ErrorDetail(code: string, message: string, errorType: string)

  /** Error.NotFound / Validation / Conflict / Failure. */
  function MakeError(kind: ErrorKind, code: string, message: string): (e: ErrorDetail)
    ensures e.code == code && e.message == message
    ensures e.errorType == TypeName(kind)
  {
    ErrorDetail(code, message, TypeName(kind))
  }

  /** A result; the non-generic `Result` is `Result<()>` whose value is always None. */
  datatype Result<T> = Result(isSuccess: bool, value: Option<T>, errors: seq<string>, statusCode: int)

  /** Default status of the non-generic Success. */
  const NoContentStatus := 204
  /** Default status of the generic Success. */
  const OkStatus := 200
  /** Status given by Failure(params string[]). */
  const BadRequestStatus := 400

  /** Every result the factories build: successes carry no errors, failures no value. */
  predicate WellFormed<T>(r: Result<T>) {
    (r.isSuccess ==> r.errors == []) && (!r.isSuccess ==> r.value.None?)
  }

  /** The constructor's `errors ?? Array.Empty<string>()`. */
  function NormalizeErrors(errors: Option<seq<string>>): (r: seq<string>)
    ensures errors.None? ==> r == []
    ensures errors.Some? ==> r == errors.value
  {
    if errors.Some? then errors.value else []
  }

  /** Result.Success(statusCode): the non-generic success. */
  function SuccessNoValue(statusCode: int): (r: Result<()>)
    ensures WellFormed(r) && r.isSuccess && r.value.None?
    ensures r.errors == [] && r.statusCode == statusCode
  {
    Result(true, None, NormalizeErrors(None), statusCode)
  }

  /** Result<T>.Success(value, statusCode). */
  function Success<T>(value: T, statusCode: int): (r: Result<T>)
    ensures WellFormed(r) && r.isSuccess && r.value == Some(value)
    ensures r.errors == [] && r.statusCode == statusCode
  {
    Result(true, Some(value), NormalizeErrors(None), statusCode)
  }

  /** Result.Failure(params string[]) and Result<T>.Failure(params string[]). */
  function Failure<T>(errors: Option<seq<string>>): (r: Result<T>)
    ensures WellFormed(r) && !r.isSuccess
    ensures r.errors == NormalizeErrors(errors) && r.statusCode == BadRequestStatus
  {
    Result(false, None, NormalizeErrors(errors), BadRequestStatus)
  }

  /** The text "Code: Message" a typed failure carries. */
  function ErrorText(e: ErrorDetail): string {
    e.code + ": " + e.message
  }

  /** Result.Failure(ErrorDetail, statusCode) and its generic twin. */
  function FailureOf<T>(error: ErrorDetail, statusCode: int): (r: Result<T>)
    ensures WellFormed(r) && !r.isSuccess
    ensures |r.errors| == 1 && r.statusCode == statusCode
    ensures |r.errors[0]| == |error.code| + 2 + |error.message|
    ensures r.errors[0][..|error.code|] == error.code
    ensures r.errors[0][|error.code|..|error.code| + 2] == ": "
    ensures r.errors[0][|error.code| + 2..] == error.message
  {
    Result(false, None, [ErrorText(error)], statusCode)
  }

  /** A single-message failure; shorthand for Failure(new[] { message }). */
  function Fail<T>(message: string): (r: Result<T>)
    ensures r == Failure(Some([message]))
  {
    Failure(Some([message]))
  }
}
