/** The mapping from a `Result` to an HTTP response (status code and
    envelope body). */
module HttpResults {
  import opened Common
  import R = Results
  import E = Envelopes

  datatype HttpResponse<T> = HttpResponse(status: int, body: Option<E.Envelope<T>>)

  const StatusOk := 200
  const StatusNoContent := 204
  const StatusBadRequest := 400

  /** MapFailure: every failure is a 400 with a failure envelope of the errors. */
  function MapFailure<T>(errors: seq<string>, now: DateTime): (h: HttpResponse<T>)
    ensures h.status == StatusBadRequest
    ensures h.body.Some? && !h.body.value.isSuccess && h.body.value.errors == errors
  {
    HttpResponse(StatusBadRequest, Some(E.Failure(Some(errors), now)))
  }

  /** ToHttpResult for Result<T>. */
  function ToHttpResult<T>(r: R.Result<T>, now: DateTime): (h: HttpResponse<T>)
    ensures r.isSuccess ==> h.status == StatusOk && h.body == Some(E.Success(r.value, now))
    ensures !r.isSuccess ==> h == MapFailure(r.errors, now)
  {
    if r.isSuccess then HttpResponse(StatusOk, Some(E.Success(r.value, now)))
    else MapFailure(r.errors, now)
  }

  /** ToHttpResult for the non-generic Result: success is an empty 204. */
  function ToHttpResultNoValue(r: R.Result<()>, now: DateTime): (h: HttpResponse<()>)
    ensures r.isSuccess ==> h.status == StatusNoContent && h.body.None?
    ensures !r.isSuccess ==> h == MapFailure(r.errors, now)
  {
    if r.isSuccess then HttpResponse(StatusNoContent, None)
    else MapFailure(r.errors, now)
  }

  /** The status a handler puts in a failure never reaches the client: a
      404 NotFound or 409 Conflict result is sent as 400, with the
      "Code: Message" text as the only error. */
  lemma HandlerStatusIgnored<T>(e: R.ErrorDetail, statusCode: int, now: DateTime)
    ensures var h := ToHttpResult(R.FailureOf<T>(e, statusCode), now);
            h.status == StatusBadRequest && h.body.value.errors == [R.ErrorText(e)]
  {
  }

  /** The response is a success exactly when the result is, for both overloads. */
  lemma SuccessPreserved<T>(r: R.Result<T>, u: R.Result<()>, now: DateTime)
    ensures ToHttpResult(r, now).status != StatusBadRequest <==> r.isSuccess
    ensures ToHttpResultNoValue(u, now).status != StatusBadRequest <==> u.isSuccess
    ensures ToHttpResult(r, now).body.value.isSuccess == r.isSuccess
  {
  }
}
