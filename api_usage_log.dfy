/** One logged API call. The entity has only private setters and no
    mutators, so it is an immutable value. */
module UsageLogs {
  import opened Common

  datatype ApiUsageLog = ApiUsageLog(
    apiKeyId: Guid,
    endpoint: string,
    httpMethod: string,
    statusCode: int,
    responseTimeMs: int,
    timestamp: DateTime)

  /** ApiUsageLog.Create: three guards, then the constructor stamps the clock.
      Status code and response time are accepted as they are. */
  function Create(apiKeyId: Guid, endpoint: string, httpMethod: string, statusCode: int, responseTimeMs: int,
                  now: DateTime): (r: Fallible<ApiUsageLog>)
    ensures r.Ok? <==> apiKeyId != EmptyGuid && !Blank(endpoint) && !Blank(httpMethod)
    ensures apiKeyId == EmptyGuid ==> r == Throws("API Key ID cannot be empty (Parameter 'apiKeyId')")
    ensures apiKeyId != EmptyGuid && Blank(endpoint) ==> r == Throws("Endpoint cannot be empty (Parameter 'endpoint')")
    ensures apiKeyId != EmptyGuid && !Blank(endpoint) && Blank(httpMethod) ==>
      r == Throws("Method cannot be empty (Parameter 'method')")
    ensures r.Ok? ==> r.value.apiKeyId == apiKeyId && r.value.endpoint == endpoint && r.value.httpMethod == httpMethod
    ensures r.Ok? ==> r.value.statusCode == statusCode && r.value.responseTimeMs == responseTimeMs && r.value.timestamp == now
  {
    if apiKeyId == EmptyGuid then Throws("API Key ID cannot be empty (Parameter 'apiKeyId')")
    else if Blank(endpoint) then Throws("Endpoint cannot be empty (Parameter 'endpoint')")
    else if Blank(httpMethod) then Throws("Method cannot be empty (Parameter 'method')")
    else Ok(ApiUsageLog(apiKeyId, endpoint, httpMethod, statusCode, responseTimeMs, now))
  }

  /** Whether an entry is accepted does not depend on the status code, the
      response time or the clock. */
  lemma AcceptanceIgnoresMeasurements(id: Guid, endpoint: string, m: string, s1: int, s2: int, t1: int, t2: int,
                                      now1: DateTime, now2: DateTime)
    ensures Create(id, endpoint, m, s1, t1, now1).Ok? == Create(id, endpoint, m, s2, t2, now2).Ok?
  {
  }
}
