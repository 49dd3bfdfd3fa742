/** The API-key middleware: for every request outside the excluded paths it
    checks the X-API-Key header, validates the key, applies the rate limits,
    counts the request, writes the rate-limit headers and the key context,
    and only then calls the next handler. The two fire-and-forget tasks it
    starts (last-used update and usage logging) are not part of the model. */
module Middleware {
  import opened Common
  import E = Envelopes
  import opened ApiKeys
  import KeyService
  import RateLimiting

  const ExcludedPaths: seq<string> := ["/swagger", "/health", "/metrics"]

  const UnauthorizedStatus := 401
  const ForbiddenStatus := 403
  const TooManyRequestsStatus := 429

  /** PathString.StartsWithSegments: the path equals the prefix or continues
      it with '/', compared without regard to case. */
  predicate StartsWithSegments(path: string, prefix: string) {
    |prefix| <= |path| && EqualsIgnoreCase(path[..|prefix|], prefix)
    && (|path| == |prefix| || path[|prefix|] == '/')
  }

  predicate Bypassed(path: string) {
    exists p | p in ExcludedPaths :: StartsWithSegments(path, p)
  }

  /** Lower-case ASCII text, such as the excluded paths. */
  predicate IsLower(p: string) {
    forall i | 0 <= i < |p| :: !('A' <= p[i] <= 'Z')
  }

  /** Against a lower-case prefix, the segment match is a plain comparison of
      the lower-cased path: the path is the prefix, or continues it with '/'. */
  lemma StartsWithSegmentsLowered(path: string, prefix: string)
    requires IsLower(prefix)
    ensures StartsWithSegments(path, prefix) <==>
      LowerAscii(path) == prefix || prefix + "/" <= LowerAscii(path)
  {
    var low := LowerAscii(path);
    assert LowerAscii(prefix) == prefix;
    PrefixSlash(low, prefix);
    if |prefix| <= |path| {
      assert LowerAscii(path[..|prefix|]) == low[..|prefix|];
      if |prefix| < |path| {
        assert path[|prefix|] == '/' <==> low[|prefix|] == '/';
      }
    }
  }

  lemma PrefixSlash(s: string, prefix: string)
    ensures prefix + "/" <= s <==> |prefix| < |s| && s[..|prefix|] == prefix && s[|prefix|] == '/'
  {
    if |prefix| < |s| && s[..|prefix|] == prefix && s[|prefix|] == '/' {
      assert s[..|prefix| + 1] == prefix + "/";
    }
  }

  /** The excluded paths bypass the key check in any letter case and with
      any sub-path: a request bypasses exactly when its lower-cased path is
      an excluded path or starts with one followed by '/'. */
  lemma BypassedIff(path: string)
    ensures Bypassed(path) <==>
      exists p | p in ExcludedPaths :: LowerAscii(path) == p || p + "/" <= LowerAscii(path)
  {
    forall p | p in ExcludedPaths
      ensures StartsWithSegments(path, p) <==> LowerAscii(path) == p || p + "/" <= LowerAscii(path)
    {
      StartsWithSegmentsLowered(path, p);
    }
  }

  /** 403 when some error mentions "revoked", "expired" or "not active",
      401 otherwise. */
  function StatusFor(errors: seq<string>): (status: int)
    ensures status == ForbiddenStatus <==>
      exists e | e in errors :: Contains(e, "revoked") || Contains(e, "expired") || Contains(e, "not active")
    ensures status == ForbiddenStatus || status == UnauthorizedStatus
  {
    if exists e | e in errors :: Contains(e, "revoked") || Contains(e, "expired") || Contains(e, "not active")
    then ForbiddenStatus else UnauthorizedStatus
  }

  /** The three lifecycle failures of a known key are 403. */
  lemma LifecycleFailureForbidden(e: string)
    requires e in {KeyService.KeyRevoked, KeyService.KeyNotActive, KeyService.KeyExpired}
    ensures StatusFor([e]) == ForbiddenStatus
  {
    if e == KeyService.KeyRevoked {
      ContainsAt(e, "revoked", 17);
    } else if e == KeyService.KeyNotActive {
      assert e == "API key is " + "not active";
      ContainsAt(e, "not active", 11);
    } else {
      assert e == "API key has " + "expired";
      ContainsAt(e, "expired", 12);
    }
  }

  /** A missing header and an unknown key are 401. */
  lemma UnknownKeyUnauthorized()
    ensures StatusFor([KeyService.InvalidKey]) == UnauthorizedStatus
    ensures StatusFor([KeyService.KeyRequired]) == UnauthorizedStatus
  {
    assert StatusFor([KeyService.InvalidKey]) == UnauthorizedStatus by {
      NoPhrase(KeyService.InvalidKey);
      PhraselessUnauthorized(KeyService.InvalidKey);
    }
    NoPhrase(KeyService.KeyRequired);
    PhraselessUnauthorized(KeyService.KeyRequired);
  }

  lemma NoPhrase(s: string)
    requires 'o' !in s && 'x' !in s && 't' !in s
    ensures !Contains(s, "revoked") && !Contains(s, "expired") && !Contains(s, "not active")
  {
    LacksChar(s, "revoked", 'o');
    LacksChar(s, "expired", 'x');
    LacksChar(s, "not active", 't');
  }

  lemma PhraselessUnauthorized(s: string)
    requires !Contains(s, "revoked") && !Contains(s, "expired") && !Contains(s, "not active")
    ensures StatusFor([s]) == UnauthorizedStatus
  {
  }

  /** The request as the middleware sees it. */
  datatype Request = Request(path: string, apiKeyHeader: Option<string>)

  /** Items["ApiKeyContext"]. */
  datatype ApiKeyContext = ApiKeyContext(apiKeyId: Guid, ownerId: Guid, plan: Plan, rateLimitPerMinute: int,
                                         rateLimitPerDay: int)

  function ContextOf(k: ApiKeyRecord): ApiKeyContext {
    ApiKeyContext(k.id, k.ownerId, k.plan, k.rateLimitPerMinute, k.rateLimitPerDay)
  }

  /** Where a request ends up. */
  datatype Decision =
    | Bypass
    | Reject(status: int, errors: seq<string>)
    | Admit(key: ApiKeyRecord)

  /** The decision sequence of InvokeAsync: excluded path, header, key
      validation, rate check. */
  function Decide(cfg: KeyService.HashConfig, store: KeyService.StoreRead, counters: RateLimiting.Counters,
                  request: Request, now: DateTime): Decision
  {
    if Bypassed(request.path) then Bypass
    else if request.apiKeyHeader.None? || Blank(request.apiKeyHeader.value) then
      Reject(UnauthorizedStatus, [KeyService.KeyRequired])
    else DecideKey(cfg, store, counters, request.apiKeyHeader.value, now)
  }

  /** The part of the decision that depends on the key's text. */
  function DecideKey(cfg: KeyService.HashConfig, store: KeyService.StoreRead, counters: RateLimiting.Counters,
                     rawKey: string, now: DateTime): Decision
  {
    var validation := KeyService.ValidateApiKey(cfg, store, rawKey, now);
    if !validation.isSuccess then Reject(StatusFor(validation.errors), validation.errors)
    else
      var k := validation.value.value;
      var check := RateLimiting.CheckRateLimit(counters, k.id, k.rateLimitPerMinute, k.rateLimitPerDay, now);
      if !check.isSuccess then Reject(TooManyRequestsStatus, check.errors)
      else Admit(k)
  }

  /** Only excluded paths bypass; a missing or blank header is 401 with one
      message; every rejection carries one message and one of 401, 403, 429. */
  lemma DecisionShape(cfg: KeyService.HashConfig, store: KeyService.StoreRead, counters: RateLimiting.Counters,
                      request: Request, now: DateTime)
    ensures var d := Decide(cfg, store, counters, request, now);
      && (d.Bypass? <==> Bypassed(request.path))
      && (!Bypassed(request.path) && (request.apiKeyHeader.None? || Blank(request.apiKeyHeader.value)) ==>
            d == Reject(UnauthorizedStatus, [KeyService.KeyRequired]))
      && (d.Reject? ==> d.status in {UnauthorizedStatus, ForbiddenStatus, TooManyRequestsStatus} && |d.errors| == 1)
  {
    if !Bypassed(request.path) && request.apiKeyHeader.Some? && !Blank(request.apiKeyHeader.value) {
      KeyRejectionShape(cfg, store, counters, request.apiKeyHeader.value, now);
    }
  }

  lemma KeyRejectionShape(cfg: KeyService.HashConfig, store: KeyService.StoreRead, counters: RateLimiting.Counters,
                          rawKey: string, now: DateTime)
    ensures var d := DecideKey(cfg, store, counters, rawKey, now);
      d.Reject? ==> d.status in {UnauthorizedStatus, ForbiddenStatus, TooManyRequestsStatus} && |d.errors| == 1
  {
    if !KeyService.ValidateApiKey(cfg, store, rawKey, now).isSuccess {
      KeyService.ValidateFailsWithOneMessage(cfg, store, rawKey, now);
    }
  }

  /** An admitted key is the one validation returned for the header, and is
      under both of its limits. */
  lemma AdmittedKeyPassedBothChecks(cfg: KeyService.HashConfig, store: KeyService.StoreRead,
                                    counters: RateLimiting.Counters, request: Request, now: DateTime)
    requires Decide(cfg, store, counters, request, now).Admit?
    ensures var k := Decide(cfg, store, counters, request, now).key;
      var v := KeyService.ValidateApiKey(cfg, store, request.apiKeyHeader.value, now);
      && request.apiKeyHeader.Some? && v.isSuccess && v.value == Some(k)
      && RateLimiting.CheckRateLimit(counters, k.id, k.rateLimitPerMinute, k.rateLimitPerDay, now).isSuccess
  {
  }

  /** A valid, stored key is admitted exactly while both of its counters are
      under their limits, and a rejected key is never counted. */
  lemma AdmissionFollowsLimiter(cfg: KeyService.HashConfig, rows: seq<ApiKeyRecord>, counters: RateLimiting.Counters,
                                request: Request, now: DateTime, i: nat)
    requires !Bypassed(request.path) && request.apiKeyHeader.Some? && !Blank(request.apiKeyHeader.value)
    requires KeyService.FirstWithHash(rows, cfg.hmac(KeyService.Secret(cfg), request.apiKeyHeader.value)) == Some(i)
    requires IsValidAt(rows[i], now)
    ensures var k := rows[i];
      Decide(cfg, KeyService.Available(rows), counters, request, now).Admit? <==>
        RateLimiting.CountAt(counters, RateLimiting.MinuteKey(k.id), now) < k.rateLimitPerMinute
        && RateLimiting.CountAt(counters, RateLimiting.DayKey(k.id), now) < k.rateLimitPerDay
  {
  }

  /** The four X-RateLimit-* headers, as decimal text. */
  function RateHeaders(k: ApiKeyRecord, remainingMinute: int, remainingDay: int): map<string, string> {
    map[
      "X-RateLimit-Limit-Minute" := DecimalText(k.rateLimitPerMinute),
      "X-RateLimit-Remaining-Minute" := DecimalText(remainingMinute),
      "X-RateLimit-Limit-Day" := DecimalText(k.rateLimitPerDay),
      "X-RateLimit-Remaining-Day" := DecimalText(remainingDay)]
  }

  /** The headers an admitted request gets: the remaining values are read
      after this request was counted. */
  function AdmittedHeaders(counters: RateLimiting.Counters, k: ApiKeyRecord, now: DateTime): map<string, string> {
    var after := RateLimiting.Incremented(counters, k.id, now);
    var remaining := RateLimiting.RemainingLimits(after, k.id, k.rateLimitPerMinute, k.rateLimitPerDay, now);
    RateHeaders(k, remaining.0, remaining.1)
  }

  /** The Remaining headers already count the current request: they read back
      as the limit minus the earlier count minus one, never below zero. */
  lemma RemainingCountsThisRequest(counters: RateLimiting.Counters, k: ApiKeyRecord, now: DateTime)
    ensures var h := AdmittedHeaders(counters, k, now);
      && ParseDecimal(h["X-RateLimit-Remaining-Minute"])
         == Max(0, k.rateLimitPerMinute - RateLimiting.CountAt(counters, RateLimiting.MinuteKey(k.id), now) - 1)
      && ParseDecimal(h["X-RateLimit-Remaining-Day"])
         == Max(0, k.rateLimitPerDay - RateLimiting.CountAt(counters, RateLimiting.DayKey(k.id), now) - 1)
      && ParseDecimal(h["X-RateLimit-Limit-Minute"]) == k.rateLimitPerMinute
      && ParseDecimal(h["X-RateLimit-Limit-Day"]) == k.rateLimitPerDay
      && ParseDecimal(h["X-RateLimit-Remaining-Minute"]) >= 0
  {
    var after := RateLimiting.Incremented(counters, k.id, now);
    var remaining := RateLimiting.RemainingLimits(after, k.id, k.rateLimitPerMinute, k.rateLimitPerDay, now);
    DecimalTextRoundTrip(remaining.0);
    DecimalTextRoundTrip(remaining.1);
    DecimalTextRoundTrip(k.rateLimitPerMinute);
    DecimalTextRoundTrip(k.rateLimitPerDay);
  }

  /** The parts of HttpContext the middleware writes. */
  class HttpContext {
    const request: Request
    var statusCode: int
    var body: Option<E.Envelope<()>>
    var headers: map<string, string>
    var items: map<string, ApiKeyContext>
    /** How many times the next delegate ran. */
    var nextCalls: nat

    constructor (request: Request)
      ensures this.request == request
      ensures statusCode == 200 && body.None? && headers == map[] && items == map[] && nextCalls == 0
    {
      this.request := request;
      statusCode := 200;
      body := None;
      headers := map[];
      items := map[];
      nextCalls := 0;
    }
  }

  /** The effect of a decision on the context and the counters. */
  twostate predicate Applied(context: HttpContext, limiter: RateLimiting.RateLimitService, d: Decision, now: DateTime)
    reads context, limiter
  {
    match d
    case Bypass =>
      && context.nextCalls == old(context.nextCalls) + 1 && limiter.counters == old(limiter.counters)
      && context.statusCode == old(context.statusCode) && context.body == old(context.body)
      && context.headers == old(context.headers) && context.items == old(context.items)
    case Reject(status, errors) =>
      && context.statusCode == status && context.body == Some(E.Failure(Some(errors), now))
      && context.nextCalls == old(context.nextCalls) && limiter.counters == old(limiter.counters)
      && context.headers == old(context.headers) && context.items == old(context.items)
    case Admit(k) =>
      && limiter.counters == RateLimiting.Incremented(old(limiter.counters), k.id, now)
      && context.headers == old(context.headers) + AdmittedHeaders(old(limiter.counters), k, now)
      && context.items == old(context.items)["ApiKeyContext" := ContextOf(k)]
      && context.nextCalls == old(context.nextCalls) + 1
      && context.statusCode == old(context.statusCode) && context.body == old(context.body)
  }

  /** The failure response: status code and an envelope holding the errors. */
  method WriteFailure(context: HttpContext, limiter: RateLimiting.RateLimitService, status: int,
                      errors: seq<string>, now: DateTime)
    modifies context
    ensures Applied(context, limiter, Reject(status, errors), now)
  {
    context.statusCode := status;
    context.body := Some(E.Failure(Some(errors), now));
  }

  /** The admitted path: count the request, read back the remaining quotas,
      add the four headers and the key context, call the next handler. */
  method AdmitRequest(context: HttpContext, limiter: RateLimiting.RateLimitService, apiKey: ApiKeyRecord,
                      now: DateTime)
    modifies context, limiter
    ensures Applied(context, limiter, Admit(apiKey), now)
  {
    limiter.IncrementUsageAsync(apiKey.id, now);
    var remainingMinute, remainingDay :=
      limiter.GetRemainingLimitsAsync(apiKey.id, apiKey.rateLimitPerMinute, apiKey.rateLimitPerDay, now);
    context.headers := context.headers + RateHeaders(apiKey, remainingMinute, remainingDay);
    context.items := context.items["ApiKeyContext" := ContextOf(apiKey)];
    context.nextCalls := context.nextCalls + 1;
  }

  /** Validation and rate limiting of a present key. */
  method CheckKey(context: HttpContext, cfg: KeyService.HashConfig, store: KeyService.StoreRead,
                  limiter: RateLimiting.RateLimitService, rawKey: string, now: DateTime)
    modifies context, limiter
    ensures Applied(context, limiter, DecideKey(cfg, store, old(limiter.counters), rawKey, now), now)
  {
    var validation := KeyService.ValidateApiKey(cfg, store, rawKey, now);
    if !validation.isSuccess {
      WriteFailure(context, limiter, StatusFor(validation.errors), validation.errors, now);
      return;
    }
    var apiKey := validation.value.value;
    var check := limiter.CheckRateLimitAsync(apiKey.id, apiKey.rateLimitPerMinute, apiKey.rateLimitPerDay, now);
    if !check.isSuccess {
      WriteFailure(context, limiter, TooManyRequestsStatus, check.errors, now);
      return;
    }
    AdmitRequest(context, limiter, apiKey, now);
  }

  /** InvokeAsync. The key store is what the repository read returns; the
      rate limiter is the shared counter store. */
  method InvokeAsync(context: HttpContext, cfg: KeyService.HashConfig, store: KeyService.StoreRead,
                     limiter: RateLimiting.RateLimitService, now: DateTime)
    modifies context, limiter
    ensures Applied(context, limiter, Decide(cfg, store, old(limiter.counters), context.request, now), now)
  {
    if Bypassed(context.request.path) {
      context.nextCalls := context.nextCalls + 1;
      return;
    }
    var header := context.request.apiKeyHeader;
    if header.None? || Blank(header.value) {
      WriteFailure(context, limiter, UnauthorizedStatus, [KeyService.KeyRequired], now);
      return;
    }
    CheckKey(context, cfg, store, limiter, header.value, now);
  }
}
