# SportsData core, modelled in Dafny

This project models the core of SportsData, a modular ASP.NET service for football data. Its five parts follow the service's own structure.

- **The API-key gatekeeper.**
  - The `ApiKey` entity, with its guarded `Create`, `Revoke`, `Activate`, `Deactivate` and `UpdateLastUsed`.
  - The key service: hashing and looking up presented keys, minting new keys and rotating them.
  - The two-window rate limiter, over a cache of counters.
  - The authentication middleware: header extraction, the bypass for excluded paths, the 401/429 responses and the rate-limit headers.
  - The admin key commands.
  - The key repository and the usage log.
- **The sports entities.**
  - The Competitions `Match` and the Matches-module `Match`, each with its status transitions.
  - `MatchStatistics` and the per-team `MatchStats`.
  - `LeagueStanding`, with its goal difference and points.
- **The Competitions command handlers.** These create seasons, teams and players, update players, and assign teams to league seasons and players to teams. The database tables are sequences of rows.
- **The match queries.**
  - The Competitions `GetMatches` handler: its validator, its cache-aside key, the `MatchService` query and the statistics lookup.
  - The Matches-module `GetMatches` handler: filtering, ordering, counting and paging.
- **The shared helpers.**
  - `Result` and `Result<T>`, `Envelope` and `ResponseEnvelope`, and the mapping from a result to an HTTP response.
  - `PagedList` and the `ValidationBehavior` pipeline step.
  - The in-memory cache service, and the LINQ operators the queries use.
  - `ToPagedListAsync` (src/Shared/SportsData.Shared/PaginationExtensions.cs:5-8) only forwards to `PagedList.CreateAsync`, which `Paging.CreatePage` models.

Some things in the model stand in for .NET types:

- Identifiers are `Guid`s, numbers below 16^32. `Guid.Empty` is 0.
- Instants are `DateTime` ticks. .NET `int` is `Int32`, with wrap-around written out where the source can overflow.
- A thrown exception is the `Throws` case of `Fallible`.

Entities whose fields the source updates in place are classes. Each class exposes a value snapshot, and its methods are proved against pure transition functions on that snapshot. Queries and validators are functions, and each has its properties proved as lemmas.

## Model

| member | source | states |
|---|---|---|
| ApiKeys.IsValidAt | src/Modules/ApiKeys/Domain/ApiKey.cs:95-102 | a key is valid exactly when it is active, not revoked and not expired at the given instant |
| ApiKeys.CreateRejection | src/Modules/ApiKeys/Domain/ApiKey.cs:50-66 | Create throws exactly when one of its six guards fails, and the message belongs to the first failing guard (blank hash before blank name) |
| ApiKeys.CreatedKeyIsValid | src/Modules/ApiKeys/Domain/ApiKey.cs:21-39 | a key that passes Create's guards is consistent and valid at the moment it is created |
| ApiKeys.Activated | src/Modules/ApiKeys/Domain/ApiKey.cs:77-83 | Activate throws "Cannot activate a revoked key" exactly for a revoked key, and otherwise changes only IsActive, to true |
| ApiKeys.RevokedNeverValid | src/Modules/ApiKeys/Domain/ApiKey.cs:71-102 | once revoked, a key is invalid at every instant, stays invalid after use is recorded, cannot be reactivated, and keeps its RevokedAt through Deactivate |
| ApiKeys.RevokeTwice | src/Modules/ApiKeys/Domain/ApiKey.cs:71-75 | revoking again keeps the key revoked and overwrites RevokedAt with the later instant |
| ApiKeys.MutatorsKeepConsistent | src/Modules/ApiKeys/Domain/ApiKey.cs:71-93 | Revoke, Activate, Deactivate and UpdateLastUsed keep a consistent key consistent and leave the rate limits alone |
| ApiKeys.LastUsedKeepsValidity | src/Modules/ApiKeys/Domain/ApiKey.cs:90-102 | recording use never changes whether a key is valid |
| ApiKeys.ApiKey.Snapshot | src/Modules/ApiKeys/Domain/ApiKey.cs:7-17 | the record holds the object's current hash, state and revocation time |
| ApiKeys.ApiKey.constructor | src/Modules/ApiKeys/Domain/ApiKey.cs:21-39 | the new object is active, never used or revoked, created now, with the given settings |
| ApiKeys.ApiKey.Create | src/Modules/ApiKeys/Domain/ApiKey.cs:41-69 | throws the first failing guard's message, or returns a fresh, consistent key built by the private constructor |
| ApiKeys.ApiKey.Revoke | src/Modules/ApiKeys/Domain/ApiKey.cs:71-75 | RevokedAt becomes now and IsActive false; nothing else changes |
| ApiKeys.ApiKey.Activate | src/Modules/ApiKeys/Domain/ApiKey.cs:77-83 | a revoked key throws and is left as it was; otherwise only IsActive is set |
| ApiKeys.ApiKey.Deactivate | src/Modules/ApiKeys/Domain/ApiKey.cs:85-88 | only IsActive changes, to false |
| ApiKeys.ApiKey.UpdateLastUsed | src/Modules/ApiKeys/Domain/ApiKey.cs:90-93 | only LastUsedAt changes, to now |
| KeyService.RemoveAll | src/Modules/ApiKeys/Application/ApiKeys/Services/ApiKeyService.cs:36-38 | Replace(c, "") drops every occurrence of c and keeps every other character |
| KeyService.UrlSafe | src/Modules/ApiKeys/Application/ApiKeys/Services/ApiKeyService.cs:35-38 | the shaped text holds no '+', '/' or '=' and keeps every other base64 character |
| KeyService.GenerateApiKey | src/Modules/ApiKeys/Application/ApiKeys/Services/ApiKeyService.cs:23-48 | succeeds exactly when at least 32 URL-safe characters remain; the key is then "sk_live_" and the first 32 of them; otherwise the failure carries the Substring exception's message |
| KeyService.GeneratedKeyNotBlank | src/Modules/ApiKeys/Application/ApiKeys/Services/ApiKeyService.cs:41-53 | a generated key is never blank, so hashing it never throws |
| KeyService.GenerationCanFail | src/Modules/ApiKeys/Application/ApiKeys/Services/ApiKeyService.cs:28-46 | some 44-character base64 text of 32 bytes leaves fewer than 32 characters after the removals, so generation can fail |
| KeyService.RemoveAllAppend | src/Modules/ApiKeys/Application/ApiKeys/Services/ApiKeyService.cs:36-38 | removing a character distributes over concatenation |
| KeyService.Secret | src/Modules/ApiKeys/Application/ApiKeys/Services/ApiKeyService.cs:56 | the configured hash secret, or the development default when none is configured |
| KeyService.HashApiKey | src/Modules/ApiKeys/Application/ApiKeys/Services/ApiKeyService.cs:50-65 | throws exactly for a blank raw key; otherwise the keyed hash of the raw key under the effective secret |
| KeyService.HashDeterministic | src/Modules/ApiKeys/Application/ApiKeys/Services/ApiKeyService.cs:50-65 | two configurations with the same effective secret hash every key alike |
| KeyService.FirstWithHash | src/Modules/ApiKeys/Infrastructure/Repositories/ApiKeyRepository.cs:15-19 | the first row with the hash, and no row before it has that hash; none when no row has it |
| KeyService.ValidateApiKey | src/Modules/ApiKeys/Application/ApiKeys/Services/ApiKeyService.cs:67-98 | the result is well formed; a blank key, a store failure, an unknown hash, a revoked, inactive or expired key each give their own message, in source order; a valid key is returned with status 200 |
| KeyService.ValidateSucceedsIffValid | src/Modules/ApiKeys/Application/ApiKeys/Services/ApiKeyService.cs:67-98 | validation succeeds exactly when the key is not blank, the store answers, and the first key with the hash exists and is valid now |
| KeyService.ValidateFailsWithOneMessage | src/Modules/ApiKeys/Application/ApiKeys/Services/ApiKeyService.cs:67-98 | a failed validation carries exactly one error, one of the five fixed messages or the store failure's |
| KeyService.MintedKeyValidates | src/Modules/ApiKeys/Application/ApiKeys/Services/ApiKeyService.cs:23-98 | a generated key whose hash was stored, with no earlier row sharing the hash, validates to that row while the row is valid |
| Repository.Snapshots | src/Modules/ApiKeys/Infrastructure/ApiKeysDbContext.cs:13 | one record per tracked key, each the key's current values |
| Repository.FirstWithId | src/Modules/ApiKeys/Infrastructure/Repositories/ApiKeyRepository.cs:21-25 | the first row with the id, and no row before it has that id; none when no row has it |
| Repository.FilteredIsOneFilter | src/Modules/ApiKeys/Infrastructure/Repositories/ApiKeyRepository.cs:35-44 | the owner, plan and active Where calls, each applied only when its filter is supplied, keep exactly the keys that pass every supplied filter, in table order |
| Repository.GetCount | src/Modules/ApiKeys/Infrastructure/Repositories/ApiKeyRepository.cs:53-71 | the count is at most the table size, and equals it exactly when every key passes the filters |
| Repository.GetAllSound | src/Modules/ApiKeys/Infrastructure/Repositories/ApiKeyRepository.cs:27-51 | a page holds at most pageSize keys, each in the table and passing every supplied filter |
| Repository.GetAllNewestFirst | src/Modules/ApiKeys/Infrastructure/Repositories/ApiKeyRepository.cs:46-50 | a page lists keys by CreatedAt, newest first |
| Repository.AllPagesListEveryMatch | src/Modules/ApiKeys/Infrastructure/Repositories/ApiKeyRepository.cs:27-71 | the sorted list is as long as the count, and its pages up to the last one hold every admitted key exactly as often as the table does |
| Repository.ApiKeyRepository.constructor | src/Modules/ApiKeys/Infrastructure/Repositories/ApiKeyRepository.cs:10-13 | a fresh context tracks nothing over an empty table |
| Repository.ApiKeyRepository.GetByKeyHashAsync | src/Modules/ApiKeys/Infrastructure/Repositories/ApiKeyRepository.cs:15-19 | null exactly when no tracked key has the hash; otherwise a tracked key with that hash |
| Repository.ApiKeyRepository.GetByIdAsync | src/Modules/ApiKeys/Infrastructure/Repositories/ApiKeyRepository.cs:21-25 | the first tracked key with the id, null exactly when there is none |
| Repository.ApiKeyRepository.GetAllAsync | src/Modules/ApiKeys/Infrastructure/Repositories/ApiKeyRepository.cs:27-51 | the filtered, newest-first page of the saved table |
| Repository.ApiKeyRepository.GetCountAsync | src/Modules/ApiKeys/Infrastructure/Repositories/ApiKeyRepository.cs:53-71 | the number of saved keys passing the filters |
| Repository.ApiKeyRepository.AddAsync | src/Modules/ApiKeys/Infrastructure/Repositories/ApiKeyRepository.cs:73-76 | the key is appended to the tracked keys; the saved table is untouched |
| Repository.ApiKeyRepository.SaveChangesAsync | src/Modules/ApiKeys/Infrastructure/Repositories/ApiKeyRepository.cs:83-86 | the saved table becomes the tracked keys' current values; the tracked keys do not change |
| KeyCommands.DefaultRateLimitPerMinute | src/Modules/ApiKeys/Application/ApiKeys/Commands/CreateApiKeyCommand.cs:121-130 | every plan's default is positive, and an unknown plan value falls back to Free's 30 |
| KeyCommands.DefaultRateLimitPerDay | src/Modules/ApiKeys/Application/ApiKeys/Commands/CreateApiKeyCommand.cs:132-141 | every plan's default is positive, and an unknown plan value falls back to Free's 1000 |
| KeyCommands.DefaultsGrowWithPlan | src/Modules/ApiKeys/Application/ApiKeys/Commands/CreateApiKeyCommand.cs:121-141 | a higher plan gets strictly larger minute and day defaults, and each plan's day default exceeds its minute default |
| KeyCommands.Rule | src/Modules/ApiKeys/Application/ApiKeys/Commands/CreateApiKeyCommand.cs:36-62 | a rule contributes one message when it fails and none when it holds |
| KeyCommands.CreateValidationFailures | src/Modules/ApiKeys/Application/ApiKeys/Commands/CreateApiKeyCommand.cs:32-64 | no message exactly when the name is non-blank and at most 100 characters, the owner is set, the plan is defined, and each supplied limit and expiry is valid; a blank name's message comes first |
| KeyCommands.IdValidationFailures | src/Modules/ApiKeys/Application/ApiKeys/Commands/RevokeApiKeyCommand.cs:13-20 | a message exactly when the id is Guid.Empty (the rotate validator, RotateApiKeyCommand.cs:15-22, is the same rule) |
| KeyCommands.Mint | src/Modules/ApiKeys/Application/ApiKeys/Commands/CreateApiKeyCommand.cs:80-99 | generation failure passes its errors on; otherwise ApiKey.Create rejects the hashed key with its first failing guard, or gives a consistent, valid key whose hash is the raw key's hash |
| KeyCommands.ValidatedCommandIsNotRejected | src/Modules/ApiKeys/Application/ApiKeys/Commands/CreateApiKeyCommand.cs:32-99 | a command the validator accepts is never rejected by ApiKey.Create once the key is generated and its hash is not blank |
| KeyCommands.MintedKeyAuthenticates | src/Modules/ApiKeys/Application/ApiKeys/Commands/CreateApiKeyCommand.cs:80-118 | the raw key the handler returns validates to the stored key while it is valid and no earlier row shares its hash |
| KeyCommands.ResponseFor | src/Modules/ApiKeys/Application/ApiKeys/Commands/CreateApiKeyCommand.cs:106-116 | the response echoes every field of the stored key and carries the raw key |
| KeyCommands.RotationCopiesSettings | src/Modules/ApiKeys/Application/ApiKeys/Commands/RotateApiKeyCommand.cs:55-62 | rotating an expired key is always rejected by ApiKey.Create; a successful rotation copies name, owner, plan, limits and expiry under the new id, active and unrevoked |
| KeyCommands.RevokedKeyRejected | src/Modules/ApiKeys/Application/ApiKeys/Commands/RevokeApiKeyCommand.cs:31-42 | after the key a raw key finds is revoked, that raw key fails validation with "API key has been revoked" at any time |
| KeyCommands.MintAndSave | src/Modules/ApiKeys/Application/ApiKeys/Commands/CreateApiKeyCommand.cs:80-118 | the returned result follows the minting outcome; only a minted key is appended, as a fresh object, and only then is the table saved |
| KeyCommands.AddAndSave | src/Modules/ApiKeys/Application/ApiKeys/Commands/CreateApiKeyCommand.cs:102-103 | the key is appended and the saved table becomes the tracked rows |
| KeyCommands.MintKey | src/Modules/ApiKeys/Application/ApiKeys/Commands/CreateApiKeyCommand.cs:80-99 | a new key object exists exactly when minting succeeds, fresh, consistent and holding the minted values |
| KeyCommands.HandleCreate | src/Modules/ApiKeys/Application/ApiKeys/Commands/CreateApiKeyCommand.cs:77-119 | the command's limits, or the plan defaults, are minted; the result, the new rows and the saved table follow the outcome |
| KeyCommands.HandleRevoke | src/Modules/ApiKeys/Application/ApiKeys/Commands/RevokeApiKeyCommand.cs:31-42 | an unknown id fails with "API key not found" and changes nothing; otherwise only the first key with the id is revoked, the table is saved and the result is true |
| KeyCommands.RevokeOne | src/Modules/ApiKeys/Application/ApiKeys/Commands/RevokeApiKeyCommand.cs:37 | the key's row becomes revoked at now and every other row keeps its values |
| KeyCommands.HandleRotate | src/Modules/ApiKeys/Application/ApiKeys/Commands/RotateApiKeyCommand.cs:35-81 | an unknown id fails and changes nothing; otherwise the old key is revoked in memory, its settings are minted under a new hash, and the table is saved (revoke included) only when the mint succeeds |
| KeyCommands.RotateKey | src/Modules/ApiKeys/Application/ApiKeys/Commands/RotateApiKeyCommand.cs:43-65 | the old row is revoked and the copy of its settings is appended when minted |
| UsageLogs.Create | src/Modules/ApiKeys/Domain/ApiUsageLog.cs:31-48 | accepted exactly when the key id is set and endpoint and method are not blank; each guard's message in order; an accepted entry keeps every argument and is stamped with now |
| UsageLogs.AcceptanceIgnoresMeasurements | src/Modules/ApiKeys/Domain/ApiUsageLog.cs:31-48 | whether an entry is accepted does not depend on its status code, response time or clock |
| RateLimiting.KeysDistinct | src/Modules/ApiKeys/Application/RateLimiting/RateLimitService.cs:21-22 | a key's minute and day counters never share a cache entry, and distinct keys never share one |
| RateLimiting.CheckRateLimit | src/Modules/ApiKeys/Application/RateLimiting/RateLimitService.cs:15-38 | admits exactly when both live counts are below their limits; the minute window is reported before the day window |
| RateLimiting.Incremented | src/Modules/ApiKeys/Application/RateLimiting/RateLimitService.cs:40-54 | both of the key's counters read one more than before and expire a minute and a day from now; every other entry is untouched |
| RateLimiting.RemainingLimits | src/Modules/ApiKeys/Application/RateLimiting/RateLimitService.cs:56-72 | each remaining quota is the limit minus the live count, never below zero |
| RateLimiting.CheckAgreesWithRemaining | src/Modules/ApiKeys/Application/RateLimiting/RateLimitService.cs:15-72 | CheckRateLimit admits exactly when both remaining quotas are positive |
| RateLimiting.IncrementIsolated | src/Modules/ApiKeys/Application/RateLimiting/RateLimitService.cs:40-54 | counting one key's request changes no count of another key |
| RateLimiting.MinuteWindowResets | src/Modules/ApiKeys/Application/RateLimiting/RateLimitService.cs:45-51 | a minute after the last counted request the minute count reads 0 again, while the day count still holds it |
| RateLimiting.ExpiryExtendsOnEveryHit | src/Modules/ApiKeys/Application/RateLimiting/RateLimitService.cs:46-47 | each increment re-stores the entry with a fresh expiry, so requests 50 seconds apart are still both counted more than a minute after the first |
| RateLimiting.Rounds | src/Modules/ApiKeys/Middleware/ApiKeyValidationMiddleware.cs:72-87 | one admission decision per request time; a rejected request increments nothing |
| RateLimiting.RoundsFrom | src/Modules/ApiKeys/Application/RateLimiting/RateLimitService.cs:15-54 | starting from counts a and b, a burst admits exactly the first min(limit - a, limit - b) requests |
| RateLimiting.ExactlyLimitAdmitted | src/Modules/ApiKeys/Application/RateLimiting/RateLimitService.cs:15-54 | from zero counts, a burst of requests less than a minute apart admits exactly min(perMinute, perDay) before the first rejection |
| RateLimiting.OverlappingRequestsOverAdmit | src/Modules/ApiKeys/Application/RateLimiting/RateLimitService.cs:40-54 | one request short of the minute limit, two requests handled one after the other get one admission, while two overlapping requests (both checks and both reads before either write) are both admitted and the minute count ends at the limit, one request lost |
| RateLimiting.RateLimitService.constructor | src/Modules/ApiKeys/Application/RateLimiting/RateLimitService.cs:10-13 | the cache starts empty |
| RateLimiting.RateLimitService.CheckRateLimitAsync | src/Modules/ApiKeys/Application/RateLimiting/RateLimitService.cs:15-38 | gives the CheckRateLimit decision on the current counters |
| RateLimiting.RateLimitService.IncrementUsageAsync | src/Modules/ApiKeys/Application/RateLimiting/RateLimitService.cs:40-54 | the counters become Incremented of the old counters |
| RateLimiting.RateLimitService.GetRemainingLimitsAsync | src/Modules/ApiKeys/Application/RateLimiting/RateLimitService.cs:56-72 | gives RemainingLimits on the current counters |
| Middleware.StartsWithSegmentsLowered | src/Modules/ApiKeys/Middleware/ApiKeyValidationMiddleware.cs:37 | against a lower-case prefix, the segment match holds exactly when the lower-cased path is the prefix or continues it with '/' |
| Middleware.BypassedIff | src/Modules/ApiKeys/Middleware/ApiKeyValidationMiddleware.cs:15-41 | a request skips the key check exactly when its lower-cased path is "/swagger", "/health" or "/metrics", or starts with one of them followed by '/' |
| Middleware.StatusFor | src/Modules/ApiKeys/Middleware/ApiKeyValidationMiddleware.cs:59-61 | 403 exactly when some error mentions "revoked", "expired" or "not active"; 401 otherwise |
| Middleware.LifecycleFailureForbidden | src/Modules/ApiKeys/Middleware/ApiKeyValidationMiddleware.cs:57-66 | the revoked, inactive and expired messages each give 403 |
| Middleware.UnknownKeyUnauthorized | src/Modules/ApiKeys/Middleware/ApiKeyValidationMiddleware.cs:44-66 | an unknown key and a missing key give 401 |
| Middleware.DecisionShape | src/Modules/ApiKeys/Middleware/ApiKeyValidationMiddleware.cs:27-84 | only excluded paths bypass; a missing or blank header is a 401 with "API key is required"; every rejection carries one message and one of 401, 403 and 429 |
| Middleware.AdmittedKeyPassedBothChecks | src/Modules/ApiKeys/Middleware/ApiKeyValidationMiddleware.cs:56-84 | an admitted request's key is the one validation returned for its header, and is under both rate limits |
| Middleware.AdmissionFollowsLimiter | src/Modules/ApiKeys/Middleware/ApiKeyValidationMiddleware.cs:56-84 | a stored, valid key is admitted exactly while both of its live counts are below its limits |
| Middleware.RemainingCountsThisRequest | src/Modules/ApiKeys/Middleware/ApiKeyValidationMiddleware.cs:86-100 | the Limit headers read back as the key's limits, and the Remaining headers as the limit minus the earlier count minus this request, never below zero |
| Middleware.HttpContext.constructor | src/Modules/ApiKeys/Middleware/ApiKeyValidationMiddleware.cs:27-33 | a fresh context has status 200, no body, headers or items, and the next handler has not run |
| Middleware.WriteFailure | src/Modules/ApiKeys/Middleware/ApiKeyValidationMiddleware.cs:47-49 | the status code is set and the body is the failure envelope of the errors; nothing else changes |
| Middleware.AdmitRequest | src/Modules/ApiKeys/Middleware/ApiKeyValidationMiddleware.cs:86-129 | the request is counted, the four headers hold the quotas read after counting, the key context is stored, and the next handler runs once |
| Middleware.CheckKey | src/Modules/ApiKeys/Middleware/ApiKeyValidationMiddleware.cs:53-129 | a failed validation writes 401 or 403, a rate-limited key writes 429 without being counted, and an admitted key goes through AdmitRequest |
| Middleware.InvokeAsync | src/Modules/ApiKeys/Middleware/ApiKeyValidationMiddleware.cs:27-129 | the context and the counters change exactly as the decision for the request says: bypass calls the next handler, a rejection writes the failure, an admission counts and annotates |
| Results.MakeError | src/Shared/SportsData.Shared/Result.cs:6-19 | the detail keeps the code and the message and is tagged with its helper's type name |
| Results.NormalizeErrors | src/Shared/SportsData.Shared/Result.cs:33 | a null error array becomes empty; any other array is kept |
| Results.SuccessNoValue | src/Shared/SportsData.Shared/Result.cs:37 | a well-formed success with no value and no errors, carrying the given status (204 by default) |
| Results.Success | src/Shared/SportsData.Shared/Result.cs:52 | a well-formed success holding the value, with no errors and the given status |
| Results.Failure | src/Shared/SportsData.Shared/Result.cs:38 | a well-formed failure with no value, the given errors and status 400 |
| Results.FailureOf | src/Shared/SportsData.Shared/Result.cs:39-40 | a well-formed failure with one error, "Code: Message", and the given status |
| Envelopes.NewEnvelope | src/Shared/SportsData.Shared/Envelope.cs:10-16 | keeps the data and the flag, stamps the clock, and turns a null error array into an empty one |
| Envelopes.Success | src/Shared/SportsData.Shared/Envelope.cs:18-19 | a success envelope holds the data and no errors |
| Envelopes.Failure | src/Shared/SportsData.Shared/Envelope.cs:21-22 | a failure envelope holds no data and the given errors (none for null) |
| Envelopes.ResponseEnvelopeFactoriesDisjoint | src/Shared/SportsData.Shared/ResponseEnvelope.cs:18-22 | a success and a failure envelope always differ: only the success carries data, and it has no errors |
| HttpResults.MapFailure | src/Shared/SportsData.Shared/ResultHttpExtensions.cs:27-32 | every failure becomes a 400 whose body is a failure envelope of exactly the result's errors |
| HttpResults.ToHttpResult | src/Shared/SportsData.Shared/ResultHttpExtensions.cs:7-16 | a success becomes 200 with a success envelope of the value; a failure goes through MapFailure |
| HttpResults.ToHttpResultNoValue | src/Shared/SportsData.Shared/ResultHttpExtensions.cs:17-25 | a success becomes an empty 204; a failure goes through MapFailure |
| HttpResults.HandlerStatusIgnored | src/Shared/SportsData.Shared/ResultHttpExtensions.cs:15 | the status a handler puts in a typed failure (404, 409, ...) never reaches the client, who gets 400 and the "Code: Message" text |
| HttpResults.SuccessPreserved | src/Shared/SportsData.Shared/ResultHttpExtensions.cs:7-25 | for both overloads the response is a non-400 exactly when the result is a success, and the envelope's flag matches |
| Paging.TotalPages | src/Shared/SportsData.Shared/PagedList.cs:18 | for a positive page size, the fewest pages of that size that hold count items; none for size 0 (an undefined conversion); at most 0 for a negative size |
| Paging.NewPagedList | src/Shared/SportsData.Shared/PagedList.cs:15-21 | keeps items, count and page number, derives TotalPages from count and size, and has a previous page exactly after page 1 |
| Paging.HasNextPageIffItemsRemain | src/Shared/SportsData.Shared/PagedList.cs:13-18 | a next page exists exactly when the pages up to this one hold fewer items than the count |
| Paging.Skip | src/Shared/SportsData.Shared/PagedList.cs:26 | LINQ Skip: nothing skipped for a count at or below 0, everything for a count past the end, otherwise the suffix |
| Paging.Take | src/Shared/SportsData.Shared/PagedList.cs:26 | LINQ Take: nothing for a count at or below 0, everything for a count past the end, otherwise the prefix |
| Paging.OffsetNonNegative | src/Shared/SportsData.Shared/PagedList.cs:26 | the offset of page 1 or later with a non-negative size is never negative |
| Paging.OffsetOverflows | src/Shared/SportsData.Shared/PagedList.cs:23-26 | in 32-bit arithmetic the offset of page 21474838 of size 100 wraps to a negative number, so the SQL Server query is rejected where the exact offset gives an empty page (in-memory Skip would return the first page) |
| Paging.SqlSkipTake | src/Shared/SportsData.Shared/PagedList.cs:23-26 | Skip(offset).Take(count) as SQL Server runs it: an error exactly for a negative offset or a count below one, otherwise the slice from the offset, count long, cut at the end |
| Paging.AsWrittenIsPageWithinRange | src/Shared/SportsData.Shared/PagedList.cs:26 | while (pageNumber - 1) * pageSize fits in an int, the as-written query gives exactly the corrected page, so the overflow is the only difference |
| Paging.Page | src/Shared/SportsData.Shared/PagedList.cs:26 | a page holds at most pageSize items, and for valid arguments it is the slice of the source from the page's offset, pageSize long, cut at the end |
| Paging.CreatePage | src/Shared/SportsData.Shared/PagedList.cs:23-29 | the page of the source, the source's full count, the requested page number and the derived total pages |
| Paging.PastLastPageEmpty | src/Shared/SportsData.Shared/PagedList.cs:23-29 | a page past the last one is empty and still reports the full count |
| Paging.PagesArePrefix | src/Shared/SportsData.Shared/PagedList.cs:26 | pages 1 to n, read in turn, are the first n * pageSize items of the source, in order |
| Paging.AllPagesCoverSource | src/Shared/SportsData.Shared/PagedList.cs:18-26 | pages 1 to TotalPages, read in turn, are exactly the source: no item lost, repeated or reordered |
| Paging.PageKeepsOrder | src/Shared/SportsData.Shared/PagedList.cs:26 | a page of a sorted source is sorted |
| Paging.PageElementsFromSource | src/Shared/SportsData.Shared/PagedList.cs:26 | every item of a page is an item of the source |
| Sequences.Filter | src/Modules/Matches/Application/Queries/GetMatchesQueryHandler.cs:23-41 | Where: the kept elements are exactly the source's elements that satisfy the predicate, and nothing else |
| Sequences.FilterCounts | src/Modules/Matches/Application/Queries/GetMatchesQueryHandler.cs:23-41 | Where keeps each satisfying element as many times as the source holds it, and drops every other |
| Sequences.FilterAppend | src/Modules/Matches/Application/Queries/GetMatchesQueryHandler.cs:23-41 | Where keeps the source order: filtering a concatenation is the concatenation of the filtered parts |
| Sequences.FilterFilter | src/Modules/Matches/Application/Queries/GetMatchesQueryHandler.cs:23-41 | chaining two Where clauses is one Where on their conjunction |
| Sequences.FilterWhen | src/Modules/Matches/Application/Queries/GetMatchesQueryHandler.cs:23-33 | a Where added only when an optional filter is present equals a Where on "absent or satisfied" |
| Sequences.Insert | src/Modules/Competitions/Infrastructure/Matches/MatchService.cs:49 | inserting into a sorted sequence keeps it sorted and adds exactly the one element |
| Sequences.SortBy | src/Modules/Competitions/Infrastructure/Matches/MatchService.cs:49 | OrderBy: a permutation of the source whose keys never decrease |
| Sequences.SortedPermutationUnique | src/Modules/Competitions/Infrastructure/Matches/MatchService.cs:49 | with distinct keys, two sorted permutations of the same elements are equal, so the order is fully determined |
| Sequences.Map | src/Modules/Matches/Application/Queries/GetMatchesQueryHandler.cs:53-63 | Select: one result per element, in the same position, given by the projection |
| Sequences.FirstWhere | src/Modules/Competitions/Infrastructure/Matches/MatchStatsService.cs:42-43 | FirstOrDefault: nothing exactly when no element matches, otherwise the matching element with no match before it |
| Sequences.FirstWhereSkipsInserted | src/Modules/Competitions/Infrastructure/Matches/MatchStatsService.cs:31-43 | inserting a non-matching element leaves the first match unchanged |
| Sequences.FirstWhereFindsInserted | src/Modules/Competitions/Infrastructure/Matches/MatchStatsService.cs:31-43 | an inserted matching element that no other match precedes in key order becomes the first match |
| Sequences.SortKeepsFirstOfKey | src/Modules/Competitions/Infrastructure/Matches/MatchStatsService.cs:31-43 | when the predicate selects one key, ordering by that key does not change which element is found first |
| Validation.Messages | src/Shared/SportsData.Shared/ValidationBehavior.cs:29-32 | one validator's messages are drawn only from its non-null failures, never more of them than failures |
| Validation.CollectFailuresAppend | src/Shared/SportsData.Shared/ValidationBehavior.cs:26-32 | the collected messages are the first validators' messages followed by the later ones' |
| Validation.CollectFailuresSound | src/Shared/SportsData.Shared/ValidationBehavior.cs:26-43 | every collected message is a non-null failure of some validator of the request |
| Validation.HandleAsWritten | src/Shared/SportsData.Shared/ValidationBehavior.cs:17-65 | no validators or no failures call the handler; failures with a Result<T> response throw AmbiguousMatchException, since Result<T> declares two public static Failure methods |
| Validation.Handle | src/Shared/SportsData.Shared/ValidationBehavior.cs:17-65 | the handler runs exactly when nothing failed or the response is neither Result nor Result<T>; otherwise the answer is a failure with status 400 and exactly the collected messages, and nothing throws |
| Validation.HandleDiffersOnlyForGenericFailures | src/Shared/SportsData.Shared/ValidationBehavior.cs:50-61 | the as-written and the intended behaviour differ exactly on failing requests whose response is a Result<T> |
| Validation.GenericFailureThrows | src/Shared/SportsData.Shared/ValidationBehavior.cs:50-57 | one failing validator on a Result<int> request throws as written and is answered with a 400 failure as intended |
| Caching.Lookup | src/Shared/SportsData.Shared/Caching/InMemoryCacheService.cs:19 | a hit exactly when the key is present, not yet expired and holds a non-null value, and then that value |
| Caching.StoredValueFound | src/Shared/SportsData.Shared/Caching/InMemoryCacheService.cs:24-32 | a stored non-null value is a hit at every later time before its expiry, and at every time when no expiration was given |
| Caching.StoredValueExpires | src/Shared/SportsData.Shared/Caching/InMemoryCacheService.cs:26-32 | a stored value is a miss once its absolute expiry has been reached |
| Caching.StoredNullIsMiss | src/Shared/SportsData.Shared/Caching/InMemoryCacheService.cs:19-32 | a stored null never counts as a hit, so the factory runs again on the next call |
| Caching.InMemoryCacheService.constructor | src/Shared/SportsData.Shared/Caching/InMemoryCacheService.cs:12-15 | the cache starts empty |
| Caching.InMemoryCacheService.GetOrCreate | src/Shared/SportsData.Shared/Caching/InMemoryCacheService.cs:17-35 | the factory is called exactly on a miss; a hit returns the cached value and changes nothing; a miss returns the factory's value and stores it, with its expiry, under that key only |
| Caching.InMemoryCacheService.Remove | src/Shared/SportsData.Shared/Caching/InMemoryCacheService.cs:37-41 | only the given key is removed; every other entry is kept unchanged |
| CompetitionMatch.CreateRejection | src/Modules/Competitions/Domain/Match.cs:50-61 | Create is refused exactly for equal teams or a blank venue, with the same-teams message taking precedence |
| CompetitionMatch.CreatedIsScheduled | src/Modules/Competitions/Domain/Match.cs:23-39 | a new match is Scheduled, has no scores, and a score is recorded exactly while it is live or finished |
| CompetitionMatch.ScoringRules | src/Modules/Competitions/Domain/Match.cs:69-94 | recording a score is refused exactly when either score is negative; an accepted score is stored as given with the new status, and the date, teams, season and venue are kept |
| CompetitionMatch.OperationsKeepScoresFollowStatus | src/Modules/Competitions/Domain/Match.cs:69-125 | every mutator, from any status, keeps "scores are recorded exactly while live or finished" and never changes the teams, season or venue |
| CompetitionMatch.FinalScoreCanBeDiscarded | src/Modules/Competitions/Domain/Match.cs:99-125 | no transition is guarded: postponing or rescheduling a finished match discards its final score |
| CompetitionMatch.Match.Snapshot | src/Modules/Competitions/Domain/Match.cs:11-18 | the record reports the match's current status and scores |
| CompetitionMatch.Match.constructor | src/Modules/Competitions/Domain/Match.cs:23-39 | the private constructor yields the created record, which keeps the invariant |
| CompetitionMatch.Match.Create | src/Modules/Competitions/Domain/Match.cs:44-64 | throws the first failed guard's message, otherwise a new valid scheduled match with the given teams, season, date and venue |
| CompetitionMatch.Match.SetFinalScore | src/Modules/Competitions/Domain/Match.cs:69-79 | a negative score throws and changes nothing; otherwise the scores are stored and the match is Finished |
| CompetitionMatch.Match.UpdateLiveScore | src/Modules/Competitions/Domain/Match.cs:84-94 | a negative score throws and changes nothing; otherwise the scores are stored and the match is Live |
| CompetitionMatch.Match.Postpone | src/Modules/Competitions/Domain/Match.cs:99-104 | the match is Postponed with both scores cleared, the rest unchanged |
| CompetitionMatch.Match.Cancel | src/Modules/Competitions/Domain/Match.cs:109-114 | the match is Cancelled with both scores cleared, the rest unchanged |
| CompetitionMatch.Match.Reschedule | src/Modules/Competitions/Domain/Match.cs:119-125 | the match takes the new date and is Scheduled again with both scores cleared |
| MatchesMatch.StatusAndScoreIndependent | src/Modules/Matches/Domain/Match.cs:26-40 | Start and Finish change only the status and UpdateScore only the scores, so they commute, and none changes the fixture |
| MatchesMatch.ScoreWithoutKickOff | src/Modules/Matches/Domain/Match.cs:17-35 | with no guards, a scheduled match accepts a score, even a negative one |
| MatchesMatch.Match.Snapshot | src/Modules/Matches/Domain/Match.cs:7-13 | the record reports the match's current status and scores |
| MatchesMatch.Match.constructor | src/Modules/Matches/Domain/Match.cs:17-24 | a new match is Scheduled with the given teams, season and start time and no score |
| MatchesMatch.Match.Start | src/Modules/Matches/Domain/Match.cs:26-29 | the status becomes Live and nothing else changes |
| MatchesMatch.Match.UpdateScore | src/Modules/Matches/Domain/Match.cs:31-35 | both scores are stored as given and nothing else changes |
| MatchesMatch.Match.Finish | src/Modules/Matches/Domain/Match.cs:37-40 | the status becomes Finished and nothing else changes |
| MatchStatisticsEntity.WrappedSumIs100 | src/Modules/Matches/Domain/MatchStatistics.cs:95 | for two non-negative ints the unchecked 32-bit sum equals 100 exactly when the true sum does, so the possession test cannot be fooled by wrap-around |
| MatchStatisticsEntity.PossessionRejectedIff | src/Modules/Matches/Domain/MatchStatistics.cs:95 | the possession guard refuses exactly the values that are not two non-negative percentages totalling 100 |
| MatchStatisticsEntity.CreateRejection | src/Modules/Matches/Domain/MatchStatistics.cs:94-123 | Create accepts exactly plausible statistics, and a possession failure is reported before any other |
| MatchStatisticsEntity.UpdateRejection | src/Modules/Matches/Domain/MatchStatistics.cs:162-176 | UpdateStatistics accepts exactly plausible statistics, and a possession failure is reported before any other |
| MatchStatisticsEntity.CreateAndUpdateAgree | src/Modules/Matches/Domain/MatchStatistics.cs:94-176 | Create and UpdateStatistics accept and refuse the same statistics |
| MatchStatisticsEntity.MessagesDiffer | src/Modules/Matches/Domain/MatchStatistics.cs:107-108 | for 12 home shots with 13 on target the two operations refuse with different messages |
| MatchStatisticsEntity.MatchStatistics.constructor | src/Modules/Matches/Domain/MatchStatistics.cs:40-72 | the private constructor stores the match and all fourteen values as given |
| MatchStatisticsEntity.MatchStatistics.Create | src/Modules/Matches/Domain/MatchStatistics.cs:77-141 | throws the first failed guard's message, otherwise new plausible statistics for the match holding exactly the given values |
| MatchStatisticsEntity.MatchStatistics.UpdateStatistics | src/Modules/Matches/Domain/MatchStatistics.cs:146-192 | a refused update throws and changes nothing; an accepted one overwrites all fourteen values; plausibility is never lost |
| TeamMatchStats.CreateRejection | src/Modules/Competitions/Domain/MatchStats.cs:74-100 | Create accepts exactly plausible team statistics, and an out-of-range possession is reported first, naming its parameter |
| TeamMatchStats.UpdateRejection | src/Modules/Competitions/Domain/MatchStats.cs:127-133 | UpdateStats accepts exactly plausible team statistics, and an out-of-range possession is reported first |
| TeamMatchStats.CreateAndUpdateAgree | src/Modules/Competitions/Domain/MatchStats.cs:74-133 | Create and UpdateStats accept the same values, and possession 0 and 100 are both allowed: setting either bound on plausible statistics keeps them plausible |
| TeamMatchStats.MatchStats.constructor | src/Modules/Competitions/Domain/MatchStats.cs:35-57 | the private constructor stores the match, team, side and the seven values as given |
| TeamMatchStats.MatchStats.Create | src/Modules/Competitions/Domain/MatchStats.cs:62-113 | throws the first failed guard's message, otherwise new plausible statistics for that match, team and side holding the given values |
| TeamMatchStats.MatchStats.UpdateStats | src/Modules/Competitions/Domain/MatchStats.cs:118-142 | a refused update throws and changes nothing; an accepted one overwrites all seven values; plausibility is never lost |
| Standings.DerivedValuesExact | src/Modules/Competitions/Domain/LeagueStanding.cs:44-45 | within int range the derived columns are three points a win plus one a draw, and goals for minus goals against |
| Standings.PointsWrap | src/Modules/Competitions/Domain/LeagueStanding.cs:45 | the unchecked int arithmetic wraps: 715827883 wins give -2147483647 points |
| Standings.PointsWrapOnce | src/Modules/Competitions/Domain/LeagueStanding.cs:45 | wrapping the product before adding the draws equals wrapping the exact points once |
| Standings.UpdatesKeepDerived | src/Modules/Competitions/Domain/LeagueStanding.cs:48-63 | after UpdateStats the derived columns match the new counts and the row's identity and position are kept; UpdatePosition changes only the position and keeps them matching |
| Standings.PlayedNotChecked | src/Modules/Competitions/Domain/LeagueStanding.cs:22-46 | nothing ties Played to the results: a row with one game played and three wins is accepted with 9 points |
| Standings.LeagueStanding.constructor | src/Modules/Competitions/Domain/LeagueStanding.cs:22-46 | the counts are stored as given and the goal difference and points are derived from them |
| Standings.LeagueStanding.UpdateStats | src/Modules/Competitions/Domain/LeagueStanding.cs:48-58 | the six counts are replaced, the derived columns recomputed, and the identity and position kept |
| Standings.LeagueStanding.UpdatePosition | src/Modules/Competitions/Domain/LeagueStanding.cs:60-63 | only the position changes, and the derived columns still agree with the counts |
| CompetitionsCommands.FirstWithId | src/Modules/Competitions/Application/Teams/Commands/AssignTeamToLeagueSeasonCommand.cs:67-68 | FirstOrDefault by id: the position of the first row with that id, and none exactly when no row has it |
| CompetitionsCommands.SeasonsKeepIds | src/Modules/Competitions/Application/Leagues/Commands/CreateSeasonCommand.cs:68-83 | clearing IsCurrent and appending a season keeps every season id findable, with the same league |
| CompetitionsCommands.PlayersKeepIds | src/Modules/Competitions/Application/Players/Commands/UpdatePlayerCommand.cs:85-99 | overwriting a player's details or appending a player keeps every player id findable |
| CompetitionsCommands.TextRule | src/Modules/Competitions/Application/Players/Commands/CreatePlayerCommand.cs:23-26 | a NotEmpty().MaximumLength(n).WithMessage(m) chain is silent exactly for a non-blank text of at most n characters; a blank text is reported first with NotEmpty's default message, and a non-blank over-long text with m alone |
| CompetitionsCommands.RangeRule | src/Modules/Competitions/Application/Players/Commands/CreatePlayerCommand.cs:38-42 | a GreaterThan(lo).LessThanOrEqualTo(hi).When(HasValue).WithMessage(m) chain is silent exactly for no value or one in (lo, hi]; a value at or below lo is reported first with GreaterThan's default message, and one above both bounds with m alone |
| CompetitionsCommands.IdRule | src/Modules/Competitions/Application/Players/Commands/AssignPlayerToTeamCommand.cs:24-26 | a NotEmpty().WithMessage(m) rule on an id reports exactly m, exactly for Guid.Empty |
| CompetitionsCommands.YearRuleIsPattern | src/Modules/Competitions/Application/Leagues/Commands/CreateSeasonCommand.cs:25-30 | a year passes NotEmpty, MaximumLength(20) and the pattern exactly when it matches the pattern, which forces 4 to 10 characters |
| CompetitionsCommands.YearExamples | src/Modules/Competitions/Application/Leagues/Commands/CreateSeasonCommand.cs:29-30 | "2023/2024", "2023-2024" and "2023" match; "23/24", "2023/24" and "2023 " do not; the regex end anchor also admits a final line feed |
| CompetitionsCommands.CreateSeasonFailures | src/Modules/Competitions/Application/Leagues/Commands/CreateSeasonCommand.cs:21-30 | no message exactly for a non-empty league id and a year of one of the three shapes; an empty league id is reported first with its message; a non-blank year of at most 20 characters in the wrong shape gets only the format message; a blank year gets NotEmpty's default message and the format message |
| CompetitionsCommands.Unmarked | src/Modules/Competitions/Application/Leagues/Commands/CreateSeasonCommand.cs:68-79 | every season of the league loses IsCurrent; all other seasons are untouched; nothing is added or removed |
| CompetitionsCommands.SeasonCreation | src/Modules/Competitions/Application/Leagues/Commands/CreateSeasonCommand.cs:45-89 | an unknown league gives 404 and a taken (league, year) 409, both changing nothing; otherwise 201 with the new id, one season with the request's values appended, other leagues' seasons unchanged, and the league's seasons unmarked exactly when the new one is current |
| CompetitionsCommands.NewCurrentSeasonIsTheOnlyOne | src/Modules/Competitions/Application/Leagues/Commands/CreateSeasonCommand.cs:67-84 | after a current season is created it is its league's only current season |
| CompetitionsCommands.CreateSeasonKeepsConsistent | src/Modules/Competitions/Application/Leagues/Commands/CreateSeasonCommand.cs:57-84 | creating a season keeps at most one current season per league, unique (league, year) pairs and every reference resolving |
| CompetitionsCommands.CreateTeamFailures | src/Modules/Competitions/Application/Teams/Commands/CreateTeamCommand.cs:23-52 | no message exactly when the five texts are present within their lengths and a founded year, if given, lies after 1800 and at most in the current year; each rule adds at most two messages |
| CompetitionsCommands.TeamCreation | src/Modules/Competitions/Application/Teams/Commands/CreateTeamCommand.cs:67-95 | a taken code gives 409 and changes nothing; otherwise 201 with the new id and exactly the request's team appended |
| CompetitionsCommands.CreateTeamKeepsConsistent | src/Modules/Competitions/Application/Teams/Commands/CreateTeamCommand.cs:69-89 | creating a team keeps team codes unique and every reference resolving |
| CompetitionsCommands.CreatePlayerFailures | src/Modules/Competitions/Application/Players/Commands/CreatePlayerCommand.cs:23-53 | no message exactly for present name, nationality and position within their lengths, height 1 to 300 and weight 1 to 200 when given, and a birth date before now when given |
| CompetitionsCommands.UpdatePlayerFailures | src/Modules/Competitions/Application/Players/Commands/UpdatePlayerCommand.cs:24-58 | no message exactly for a non-empty id and details the create validator accepts |
| CompetitionsCommands.UpdatePlayerNameMessages | src/Modules/Competitions/Application/Players/Commands/UpdatePlayerCommand.cs:24-31 | on otherwise valid details, an empty id gets only "Player ID is required", an empty name only NotEmpty's default "'Name' must not be empty.", and a 201-character name only the rule's own message |
| CompetitionsCommands.PlayerUpdate | src/Modules/Competitions/Application/Players/Commands/UpdatePlayerCommand.cs:73-106 | an unknown id gives 404 and changes nothing; a known one gives 204, the player gets exactly the request's six values with absent ones cleared, keeps its id, and no other player changes |
| CompetitionsCommands.CreatePlayerKeepsConsistent | src/Modules/Competitions/Application/Players/Commands/CreatePlayerCommand.cs:68-85 | appending a player keeps every invariant of the database |
| CompetitionsCommands.UpdatePlayerKeepsConsistent | src/Modules/Competitions/Application/Players/Commands/UpdatePlayerCommand.cs:73-106 | overwriting a player's details keeps every invariant of the database |
| CompetitionsCommands.AssignPlayerFailures | src/Modules/Competitions/Application/Players/Commands/AssignPlayerToTeamCommand.cs:24-49 | no message exactly for non-empty ids and start date, a shirt number 1 to 99 when given, and an end date after the start when given |
| CompetitionsCommands.PlayerAssignment404Order | src/Modules/Competitions/Application/Players/Commands/AssignPlayerToTeamCommand.cs:64-124 | the first missing of player, team and season gives its 404; an existing triple 409; refusals change nothing; otherwise 201 and exactly the request's assignment is appended |
| CompetitionsCommands.ValidatedAssignmentsWellFormed | src/Modules/Competitions/Application/Players/Commands/AssignPlayerToTeamCommand.cs:36-49 | assignments added from validated requests keep every row's shirt number in 1 to 99 and its end after its start |
| CompetitionsCommands.AssignPlayerKeepsConsistent | src/Modules/Competitions/Application/Players/Commands/AssignPlayerToTeamCommand.cs:93-117 | assigning a player keeps (player, team, season) triples unique and every reference resolving |
| CompetitionsCommands.AssignTeamFailures | src/Modules/Competitions/Application/Teams/Commands/AssignTeamToLeagueSeasonCommand.cs:21-31 | no message exactly for three non-empty ids, and at most one message per id |
| CompetitionsCommands.TeamAssignmentOutcomes | src/Modules/Competitions/Application/Teams/Commands/AssignTeamToLeagueSeasonCommand.cs:46-111 | team, league and season are checked in that order with 404; a season of another league gives 400; an existing triple 409; refusals change nothing; success holds exactly when all checks pass and appends that one entry |
| CompetitionsCommands.AssignTeamKeepsConsistent | src/Modules/Competitions/Application/Teams/Commands/AssignTeamToLeagueSeasonCommand.cs:77-105 | assigning a team keeps triples unique and every entry in its season's league |
| CompetitionsCommands.CompetitionsDbContext.constructor | src/Modules/Competitions/Infrastructure/CompetitionsDbContext.cs:6-13 | the context holds the given tables |
| CompetitionsCommands.HandleCreateSeason | src/Modules/Competitions/Application/Leagues/Commands/CreateSeasonCommand.cs:45-90 | clears IsCurrent season by season; result, tables and removed cache key are exactly those of the season-creation rules |
| CompetitionsCommands.HandleCreateTeam | src/Modules/Competitions/Application/Teams/Commands/CreateTeamCommand.cs:67-95 | result, tables and removed cache key are exactly those of the team-creation rules |
| CompetitionsCommands.HandleCreatePlayer | src/Modules/Competitions/Application/Players/Commands/CreatePlayerCommand.cs:68-85 | appends the player, removes the players key and returns 201 with the new id |
| CompetitionsCommands.HandleUpdatePlayer | src/Modules/Competitions/Application/Players/Commands/UpdatePlayerCommand.cs:73-106 | result, tables and removed cache keys are exactly those of the player-update rules |
| CompetitionsCommands.HandleAssignPlayerToTeam | src/Modules/Competitions/Application/Players/Commands/AssignPlayerToTeamCommand.cs:64-124 | result, tables and removed cache keys are exactly those of the player-assignment rules |
| CompetitionsCommands.HandleAssignTeamToLeagueSeason | src/Modules/Competitions/Application/Teams/Commands/AssignTeamToLeagueSeasonCommand.cs:46-111 | result, tables and removed cache key are exactly those of the team-assignment rules |
| MatchQueries.GetMatchesFailures | src/Modules/Competitions/Application/Matches/Queries/GetMatchesQuery.cs:17-39 | the validator passes exactly for a non-empty season, a positive page, a page size from 1 to 100 and dates not reversed; at most four messages |
| MatchQueries.FilteredIsOneFilter | src/Modules/Competitions/Infrastructure/Matches/MatchService.cs:25-45 | the season Where and the optional team and date Wheres together keep exactly the matches of the season, with the team on either side and the date within both inclusive bounds, in table order |
| MatchQueries.SeasonYear | src/Modules/Competitions/Infrastructure/Matches/MatchService.cs:52-55 | the season's Year when a season has the id, otherwise "" |
| MatchQueries.TeamBasic | src/Modules/Competitions/Infrastructure/Matches/MatchService.cs:58-85 | a known team's id, name and logo; Guid.Empty and two empty texts for an unknown one |
| MatchQueries.Project | src/Modules/Competitions/Infrastructure/Matches/MatchService.cs:50-90 | each DTO keeps the match's id, date, venue and status name, and has a score exactly when both scores are present |
| MatchQueries.GetMatches | src/Modules/Competitions/Infrastructure/Matches/MatchService.cs:17-92 | the page reports the requested page number, the number of matches admitted by the season, team and date filters as its total count, the page count derived from that total, and at most PageSize items |
| MatchQueries.GetMatchesSound | src/Modules/Competitions/Infrastructure/Matches/MatchService.cs:17-92 | the total count is the number of admitted matches, and every listed DTO is the projection of an admitted match of the table |
| MatchQueries.ListedFromAdmitted | src/Modules/Competitions/Infrastructure/Matches/MatchService.cs:48-92 | every DTO on a page is the projection of a match the filters admit |
| MatchQueries.GetMatchesAscending | src/Modules/Competitions/Infrastructure/Matches/MatchService.cs:49 | a page lists its matches by date, earliest first |
| MatchQueries.ValidQueryPage | src/Modules/Competitions/Application/Matches/Queries/GetMatchesQuery.cs:25-33 | a query the validator accepts gets at most PageSize, at most 100, matches and a defined page count |
| MatchQueries.JoinInjective | src/Modules/Competitions/Application/Matches/Queries/GetMatchesQuery.cs:55 | fields without '_' are recovered from the key that joins them with '_' |
| MatchQueries.FirstDayText | src/Modules/Competitions/Application/Matches/Queries/GetMatchesQuery.cs:55 | the first tick formats under yyyyMMdd as 00010101 |
| MatchQueries.NewYear2024Text | src/Modules/Competitions/Application/Matches/Queries/GetMatchesQuery.cs:55 | the first tick of 2024 formats as 20240101 |
| MatchQueries.LeapDayText | src/Modules/Competitions/Application/Matches/Queries/GetMatchesQuery.cs:55 | noon on 29 February 2024 formats as 20240229 |
| MatchQueries.AsWrittenKeySharedWithinDay | src/Modules/Competitions/Application/Matches/Queries/GetMatchesQuery.cs:55 | as written, queries that differ only in the time of day of their dates share a cache key |
| MatchQueries.AsWrittenKeyServesAnotherQuerysPage | src/Modules/Competitions/Application/Matches/Queries/GetMatchesQuery.cs:55-67 | as written, a from-midnight query and a from-noon query share a key although one finds a 6 a.m. match and the other none, so the second is served the first one's page |
| MatchQueries.CacheKeyInjective | src/Modules/Competitions/Application/Matches/Queries/GetMatchesQuery.cs:55 | with the dates written in full, two queries share a key only when they are the same query |
| MatchQueries.HandleGetMatches | src/Modules/Competitions/Application/Matches/Queries/GetMatchesQuery.cs:52-70 | always a 200 success holding a page: the cached page under the query's key while it lives, otherwise the service's page, which is then cached for five minutes; the key and the page offset are the corrected ones of Findings rows 2 and 3 (see "## Left out") |
| MatchQueries.GetMatchStats | src/Modules/Competitions/Infrastructure/Matches/MatchStatsService.cs:16-75 | stats exactly when the match exists and has both a home and an away record, for that match; null otherwise |
| MatchQueries.StatsFromFirstRecords | src/Modules/Competitions/Infrastructure/Matches/MatchStatsService.cs:28-74 | the home side is the match's first home record and the away side its first away record in table order; the home-first OrderBy changes neither |
| MatchesQueries.Trim | src/Modules/Matches/Application/Queries/GetMatchesQueryHandler.cs:37 | the text Enum.TryParse reads: no white space at either end, and a text without white space is kept as it is |
| MatchesQueries.ParseStatus | src/Modules/Matches/Application/Queries/GetMatchesQueryHandler.cs:37 | Enum.TryParse with ignoreCase: a numeral within int range gives its number, defined status or not; any other text gives a status exactly when it names one, ignoring letter case, and then that status's value |
| MatchesQueries.FilteredIsOneFilter | src/Modules/Matches/Application/Queries/GetMatchesQueryHandler.cs:22-41 | the chained Where calls keep exactly the matches passing every supplied filter, in table order; an absent filter or a status that does not parse restricts nothing |
| MatchesQueries.Handle | src/Modules/Matches/Application/Queries/GetMatchesQueryHandler.cs:18-69 | always a 200 success (with the exact offset and in-memory paging, see Left out); the count is the number of matches passing every filter; the page number is the request's; the page count follows from that count; a page holds at most PageSize matches |
| MatchesQueries.HandleIsSlice | src/Modules/Matches/Application/Queries/GetMatchesQueryHandler.cs:43-66 | the page is the slice of the newest-first list starting at (PageNumber - 1) * PageSize and PageSize long, cut at the end, each match mapped to its DTO |
| MatchesQueries.HandleSound | src/Modules/Matches/Application/Queries/GetMatchesQueryHandler.cs:22-63 | every listed DTO is the DTO of a match of the table that passes every supplied filter |
| MatchesQueries.HandleNewestFirst | src/Modules/Matches/Application/Queries/GetMatchesQueryHandler.cs:44 | a page lists later matches first |
| MatchesQueries.UnknownStatusIgnored | src/Modules/Matches/Application/Queries/GetMatchesQueryHandler.cs:35-41 | a status that is no numeral and names no status gives the same answer as no status at all |
| MatchesQueries.StatusNameRoundTrip | src/Modules/Matches/Application/Queries/GetMatchesQueryHandler.cs:37-59 | every status name written by ToString parses back to that status |
| MatchesQueries.StatusIgnoresCase | src/Modules/Matches/Application/Queries/GetMatchesQueryHandler.cs:37 | a status name in any letter case parses to that status |
| MatchesQueries.UnnamedTextNone | src/Modules/Matches/Application/Queries/GetMatchesQueryHandler.cs:37 | a trimmed text that is neither a numeral nor a status name parses to nothing |
| MatchesQueries.CancelledNotAStatus | src/Modules/Matches/Domain/Match.cs:43-49 | "Cancelled", a Competitions status only, is no status of this module, so it filters nothing |
| MatchesQueries.DefaultQueryKeepsAll | src/Modules/Matches/Application/Queries/GetMatchesQuery.cs:9-17 | the default query keeps every match and its items are the projections of the first min(10, n) of all n matches ordered newest first |

## Left out

- The middleware's fire-and-forget tasks, which update LastUsedAt and log usage, are not awaited in the source. The model leaves out their timing and failures and keeps only the decision they follow.
- HMAC-SHA256, base64 encoding and the cryptographic random generator are not modelled. The hash is a parameter of the key service, and the random bytes and their base64 text come in as inputs.
- Clock reads become a `now` parameter, and new identifiers (`Guid.NewGuid()`) come in as inputs.
- EF Core identity and change tracking are not modelled, and neither is SQL translation, apart from SQL Server's OFFSET ... FETCH rule in `Paging.SqlSkipTake`. Tables are sequences of rows, and `UpdateAsync` on a tracked entity adds nothing beyond the in-place change.
- Database ordering ties and collation are not modelled. The model sorts stably with ordinal comparison.
- src/Modules/Competitions/Infrastructure/CompetitionsDbContext.cs declares only the Leagues and Teams sets. The model puts every table the handlers use into one context value.
- FluentValidation validators are modelled by the messages they return, in rule order. This includes the library's English default messages for NotEmpty and GreaterThan where `WithMessage` replaces only the last validator's message. Localisation and the error-code metadata are not modelled.
- MatchesQueries.ParseStatus: `Enum.TryParse` is modelled for status names in any letter case and for decimal numerals, with surrounding white space trimmed. Comma-separated lists of names and a leading '+' are not covered.
- Text handling is ASCII only. Unicode white space and culture-aware case folding are not modelled.
- Null strings are not modelled. A missing value is `None` where the source allows null.
- Paging.NewPagedList: with a page size of 0, the source converts a floating-point division by zero to `int`, which has no defined value. The model gives `None` there.
- PagedRequest is not part of this model.
- .NET ticks are never negative. For a negative tick count, the model's date formatting uses day 0; .NET has no such value.
- The Competitions match query reads team names through two separate lookups. The model uses one lookup per team id, which gives the same answer for a table with unique ids.
- RateLimiting.Rounds: requests are handled one at a time, each checked and then counted before the next is checked. In the source the check and the increment are separate cache operations, and each increment is a Get followed by a Set, so overlapping requests for one key can both be admitted on the last free slot and one of the increments can be lost. `RateLimiting.OverlappingRequestsOverAdmit` shows this for two requests; longer interleavings are not modelled.
- RateLimiting.RoundsFrom: holds only for requests handled one after another; overlapping requests can be admitted beyond the limit, as for `Rounds`.
- RateLimiting.ExactlyLimitAdmitted: "exactly min(perMinute, perDay) admitted" holds only for requests handled one after another; overlapping requests can be admitted beyond the limit, as for `Rounds`.
- RateLimiting.Incremented: the counters are .NET `int` and would wrap after 2^31 requests in one window. The model counts without bound.
- RateLimiting.Incremented: the windows are not fixed. The code stores each counter again with a new expiry on every increment, so its time-to-live restarts, and the model follows the code rather than a fixed-window reading.
- Repository.ApiKeyRepository.GetAllAsync: the page is taken at the exact offset. src/Modules/ApiKeys/Infrastructure/Repositories/ApiKeyRepository.cs:48 computes `(page - 1) * pageSize` in unchecked `int`, and the query's validator accepts page 21474838 of size 100. On such a page the source's SQL query is rejected (`Paging.OffsetOverflows`), while the model returns the empty page.
- Repository.GetAllSound: holds for the exact offset only, as for `GetAllAsync`.
- MatchQueries.HandleGetMatches: the handler uses the corrected cache key of Findings row 3 (full ticks) and the exact page offset of Findings row 2. As written, src/Modules/Competitions/Application/Matches/Queries/GetMatchesQuery.cs:55 keys by `yyyyMMdd`, so a query on the same day can be served another query's cached page (`MatchQueries.AsWrittenKeyServesAnotherQuerysPage`), and src/Shared/SportsData.Shared/PagedList.cs:26 wraps the offset of page 21474838 of size 100, which the validator accepts, so the SQL query fails instead of answering 200 (`Paging.OffsetOverflows`).
- MatchesQueries.Handle: the page is taken with in-memory `Skip`/`Take` at the exact offset. src/Modules/Matches/Application/Queries/GetMatchesQueryHandler.cs:51 computes the offset in unchecked `int`, and nothing validates the query. So a page number of 0 or less, a page size below 1, or an offset past `Int32.MaxValue` makes the source's SQL query fail (`Paging.SqlSkipTake`), where the model answers 200 with the in-memory result.
- MatchesQueries.HandleIsSlice: the slice is taken at the exact offset, which the source computes only while `(PageNumber - 1) * PageSize` fits in an `int`; see `MatchesQueries.Handle`.
- Startup and dependency-injection wiring, logging, database seeders and migrations are not modelled.
- The cache-aside query handlers that hold no rule of their own (a lookup under a cache key and a mapping to a DTO) are not modelled.
- The ORM join services beyond `MatchService` and `MatchStatsService` are not modelled.
- Both copies of the league-creation command call a `League.Create` overload that src/Modules/Competitions/Domain/League.cs does not declare. They are not modelled.
- src/Modules/Competitions/Application/Teams/CreateTeam/CreateTeamCommand.cs is not modelled; `CompetitionsCommands.HandleCreateTeam` follows Teams/Commands/CreateTeamCommand.cs.
- Handlers whose body returns hard-coded data are not modelled, and neither is the ingestion loop, which only forwards commands.
- The Matches-module query handler reads a match date and a venue, which src/Modules/Matches/Domain/Match.cs does not declare. The model gives its rows those two fields, and the rest of the Matches-module persistence is not part of this model.
- The Competitions command handlers evict cache entries through `IMemoryCache.Remove`. The model uses the cache service's `Remove`, which has the same effect on the key map.

## Findings

| source | as written | input that shows it | evidently intended | confidence | as-written member | corrected member |
|---|---|---|---|---|---|---|
| src/Shared/SportsData.Shared/ValidationBehavior.cs:50-57 | for a `Result<T>` response the failure factory is looked up by the name "Failure" alone, but src/Shared/SportsData.Shared/Result.cs:53-55 declares two public static `Failure` overloads, so the lookup throws `AmbiguousMatchException` | a `Result<int>` request with one validator failing with "Name is required" | the request is answered with `Failure(["Name is required"])`, status 400, without calling the handler | not executed | Validation.GenericFailureThrows | Validation.Handle |
| src/Shared/SportsData.Shared/PagedList.cs:26 | the offset `(pageNumber - 1) * pageSize` is computed in unchecked 32-bit arithmetic; src/Modules/ApiKeys/Infrastructure/Repositories/ApiKeyRepository.cs:48 and src/Modules/Matches/Application/Queries/GetMatchesQueryHandler.cs:51 repeat the same expression | page 21474838 of size 100: the offset wraps to -2147483596, and SQL Server rejects the negative OFFSET, so the request fails with an exception | the offset is 2147483700 and the page is empty | not executed | Paging.OffsetOverflows | Paging.Page |
| src/Modules/Competitions/Application/Matches/Queries/GetMatchesQuery.cs:55 | the cache key writes the dates as `yyyyMMdd`, while the filter compares full instants | a query from midnight and a query from noon of the same day, with a match at 6 a.m.: both get the same key, but the first finds one match and the second none | the key tells apart every pair of queries the filter tells apart | not executed | MatchQueries.AsWrittenKeyServesAnotherQuerysPage | MatchQueries.CacheKeyInjective |
