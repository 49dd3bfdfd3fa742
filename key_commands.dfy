/** The administrative key commands: create, rotate and revoke, with their
    validators. Each handler works on one repository (one database
    context); the base64 text of the random bytes and the id the new entity
    receives are inputs. */
module KeyCommands {
  import opened Common
  import R = Results
  import opened ApiKeys
  import KeyService
  import Repository

  /** GetDefaultRateLimitPerMinute: unknown plan values get the Free limit. */
  function DefaultRateLimitPerMinute(plan: Plan): (r: int)
    ensures r > 0
    ensures !IsDefinedPlan(plan) ==> r == 30
  {
    if plan == Pro then 300 else if plan == Enterprise then 1000 else 30
  }

  /** GetDefaultRateLimitPerDay: unknown plan values get the Free limit. */
  function DefaultRateLimitPerDay(plan: Plan): (r: int)
    ensures r > 0
    ensures !IsDefinedPlan(plan) ==> r == 1000
  {
    if plan == Pro then 50000 else if plan == Enterprise then 1000000 else 1000
  }

  /** A higher plan never gets a lower default, and every plan's day
      allowance exceeds its minute allowance. */
  lemma DefaultsGrowWithPlan(p: Plan, q: Plan)
    requires IsDefinedPlan(p) && IsDefinedPlan(q) && p < q
    ensures DefaultRateLimitPerMinute(p) < DefaultRateLimitPerMinute(q)
    ensures DefaultRateLimitPerDay(p) < DefaultRateLimitPerDay(q)
    ensures DefaultRateLimitPerMinute(p) < DefaultRateLimitPerDay(p)
  {
  }

  datatype CreateApiKeyCommand = CreateApiKeyCommand(
    name: string,
    ownerId: Guid,
    plan: Plan,
    rateLimitPerMinute: Option<int>,
    rateLimitPerDay: Option<int>,
    expiresAt: Option<DateTime>)

  /** A validation rule's contribution: its message when it fails. */
  function Rule(failed: bool, message: string): (errors: seq<string>)
    ensures |errors| == if failed then 1 else 0
  {
    if failed then [message] else []
  }

  /** CreateApiKeyCommandValidator: the messages of the failing rules, in
      rule order (every rule runs). */
  function CreateValidationFailures(c: CreateApiKeyCommand, now: DateTime): (errors: seq<string>)
    ensures |errors| == 0 <==>
      && !Blank(c.name) && |c.name| <= 100 && c.ownerId != EmptyGuid && IsDefinedPlan(c.plan)
      && (c.rateLimitPerMinute.Some? ==> c.rateLimitPerMinute.value > 0)
      && (c.rateLimitPerDay.Some? ==> c.rateLimitPerDay.value > 0)
      && (c.expiresAt.Some? ==> c.expiresAt.value > now)
    ensures Blank(c.name) ==> |errors| > 0 && errors[0] == "Name is required"
  {
    Rule(Blank(c.name), "Name is required")
    + (Rule(|c.name| > 100, "Name cannot exceed 100 characters")
    + (Rule(c.ownerId == EmptyGuid, "Owner ID is required")
    + (Rule(!IsDefinedPlan(c.plan), "Invalid plan")
    + (Rule(c.rateLimitPerMinute.Some? && c.rateLimitPerMinute.value <= 0, "Rate limit per minute must be positive")
    + (Rule(c.rateLimitPerDay.Some? && c.rateLimitPerDay.value <= 0, "Rate limit per day must be positive")
    + Rule(c.expiresAt.Some? && c.expiresAt.value <= now, "Expiration date must be in the future"))))))
  }

  /** The limit the handler uses: the command's, or the plan default. */
  function PerMinuteFor(c: CreateApiKeyCommand): int {
    if c.rateLimitPerMinute.Some? then c.rateLimitPerMinute.value else DefaultRateLimitPerMinute(c.plan)
  }

  function PerDayFor(c: CreateApiKeyCommand): int {
    if c.rateLimitPerDay.Some? then c.rateLimitPerDay.value else DefaultRateLimitPerDay(c.plan)
  }

  /** RotateApiKeyCommandValidator and RevokeApiKeyCommandValidator. */
  function IdValidationFailures(id: Guid): (errors: seq<string>)
    ensures errors == [] <==> id != EmptyGuid
  {
    if id == EmptyGuid then ["API Key ID is required"] else []
  }

  /** What generating, hashing and ApiKey.Create give together. */
  datatype Minting =
    | GenerationFailed(errors: seq<string>)
    | Rejected(message: string)
    | Minted(key: ApiKeyRecord, rawKey: string)

  /** The shared core of the create and rotate handlers. */
  function Mint(cfg: KeyService.HashConfig, base64: string, id: Guid, name: string, ownerId: Guid, plan: Plan,
                perMinute: int, perDay: int, expiresAt: Option<DateTime>, now: DateTime): (m: Minting)
    ensures m.GenerationFailed? <==> !KeyService.GenerateApiKey(base64).isSuccess
    ensures m.GenerationFailed? ==> m.errors == KeyService.GenerateApiKey(base64).errors
    ensures m.Rejected? ==>
      CreateRejection(cfg.hmac(KeyService.Secret(cfg), KeyService.GenerateApiKey(base64).value.value),
                      name, ownerId, perMinute, perDay, expiresAt, now) == Some(m.message)
    ensures m.Minted? ==>
      && m.rawKey == KeyService.GenerateApiKey(base64).value.value
      && KeyService.HashApiKey(cfg, m.rawKey) == Ok(m.key.keyHash)
      && m.key == Created(id, m.key.keyHash, name, ownerId, plan, perMinute, perDay, expiresAt, now)
      && Consistent(m.key) && IsValidAt(m.key, now)
  {
    var generated := KeyService.GenerateApiKey(base64);
    if !generated.isSuccess then GenerationFailed(generated.errors)
    else
      var raw := generated.value.value;
      KeyService.GeneratedKeyNotBlank(base64);
      var hash := KeyService.HashApiKey(cfg, raw).value;
      var rejection := CreateRejection(hash, name, ownerId, perMinute, perDay, expiresAt, now);
      if rejection.Some? then Rejected(rejection.value)
      else
        CreatedKeyIsValid(id, hash, name, ownerId, plan, perMinute, perDay, expiresAt, now);
        Minted(Created(id, hash, name, ownerId, plan, perMinute, perDay, expiresAt, now), raw)
  }

  /** A command the validator accepts never makes ApiKey.Create throw, as long
      as the keyed hash is not blank. */
  lemma ValidatedCommandIsNotRejected(cfg: KeyService.HashConfig, c: CreateApiKeyCommand, base64: string, id: Guid,
                                      now: DateTime)
    requires CreateValidationFailures(c, now) == []
    requires KeyService.GenerateApiKey(base64).isSuccess
    requires !Blank(cfg.hmac(KeyService.Secret(cfg), KeyService.GenerateApiKey(base64).value.value))
    ensures Mint(cfg, base64, id, c.name, c.ownerId, c.plan, PerMinuteFor(c), PerDayFor(c), c.expiresAt, now).Minted?
  {
  }

  /** A minted key, once it is the first row with its hash, validates with the
      raw key the handler returns. */
  lemma MintedKeyAuthenticates(cfg: KeyService.HashConfig, m: Minting, base64: string, rows: seq<ApiKeyRecord>,
                               i: nat, now: DateTime)
    requires KeyService.GenerateApiKey(base64).isSuccess && m.Minted?
    requires m.rawKey == KeyService.GenerateApiKey(base64).value.value
    requires KeyService.HashApiKey(cfg, m.rawKey) == Ok(m.key.keyHash) && IsValidAt(m.key, now)
    requires i < |rows| && rows[i] == m.key
    requires forall j | 0 <= j < i :: rows[j].keyHash != m.key.keyHash
    ensures KeyService.ValidateApiKey(cfg, KeyService.Available(rows), m.rawKey, now) == R.Success(m.key, R.OkStatus)
  {
    KeyService.MintedKeyValidates(cfg, rows, base64, i, now);
  }

  datatype CreateApiKeyResponse = CreateApiKeyResponse(
    id: Guid,
    rawKey: string,
    name: string,
    plan: Plan,
    rateLimitPerMinute: int,
    rateLimitPerDay: int,
    createdAt: DateTime,
    expiresAt: Option<DateTime>)

  /** The response echoes the stored key and carries the raw key. */
  function ResponseFor(k: ApiKeyRecord, rawKey: string): (r: CreateApiKeyResponse)
    ensures r.id == k.id && r.rawKey == rawKey && r.name == k.name && r.plan == k.plan
    ensures r.rateLimitPerMinute == k.rateLimitPerMinute && r.rateLimitPerDay == k.rateLimitPerDay
    ensures r.createdAt == k.createdAt && r.expiresAt == k.expiresAt
  {
    CreateApiKeyResponse(k.id, rawKey, k.name, k.plan, k.rateLimitPerMinute, k.rateLimitPerDay, k.createdAt, k.expiresAt)
  }

  const KeyNotFound := "API key not found"

  /** The rotation a key's current values lead to: a copy of its settings
      under a new hash, created now. */
  function RotationOf(cfg: KeyService.HashConfig, base64: string, newId: Guid, k: ApiKeyRecord, now: DateTime): Minting {
    Mint(cfg, base64, newId, k.name, k.ownerId, k.plan, k.rateLimitPerMinute, k.rateLimitPerDay, k.expiresAt, now)
  }

  /** Rotating an expired key always fails in ApiKey.Create; a successful
      rotation copies every setting of the old key except the hash, and the
      copy is active and unrevoked even when the old key was not. */
  lemma RotationCopiesSettings(cfg: KeyService.HashConfig, base64: string, newId: Guid, k: ApiKeyRecord, now: DateTime)
    ensures KeyService.GenerateApiKey(base64).isSuccess && IsExpiredAt(k, now) ==>
      RotationOf(cfg, base64, newId, k, now).Rejected?
    ensures var m := RotationOf(cfg, base64, newId, k, now);
      m.Minted? ==>
        && m.key.name == k.name && m.key.ownerId == k.ownerId && m.key.plan == k.plan
        && m.key.rateLimitPerMinute == k.rateLimitPerMinute && m.key.rateLimitPerDay == k.rateLimitPerDay
        && m.key.expiresAt == k.expiresAt && m.key.isActive && m.key.revokedAt.None? && m.key.id == newId
  {
  }

  /** Revoking the key a raw key finds makes that raw key fail validation with
      the revoked message, at any later time. */
  lemma RevokedKeyRejected(cfg: KeyService.HashConfig, rows: seq<ApiKeyRecord>, rawKey: string, t: DateTime,
                           now: DateTime)
    requires !Blank(rawKey)
    requires KeyService.FirstWithHash(rows, cfg.hmac(KeyService.Secret(cfg), rawKey)).Some?
    ensures var i := KeyService.FirstWithHash(rows, cfg.hmac(KeyService.Secret(cfg), rawKey)).value;
      KeyService.ValidateApiKey(cfg, KeyService.Available(rows[i := Revoked(rows[i], t)]), rawKey, now)
        == R.Fail(KeyService.KeyRevoked)
  {
    var hash := cfg.hmac(KeyService.Secret(cfg), rawKey);
    var i := KeyService.FirstWithHash(rows, hash).value;
    var after := rows[i := Revoked(rows[i], t)];
    assert KeyService.FirstWithHash(after, hash) == Some(i) by {
      FirstWithHashSameHashes(rows, after, hash);
    }
  }

  lemma {:induction false} FirstWithHashSameHashes(a: seq<ApiKeyRecord>, b: seq<ApiKeyRecord>, hash: string)
    requires |a| == |b| && forall j | 0 <= j < |a| :: a[j].keyHash == b[j].keyHash
    ensures KeyService.FirstWithHash(a, hash) == KeyService.FirstWithHash(b, hash)
  {
    if |a| > 0 {
      FirstWithHashSameHashes(a[1..], b[1..], hash);
    }
  }

  /** Generate, hash, ApiKey.Create, AddAsync and SaveChangesAsync: the steps
      the create and rotate handlers share. Ok(r) is the returned result,
      Throws the exception ApiKey.Create lets escape. */
  method MintAndSave(repo: Repository.ApiKeyRepository, cfg: KeyService.HashConfig, base64: string, id: Guid,
                     name: string, ownerId: Guid, plan: Plan, perMinute: int, perDay: int,
                     expiresAt: Option<DateTime>, now: DateTime)
    returns (r: Fallible<R.Result<CreateApiKeyResponse>>)
    requires repo.Valid()
    modifies repo
    ensures repo.Valid()
    ensures var m := Mint(cfg, base64, id, name, ownerId, plan, perMinute, perDay, expiresAt, now);
      && r == Returned(m)
      && |repo.keys| == |old(repo.keys)| + |NewRows(m)| && repo.keys[..|old(repo.keys)|] == old(repo.keys)
      && (forall k | k in repo.keys[|old(repo.keys)|..] :: fresh(k))
      && repo.Rows() == old(repo.Rows()) + NewRows(m)
      && repo.saved == if m.Minted? then repo.Rows() else old(repo.saved)
  {
    ghost var m := Mint(cfg, base64, id, name, ownerId, plan, perMinute, perDay, expiresAt, now);
    var apiKey;
    r, apiKey := MintKey(cfg, base64, id, name, ownerId, plan, perMinute, perDay, expiresAt, now);
    if apiKey.Some? {
      AddAndSave(repo, apiKey.value);
    }
  }

  /** AddAsync then SaveChangesAsync: the key is appended and the table
      becomes the tracked rows. */
  method AddAndSave(repo: Repository.ApiKeyRepository, apiKey: ApiKey)
    requires repo.Valid() && apiKey.Valid() && apiKey !in repo.keys
    modifies repo
    ensures repo.Valid()
    ensures repo.keys == old(repo.keys) + [apiKey]
    ensures repo.Rows() == old(repo.Rows()) + [apiKey.Snapshot()] && repo.saved == repo.Rows()
  {
    repo.AddAsync(apiKey);
    ghost var rows := repo.Rows();
    repo.SaveChangesAsync();
    assert repo.Rows() == rows;
  }

  /** What the create and rotate handlers return for each outcome of
      minting: the generator's errors, the exception ApiKey.Create throws, or
      the response with the raw key. */
  function Returned(m: Minting): Fallible<R.Result<CreateApiKeyResponse>> {
    match m
    case GenerationFailed(errors) => Ok(R.Failure(Some(errors)))
    case Rejected(message) => Throws(message)
    case Minted(key, rawKey) => Ok(R.Success(ResponseFor(key, rawKey), R.OkStatus))
  }

  /** The rows minting adds to the table: the new key, or none. */
  function NewRows(m: Minting): seq<ApiKeyRecord> {
    if m.Minted? then [m.key] else []
  }

  /** Generate, hash and ApiKey.Create: the new key object when every step
      succeeds, and the result the handler returns. */
  method MintKey(cfg: KeyService.HashConfig, base64: string, id: Guid, name: string, ownerId: Guid, plan: Plan,
                 perMinute: int, perDay: int, expiresAt: Option<DateTime>, now: DateTime)
    returns (r: Fallible<R.Result<CreateApiKeyResponse>>, apiKey: Option<ApiKey>)
    ensures var m := Mint(cfg, base64, id, name, ownerId, plan, perMinute, perDay, expiresAt, now);
      && r == Returned(m) && (apiKey.Some? <==> m.Minted?)
      && (m.Minted? ==> fresh(apiKey.value) && apiKey.value.Valid() && apiKey.value.Snapshot() == m.key)
  {
    ghost var m := Mint(cfg, base64, id, name, ownerId, plan, perMinute, perDay, expiresAt, now);
    var generated := KeyService.GenerateApiKey(base64);
    if !generated.isSuccess {
      return Ok(R.Failure(Some(generated.errors))), None;
    }
    var rawKey := generated.value.value;
    KeyService.GeneratedKeyNotBlank(base64);
    var keyHash := KeyService.HashApiKey(cfg, rawKey).value;
    var created := ApiKey.Create(id, keyHash, name, ownerId, plan, perMinute, perDay, expiresAt, now);
    if created.Throws? {
      assert m == Rejected(created.message);
      return Throws(created.message), None;
    }
    assert m == Minted(created.value.Snapshot(), rawKey);
    return Ok(R.Success(ResponseFor(created.value.Snapshot(), rawKey), R.OkStatus)), Some(created.value);
  }

  /** CreateApiKeyCommandHandler.Handle: the command's limits, or the plan
      defaults, go to ApiKey.Create. */
  method HandleCreate(repo: Repository.ApiKeyRepository, cfg: KeyService.HashConfig, request: CreateApiKeyCommand,
                      base64: string, newId: Guid, now: DateTime)
    returns (r: Fallible<R.Result<CreateApiKeyResponse>>)
    requires repo.Valid()
    modifies repo
    ensures repo.Valid()
    ensures var m := Mint(cfg, base64, newId, request.name, request.ownerId, request.plan, PerMinuteFor(request),
                          PerDayFor(request), request.expiresAt, now);
      && r == Returned(m)
      && |repo.keys| == |old(repo.keys)| + |NewRows(m)| && repo.keys[..|old(repo.keys)|] == old(repo.keys)
      && (forall k | k in repo.keys[|old(repo.keys)|..] :: fresh(k))
      && repo.Rows() == old(repo.Rows()) + NewRows(m)
      && repo.saved == if m.Minted? then repo.Rows() else old(repo.saved)
  {
    var perMinute := PerMinuteFor(request);
    var perDay := PerDayFor(request);
    r := MintAndSave(repo, cfg, base64, newId, request.name, request.ownerId, request.plan, perMinute, perDay,
                     request.expiresAt, now);
  }

  /** RevokeApiKeyCommandHandler.Handle. */
  method HandleRevoke(repo: Repository.ApiKeyRepository, id: Guid, now: DateTime) returns (r: R.Result<bool>)
    requires repo.Valid()
    modifies repo, repo.keys
    ensures repo.Valid() && repo.keys == old(repo.keys)
    ensures var rows := old(repo.Rows());
      var found := Repository.FirstWithId(rows, id);
      && (found.None? ==> r == R.Fail(KeyNotFound) && repo.Rows() == rows && repo.saved == old(repo.saved))
      && (found.Some? ==>
            && r == R.Success(true, R.OkStatus)
            && repo.Rows() == rows[found.value := Revoked(rows[found.value], now)]
            && repo.saved == repo.Rows())
  {
    ghost var rows := repo.Rows();
    var apiKey := repo.GetByIdAsync(id);
    if apiKey.None? {
      return R.Fail(KeyNotFound);
    }
    ghost var i := Repository.FirstWithId(rows, id).value;
    assert apiKey.value == repo.keys[i];
    RevokeOne(repo, apiKey.value, i, now);
    assert repo.Rows() == rows[i := Revoked(rows[i], now)];
    repo.SaveChangesAsync();
    assert repo.Rows() == rows[i := Revoked(rows[i], now)];
    return R.Success(true, R.OkStatus);
  }

  /** Revoke on one tracked key: its row becomes revoked, every other row
      keeps its values. */
  method RevokeOne(repo: Repository.ApiKeyRepository, apiKey: ApiKey, ghost i: nat, now: DateTime)
    requires repo.Valid() && i < |repo.keys| && repo.keys[i] == apiKey
    modifies apiKey
    ensures repo.Valid()
    ensures repo.Rows() == old(repo.Rows())[i := Revoked(old(repo.Rows())[i], now)]
  {
    ghost var rows := repo.Rows();
    apiKey.Revoke(now);
    forall j | 0 <= j < |repo.keys| && j != i ensures repo.keys[j].Snapshot() == rows[j] {
      assert repo.keys[j] != apiKey;
    }
    assert repo.Rows() == rows[i := Revoked(rows[i], now)];
  }

  /** RotateApiKeyCommandHandler.Handle: the old key is revoked in memory
      first; only a successful mint is saved, together with that revoke. */
  method HandleRotate(repo: Repository.ApiKeyRepository, cfg: KeyService.HashConfig, id: Guid, base64: string,
                      newId: Guid, now: DateTime)
    returns (r: Fallible<R.Result<CreateApiKeyResponse>>)
    requires repo.Valid()
    modifies repo, repo.keys
    ensures repo.Valid()
    ensures var rows := old(repo.Rows());
      var found := Repository.FirstWithId(rows, id);
      && (found.None? ==>
            r == Ok(R.Fail(KeyNotFound)) && repo.keys == old(repo.keys) && repo.Rows() == rows
            && repo.saved == old(repo.saved))
      && (found.Some? ==>
            var revoked := rows[found.value := Revoked(rows[found.value], now)];
            var m := RotationOf(cfg, base64, newId, rows[found.value], now);
            && r == Returned(m)
            && repo.Rows() == revoked + NewRows(m)
            && repo.saved == if m.Minted? then repo.Rows() else old(repo.saved))
  {
    ghost var rows := repo.Rows();
    var oldKey := repo.GetByIdAsync(id);
    if oldKey.None? {
      return Ok(R.Fail(KeyNotFound));
    }
    r := RotateKey(repo, cfg, oldKey.value, Repository.FirstWithId(rows, id).value, base64, newId, now);
  }

  /** The rotation of the key found at position i: revoke it, then mint and
      save its copy. */
  method RotateKey(repo: Repository.ApiKeyRepository, cfg: KeyService.HashConfig, previous: ApiKey, ghost i: nat,
                   base64: string, newId: Guid, now: DateTime)
    returns (r: Fallible<R.Result<CreateApiKeyResponse>>)
    requires repo.Valid() && i < |repo.keys| && repo.keys[i] == previous
    modifies repo, repo.keys
    ensures repo.Valid()
    ensures var rows := old(repo.Rows());
      var m := RotationOf(cfg, base64, newId, rows[i], now);
      && r == Returned(m)
      && repo.Rows() == rows[i := Revoked(rows[i], now)] + NewRows(m)
      && repo.saved == if m.Minted? then repo.Rows() else old(repo.saved)
  {
    var name, ownerId, plan := previous.name, previous.ownerId, previous.plan;
    var perMinute, perDay, expiresAt := previous.rateLimitPerMinute, previous.rateLimitPerDay, previous.expiresAt;
    assert previous.Snapshot() == repo.Rows()[i];
    RevokeOne(repo, previous, i, now);
    r := MintAndSave(repo, cfg, base64, newId, name, ownerId, plan, perMinute, perDay, expiresAt, now);
  }
}
