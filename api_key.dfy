/** The API key entity: a hashed secret with an owner, a plan, two rate
    limits and a lifecycle (active, deactivated, revoked, expired). The
    fields the source never changes after construction are `const`; the
    three that its methods change in place are `var`. */
module ApiKeys {
  import opened Common

  /** ApiKeyPlan, as its underlying integer. */
  type Plan = int
  const Free: Plan := 0
  const Pro: Plan := 1
  const Enterprise: Plan := 2

  predicate IsDefinedPlan(p: Plan) {
    p == Free || p == Pro || p == Enterprise
  }

  /** The values of an ApiKey's properties at one moment. */
  datatype ApiKeyRecord = ApiKeyRecord(
    id: Guid,
    keyHash: string,
    name: string,
    ownerId: Guid,
    plan: Plan,
    isActive: bool,
    rateLimitPerMinute: int,
    rateLimitPerDay: int,
    createdAt: DateTime,
    expiresAt: Option<DateTime>,
    lastUsedAt: Option<DateTime>,
    revokedAt: Option<DateTime>)

  predicate IsExpiredAt(k: ApiKeyRecord, now: DateTime) {
    k.expiresAt.Some? && k.expiresAt.value <= now
  }

  /** What every key satisfies from creation on: a revoked key is never
      active, and both limits are positive. */
  predicate Consistent(k: ApiKeyRecord) {
    (k.revokedAt.Some? ==> !k.isActive) && k.rateLimitPerMinute > 0 && k.rateLimitPerDay > 0
  }

  /** IsValid(): the three early returns, in source order. */
  function IsValidAt(k: ApiKeyRecord, now: DateTime): (b: bool)
    ensures b <==> k.isActive && k.revokedAt.None? && !IsExpiredAt(k, now)
  {
    if !k.isActive then false
    else if k.revokedAt.Some? then false
    else if k.expiresAt.Some? && k.expiresAt.value <= now then false
    else true
  }

  /** The first guard of Create that fails, as the thrown ArgumentException's
      Message; None when every guard passes. */
  function CreateRejection(keyHash: string, name: string, ownerId: Guid, perMinute: int, perDay: int,
                           expiresAt: Option<DateTime>, now: DateTime): (e: Option<string>)
    ensures e.None? <==>
      !Blank(keyHash) && !Blank(name) && ownerId != EmptyGuid && perMinute > 0 && perDay > 0
      && !(expiresAt.Some? && expiresAt.value <= now)
    ensures Blank(keyHash) ==> e == Some("Key hash cannot be empty (Parameter 'keyHash')")
    ensures !Blank(keyHash) && Blank(name) ==> e == Some("Name cannot be empty (Parameter 'name')")
  {
    if Blank(keyHash) then Some("Key hash cannot be empty (Parameter 'keyHash')")
    else if Blank(name) then Some("Name cannot be empty (Parameter 'name')")
    else if ownerId == EmptyGuid then Some("Owner ID cannot be empty (Parameter 'ownerId')")
    else if perMinute <= 0 then Some("Rate limit per minute must be positive (Parameter 'rateLimitPerMinute')")
    else if perDay <= 0 then Some("Rate limit per day must be positive (Parameter 'rateLimitPerDay')")
    else if expiresAt.Some? && expiresAt.value <= now then Some("Expiration date must be in the future (Parameter 'expiresAt')")
    else None
  }

  /** The record the private constructor builds: active, created now, never used or revoked. */
  function Created(id: Guid, keyHash: string, name: string, ownerId: Guid, plan: Plan, perMinute: int, perDay: int,
                   expiresAt: Option<DateTime>, now: DateTime): ApiKeyRecord
  {
    ApiKeyRecord(id, keyHash, name, ownerId, plan, true, perMinute, perDay, now, expiresAt, None, None)
  }

  /** A key that Create accepts is consistent and valid when created. */
  lemma CreatedKeyIsValid(id: Guid, keyHash: string, name: string, ownerId: Guid, plan: Plan, perMinute: int, perDay: int,
                          expiresAt: Option<DateTime>, now: DateTime)
    requires CreateRejection(keyHash, name, ownerId, perMinute, perDay, expiresAt, now).None?
    ensures var k := Created(id, keyHash, name, ownerId, plan, perMinute, perDay, expiresAt, now);
            Consistent(k) && IsValidAt(k, now) && k.isActive && k.revokedAt.None? && k.lastUsedAt.None?
  {
  }

  // The effect of each mutator on the record.

  function Revoked(k: ApiKeyRecord, now: DateTime): ApiKeyRecord {
    k.(revokedAt := Some(now), isActive := false)
  }

  function Deactivated(k: ApiKeyRecord): ApiKeyRecord {
    k.(isActive := false)
  }

  function LastUsed(k: ApiKeyRecord, now: DateTime): ApiKeyRecord {
    k.(lastUsedAt := Some(now))
  }

  /** Activate: refused for a revoked key, otherwise sets IsActive. */
  function Activated(k: ApiKeyRecord): (r: Fallible<ApiKeyRecord>)
    ensures k.revokedAt.Some? <==> r.Throws?
    ensures r.Throws? ==> r.message == "Cannot activate a revoked key"
    ensures r.Ok? ==> r.value.isActive && r.value.(isActive := k.isActive) == k
  {
    if k.revokedAt.Some? then Throws("Cannot activate a revoked key") else Ok(k.(isActive := true))
  }

  /** A revoked key is never valid again, whatever the clock says or which
      other mutators run afterwards: nothing clears RevokedAt. */
  lemma RevokedNeverValid(k: ApiKeyRecord, t: DateTime, later: DateTime, now: DateTime)
    ensures !IsValidAt(Revoked(k, t), now)
    ensures !IsValidAt(LastUsed(Revoked(k, t), later), now)
    ensures Activated(Revoked(k, t)).Throws?
    ensures Deactivated(Revoked(k, t)).revokedAt == Some(t)
  {
  }

  /** Revoking twice keeps the key revoked and overwrites RevokedAt. */
  lemma RevokeTwice(k: ApiKeyRecord, t1: DateTime, t2: DateTime)
    ensures Revoked(Revoked(k, t1), t2) == Revoked(k, t2)
  {
  }

  /** Every mutator keeps a key consistent, and none changes the limits. */
  lemma MutatorsKeepConsistent(k: ApiKeyRecord, now: DateTime)
    requires Consistent(k)
    ensures Consistent(Revoked(k, now)) && Consistent(Deactivated(k)) && Consistent(LastUsed(k, now))
    ensures Activated(k).Ok? ==> Consistent(Activated(k).value)
    ensures Revoked(k, now).rateLimitPerMinute == k.rateLimitPerMinute && Revoked(k, now).rateLimitPerDay == k.rateLimitPerDay
  {
  }

  /** Recording use never changes whether the key is valid. */
  lemma LastUsedKeepsValidity(k: ApiKeyRecord, t: DateTime, now: DateTime)
    ensures IsValidAt(LastUsed(k, t), now) == IsValidAt(k, now)
  {
  }

  class ApiKey {
    const id: Guid
    const keyHash: string
    const name: string
    const ownerId: Guid
    const plan: Plan
    const rateLimitPerMinute: int
    const rateLimitPerDay: int
    const createdAt: DateTime
    const expiresAt: Option<DateTime>
    var isActive: bool
    var lastUsedAt: Option<DateTime>
    var revokedAt: Option<DateTime>

    function Snapshot(): (k: ApiKeyRecord)
      reads this
      ensures k.id == id && k.keyHash == keyHash && k.isActive == isActive && k.revokedAt == revokedAt
    {
      ApiKeyRecord(id, keyHash, name, ownerId, plan, isActive, rateLimitPerMinute, rateLimitPerDay,
                   createdAt, expiresAt, lastUsedAt, revokedAt)
    }

    predicate Valid()
      reads this
    {
      Consistent(Snapshot())
    }

    /** The private constructor. */
    constructor (id: Guid, keyHash: string, name: string, ownerId: Guid, plan: Plan, perMinute: int, perDay: int,
                 expiresAt: Option<DateTime>, now: DateTime)
      ensures Snapshot() == Created(id, keyHash, name, ownerId, plan, perMinute, perDay, expiresAt, now)
    {
      this.id := id;
      this.keyHash := keyHash;
      this.name := name;
      this.ownerId := ownerId;
      this.plan := plan;
      this.isActive := true;
      this.rateLimitPerMinute := perMinute;
      this.rateLimitPerDay := perDay;
      this.createdAt := now;
      this.expiresAt := expiresAt;
      this.lastUsedAt := None;
      this.revokedAt := None;
    }

    /** ApiKey.Create: the guards in order, then the private constructor. */
    static method Create(id: Guid, keyHash: string, name: string, ownerId: Guid, plan: Plan, perMinute: int, perDay: int,
                         expiresAt: Option<DateTime>, now: DateTime) returns (r: Fallible<ApiKey>)
      ensures var rejection := CreateRejection(keyHash, name, ownerId, perMinute, perDay, expiresAt, now);
              (rejection.Some? ==> r == Throws(rejection.value)) && (rejection.None? ==> r.Ok?)
      ensures r.Ok? ==> fresh(r.value) && r.value.Valid()
                        && r.value.Snapshot() == Created(id, keyHash, name, ownerId, plan, perMinute, perDay, expiresAt, now)
    {
      var rejection := CreateRejection(keyHash, name, ownerId, perMinute, perDay, expiresAt, now);
      if rejection.Some? {
        return Throws(rejection.value);
      }
      var k := new ApiKey(id, keyHash, name, ownerId, plan, perMinute, perDay, expiresAt, now);
      return Ok(k);
    }

    method Revoke(now: DateTime)
      requires Valid()
      modifies this
      ensures Valid()
      ensures Snapshot() == Revoked(old(Snapshot()), now)
    {
      revokedAt := Some(now);
      isActive := false;
    }

    method Activate() returns (r: Fallible<()>)
      requires Valid()
      modifies this
      ensures Valid()
      ensures old(revokedAt).Some? ==> r == Throws("Cannot activate a revoked key") && Snapshot() == old(Snapshot())
      ensures old(revokedAt).None? ==> r == Ok(()) && Snapshot() == Activated(old(Snapshot())).value
    {
      if revokedAt.Some? {
        return Throws("Cannot activate a revoked key");
      }
      isActive := true;
      return Ok(());
    }

    method Deactivate()
      requires Valid()
      modifies this
      ensures Valid()
      ensures Snapshot() == Deactivated(old(Snapshot()))
    {
      isActive := false;
    }

    method UpdateLastUsed(now: DateTime)
      requires Valid()
      modifies this
      ensures Valid()
      ensures Snapshot() == LastUsed(old(Snapshot()), now)
    {
      lastUsedAt := Some(now);
    }
  }
}
