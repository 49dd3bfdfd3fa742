/** Key minting, hashing and the validation decision. The random source,
    base64 encoding and HMAC-SHA256 are not modelled: key generation takes
    the base64 text as input, and the keyed hash is a function supplied with
    the configuration. */
module KeyService {
  import opened Common
  import R = Results
  import opened ApiKeys

  const KeyPrefix := "sk_live_"
  const KeyLength := 32

  /** Message of the exception Substring(0, 32) throws on a shorter string. */
  const SubstringFailure := "Index and length must refer to a location within the string. (Parameter 'length')"

  /** string.Replace(c, ""): drops every occurrence of c, keeps the rest in order. */
  function RemoveAll(s: string, c: char): (r: string)
    ensures |r| <= |s|
    ensures c !in r
    ensures forall x | x in r :: x in s
    ensures forall x | x in s && x != c :: x in r
    ensures c !in s ==> r == s
    ensures c in s ==> |r| < |s|
    ensures (forall i | 0 <= i < |s| :: s[i] == c) ==> r == []
  {
    if |s| == 0 then []
    else
      var rest := RemoveAll(s[1..], c);
      assert forall x | x in s && x != c && x != s[0] :: x in s[1..];
      if s[0] == c then rest else [s[0]] + rest
  }

  /** The base64 text with '+', '/' and '=' removed. */
  function UrlSafe(base64: string): (r: string)
    ensures '+' !in r && '/' !in r && '=' !in r
    ensures forall x | x in base64 && x != '+' && x != '/' && x != '=' :: x in r
  {
    RemoveAll(RemoveAll(RemoveAll(base64, '+'), '/'), '=')
  }

  /** GenerateApiKeyAsync, given the base64 text of the random bytes. */
  function GenerateApiKey(base64: string): (r: R.Result<string>)
    ensures r.isSuccess <==> |UrlSafe(base64)| >= KeyLength
    ensures r.isSuccess ==>
      r.value.Some? && |r.value.value| == |KeyPrefix| + KeyLength
      && r.value.value[..|KeyPrefix|] == KeyPrefix
      && r.value.value[|KeyPrefix|..] == UrlSafe(base64)[..KeyLength]
      && '+' !in r.value.value[|KeyPrefix|..] && '/' !in r.value.value[|KeyPrefix|..] && '=' !in r.value.value[|KeyPrefix|..]
    ensures !r.isSuccess ==> r == R.Fail("Failed to generate API key: " + SubstringFailure)
  {
    var shaped := UrlSafe(base64);
    if |shaped| < KeyLength then R.Fail("Failed to generate API key: " + SubstringFailure)
    else
      var key := KeyPrefix + shaped[..KeyLength];
      assert key[|KeyPrefix|..] == shaped[..KeyLength];
      assert forall x | x in shaped[..KeyLength] :: x in shaped;
      R.Success(key, R.OkStatus)
  }

  /** A generated key is never blank, so it can always be hashed. */
  lemma GeneratedKeyNotBlank(base64: string)
    requires GenerateApiKey(base64).isSuccess
    ensures !Blank(GenerateApiKey(base64).value.value)
  {
    var key := GenerateApiKey(base64).value.value;
    assert key[0] == 's';
  }

  /** n copies of c. */
  function Repeat(c: char, n: nat): (r: string)
    ensures |r| == n && forall i | 0 <= i < n :: r[i] == c
  {
    if n == 0 then [] else [c] + Repeat(c, n - 1)
  }

  /** Twelve '+' followed by 31 letters and a padding '='. */
  function Pluses(): string { Repeat('+', 12) }
  function Tail(): string { Repeat('A', 31) + "=" }

  /** 32 random bytes give 44 base64 characters; when more than 11 of them are
      '+' or '/' fewer than 32 remain, and generation reports a failure. */
  lemma GenerationCanFail()
    ensures |Pluses() + Tail()| == 44
    ensures !GenerateApiKey(Pluses() + Tail()).isSuccess
  {
    var pluses, tail := Pluses(), Tail();
    TailHasNoPlusOrSlash();
    RemoveAllAppend(pluses, tail, '+');
    assert RemoveAll(pluses + tail, '+') == tail;
    assert UrlSafe(pluses + tail) == RemoveAll(tail, '=');
  }

  lemma TailHasNoPlusOrSlash()
    ensures '+' !in Tail() && '/' !in Tail() && '=' in Tail() && |Tail()| == 32
  {
    var tail := Tail();
    forall i | 0 <= i < |tail| ensures tail[i] != '+' && tail[i] != '/' {
      assert tail[i] == if i < 31 then 'A' else '=';
    }
    assert tail[31] == '=';
  }

  lemma {:induction false} RemoveAllAppend(a: string, b: string, c: char)
    ensures RemoveAll(a + b, c) == RemoveAll(a, c) + RemoveAll(b, c)
  {
    if |a| > 0 {
      assert (a + b)[1..] == a[1..] + b;
      RemoveAllAppend(a[1..], b, c);
    } else {
      assert a + b == b;
    }
  }

  /** The keyed hash: HMAC-SHA256 of the raw key under the secret, as base64. */
  datatype HashConfig = HashConfig(hashSecret: Option<string>, hmac: (string, string) -> string)

  const DefaultSecret := "default-secret-change-in-production"

  /** Configuration "ApiKeys:HashSecret", or the development default. */
  function Secret(cfg: HashConfig): (s: string)
    ensures cfg.hashSecret.None? ==> s == DefaultSecret
    ensures cfg.hashSecret.Some? ==> s == cfg.hashSecret.value
  {
    if cfg.hashSecret.Some? then cfg.hashSecret.value else DefaultSecret
  }

  /** HashApiKey: refuses a blank key, otherwise the keyed hash under the secret. */
  function HashApiKey(cfg: HashConfig, rawKey: string): (r: Fallible<string>)
    ensures r.Throws? <==> Blank(rawKey)
    ensures r.Throws? ==> r.message == "Raw key cannot be empty (Parameter 'rawKey')"
    ensures r.Ok? ==> r.value == cfg.hmac(Secret(cfg), rawKey)
  {
    if Blank(rawKey) then Throws("Raw key cannot be empty (Parameter 'rawKey')")
    else Ok(cfg.hmac(Secret(cfg), rawKey))
  }

  /** The hash depends only on the effective secret and the raw key: two
      configurations with the same secret (one of them possibly unset and
      defaulted) hash every key alike. */
  lemma HashDeterministic(c1: HashConfig, c2: HashConfig, rawKey: string)
    requires Secret(c1) == Secret(c2) && c1.hmac == c2.hmac
    ensures HashApiKey(c1, rawKey) == HashApiKey(c2, rawKey)
  {
  }

  /** The first index whose record has the given hash (FirstOrDefault). */
  function FirstWithHash(rows: seq<ApiKeyRecord>, hash: string): (r: Option<nat>)
    ensures r.Some? ==> r.value < |rows| && rows[r.value].keyHash == hash
    ensures r.Some? ==> forall j | 0 <= j < r.value :: rows[j].keyHash != hash
    ensures r.None? ==> forall j | 0 <= j < |rows| :: rows[j].keyHash != hash
  {
    if |rows| == 0 then None
    else if rows[0].keyHash == hash then Some(0)
    else
      var r := FirstWithHash(rows[1..], hash);
      if r.Some? then Some(r.value + 1) else None
  }

  /** What the repository read gives: the stored keys, or the exception it threw. */
  datatype StoreRead = Available(rows: seq<ApiKeyRecord>) | Unavailable(error: string)

  const KeyRequired := "API key is required"
  const InvalidKey := "Invalid API key"
  const KeyRevoked := "API key has been revoked"
  const KeyNotActive := "API key is not active"
  const KeyExpired := "API key has expired"

  /** ValidateApiKeyAsync. */
  function ValidateApiKey(cfg: HashConfig, store: StoreRead, rawKey: string, now: DateTime): (r: R.Result<ApiKeyRecord>)
    ensures R.WellFormed(r)
    ensures Blank(rawKey) ==> r == R.Fail(KeyRequired)
    ensures !Blank(rawKey) && store.Unavailable? ==> r == R.Fail("Failed to validate API key: " + store.error)
    ensures !Blank(rawKey) && store.Available? ==>
      var found := FirstWithHash(store.rows, cfg.hmac(Secret(cfg), rawKey));
      && (found.None? ==> r == R.Fail(InvalidKey))
      && (found.Some? ==>
            var k := store.rows[found.value];
            && (k.revokedAt.Some? ==> r == R.Fail(KeyRevoked))
            && (k.revokedAt.None? && !k.isActive ==> r == R.Fail(KeyNotActive))
            && (k.revokedAt.None? && k.isActive && IsExpiredAt(k, now) ==> r == R.Fail(KeyExpired))
            && (IsValidAt(k, now) ==> r == R.Success(k, R.OkStatus)))
  {
    if Blank(rawKey) then R.Fail(KeyRequired)
    else
      var keyHash := HashApiKey(cfg, rawKey).value;
      match store
      case Unavailable(error) => R.Fail("Failed to validate API key: " + error)
      case Available(rows) =>
        var found := FirstWithHash(rows, keyHash);
        if found.None? then R.Fail(InvalidKey)
        else
          var k := rows[found.value];
          if !IsValidAt(k, now) then
            if k.revokedAt.Some? then R.Fail(KeyRevoked)
            else if !k.isActive then R.Fail(KeyNotActive)
            else R.Fail(KeyExpired)
          else R.Success(k, R.OkStatus)
  }

  /** Validation succeeds exactly when the first key with the hash exists and is valid now. */
  lemma ValidateSucceedsIffValid(cfg: HashConfig, store: StoreRead, rawKey: string, now: DateTime)
    ensures ValidateApiKey(cfg, store, rawKey, now).isSuccess <==>
      !Blank(rawKey) && store.Available?
      && var found := FirstWithHash(store.rows, cfg.hmac(Secret(cfg), rawKey));
         found.Some? && IsValidAt(store.rows[found.value], now)
  {
  }

  /** A failed validation carries exactly one of the six messages. */
  lemma ValidateFailsWithOneMessage(cfg: HashConfig, store: StoreRead, rawKey: string, now: DateTime)
    requires !ValidateApiKey(cfg, store, rawKey, now).isSuccess
    ensures var errors := ValidateApiKey(cfg, store, rawKey, now).errors;
      |errors| == 1
      && (errors[0] in {KeyRequired, InvalidKey, KeyRevoked, KeyNotActive, KeyExpired}
          || (store.Unavailable? && errors[0] == "Failed to validate API key: " + store.error))
  {
    if !Blank(rawKey) && store.Available? {
      var found := FirstWithHash(store.rows, cfg.hmac(Secret(cfg), rawKey));
      if found.Some? {
        var k := store.rows[found.value];
        assert !IsValidAt(k, now);
      }
    }
  }

  /** A key that was minted and stored validates with its raw text, provided
      no earlier stored key has the same hash and the key is still valid. */
  lemma MintedKeyValidates(cfg: HashConfig, rows: seq<ApiKeyRecord>, base64: string, i: nat, now: DateTime)
    requires GenerateApiKey(base64).isSuccess
    requires var raw := GenerateApiKey(base64).value.value;
      i < |rows| && rows[i].keyHash == cfg.hmac(Secret(cfg), raw)
      && (forall j | 0 <= j < i :: rows[j].keyHash != rows[i].keyHash)
    requires IsValidAt(rows[i], now)
    ensures ValidateApiKey(cfg, Available(rows), GenerateApiKey(base64).value.value, now) == R.Success(rows[i], R.OkStatus)
  {
    var raw := GenerateApiKey(base64).value.value;
    GeneratedKeyNotBlank(base64);
    var found := FirstWithHash(rows, cfg.hmac(Secret(cfg), raw));
    assert found == Some(i);
  }
}
