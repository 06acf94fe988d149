/** The `api_keys` row: validity at a given moment and the display-safe rendering. */
module ApiKeys {
  import opened Wrappers

  /** Timestamps are integers (seconds on one clock); `None` is a NULL column. */
  datatype ApiKey = ApiKey(
    userId: string,
    instanceId: string,
    name: string,
    keyPrefix: string,
    keyHash: string,
    isReadonly: bool,
    isActive: bool,
    rateLimitPerMinute: int,
    lastUsedAt: Option<int>,
    usageCount: int,
    expiresAt: Option<int>,
    createdAt: int,
    revokedAt: Option<int>)

  /** A key as inserted with its declared defaults: active, writable, not revoked,
      60 requests per minute, never used. */
  function NewApiKey(userId: string, instanceId: string, name: string, keyPrefix: string,
                     keyHash: string, expiresAt: Option<int>, now: int): ApiKey
  {
    ApiKey(userId, instanceId, name, keyPrefix, keyHash, false, true, 60, None, 0,
           expiresAt, now, None)
  }

  /** `is_valid` evaluated at time `now`. */
  predicate IsValid(k: ApiKey, now: int)
  {
    if !k.isActive then false
    else if k.revokedAt.Some? then false
    else if k.expiresAt.Some? && k.expiresAt.value < now then false
    else true
  }

  const MaskLength := 32

  /** `display_key`: the stored prefix followed by 32 asterisks. */
  function DisplayKey(k: ApiKey): (r: string)
    ensures |r| == |k.keyPrefix| + MaskLength
    ensures r[..|k.keyPrefix|] == k.keyPrefix
    ensures forall i :: |k.keyPrefix| <= i < |r| ==> r[i] == '*'
  {
    k.keyPrefix + Mask(MaskLength)
  }

  function Mask(n: nat): (r: string)
    ensures |r| == n
    ensures forall i :: 0 <= i < n ==> r[i] == '*'
  {
    if n == 0 then [] else ['*'] + Mask(n - 1)
  }

  /** A deactivated or revoked key is refused at every moment. */
  lemma InactiveOrRevokedNeverValid(k: ApiKey, now: int)
    requires !k.isActive || k.revokedAt.Some?
    ensures !IsValid(k, now)
  {
  }

  /** For an active, unrevoked key, validity is exactly "not yet past its expiry":
      a key expiring at exactly `now` is still accepted. */
  lemma ValidIffNotExpired(k: ApiKey, now: int)
    requires k.isActive && k.revokedAt.None?
    ensures IsValid(k, now) <==> (k.expiresAt.None? || now <= k.expiresAt.value)
  {
  }

  /** Once invalid, a key stays invalid as time goes on. */
  lemma InvalidStaysInvalid(k: ApiKey, t: int, t': int)
    requires t <= t'
    requires !IsValid(k, t)
    ensures !IsValid(k, t')
  {
  }

  /** A freshly created key with no expiry is valid at every moment. */
  lemma NewKeyWithoutExpiryIsValid(userId: string, instanceId: string, name: string,
                                   keyPrefix: string, keyHash: string, created: int, now: int)
    ensures var k := NewApiKey(userId, instanceId, name, keyPrefix, keyHash, None, created);
      && IsValid(k, now) && !k.isReadonly && k.rateLimitPerMinute == 60 && k.usageCount == 0
  {
  }
}
