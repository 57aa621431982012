/**
 * The AWS credential cache of server.js (`cachedAwsCredentials`,
 * `isCredentialExpired`, `getAwsCredentials`): a cached credential is served until
 * two minutes before it expires; then static credentials from the environment are
 * taken, else web-identity credentials from STS, else the call fails.
 */
module AwsCredentials {
  import opened Options

  /** Milliseconds before expiry at which a credential is already treated as expired. */
  const RefreshMarginMs: int := 2 * 60 * 1000

  /**
   * The `expiration` field: absent (static credentials, or an empty value), a
   * time in milliseconds, or text that `new Date` cannot read (`NaN`).
   */
  datatype Expiration = NoExpiration | ExpiresAt(ms: int) | Unparsable

  datatype AwsCredential = AwsCredential(accessKey: string, secretKey: string, token: string, expiration: Expiration)

  /** The environment variables read here; `""` stands for an unset variable. */
  datatype AwsEnv = AwsEnv(accessKeyId: string, secretAccessKey: string, sessionToken: string)

  /**
   * What `fetchWebIdentityCredentials()` would give: `null` when the token file or
   * role is not configured, the credential, or a thrown error.
   */
  datatype WebIdentity = NotConfigured | Fetched(credential: AwsCredential) | FetchFailed

  datatype Outcome = Served(credential: AwsCredential) | Failed

  /** `isCredentialExpired(credential)` at time `now`; comparisons with `NaN` are false. */
  predicate IsExpired(c: AwsCredential, now: int): (r: bool)
    ensures r ==> c.expiration.ExpiresAt?
  {
    match c.expiration
    case NoExpiration => false
    case Unparsable => false
    case ExpiresAt(ms) => now > ms - RefreshMarginMs
  }

  /** One call of `getAwsCredentials()`: its outcome and the cache afterwards. */
  function Resolve(cached: Option<AwsCredential>, now: int, env: AwsEnv, web: WebIdentity): (r: (Outcome, Option<AwsCredential>))
    ensures r.0.Served? ==> r.1 == Some(r.0.credential)
    ensures r.0.Failed? ==> r.1 == cached
  {
    if cached.Some? && !IsExpired(cached.value, now) then (Served(cached.value), cached)
    else if env.accessKeyId != "" && env.secretAccessKey != "" then
      var c := AwsCredential(env.accessKeyId, env.secretAccessKey, env.sessionToken, NoExpiration);
      (Served(c), Some(c))
    else match web
      case Fetched(c) => (Served(c), Some(c))
      case NotConfigured => (Failed, cached)
      case FetchFailed => (Failed, cached)
  }

  /** The module-level cache, `cachedAwsCredentials`. */
  class CredentialCache {
    var cached: Option<AwsCredential>

    constructor()
      ensures cached == None
    {
      cached := None;
    }

    /** `getAwsCredentials()` at time `now`. */
    method Get(now: int, env: AwsEnv, web: WebIdentity) returns (r: Outcome)
      modifies this
      ensures (r, cached) == Resolve(old(cached), now, env, web)
    {
      if cached.Some? && !IsExpired(cached.value, now) {
        return Served(cached.value);
      }
      if env.accessKeyId != "" && env.secretAccessKey != "" {
        cached := Some(AwsCredential(env.accessKeyId, env.secretAccessKey, env.sessionToken, NoExpiration));
        return Served(cached.value);
      }
      match web {
        case Fetched(c) =>
          cached := Some(c);
          r := Served(c);
        case NotConfigured =>
          r := Failed;
        case FetchFailed =>
          r := Failed;
      }
    }
  }

  /** Once expired, a credential stays expired. */
  lemma ExpiryIsMonotone(c: AwsCredential, t: int, t': int)
    requires IsExpired(c, t) && t <= t'
    ensures IsExpired(c, t')
  {
  }

  /** A credential counts as expired exactly from two minutes before its expiry time. */
  lemma ExpiredWithinMargin(c: AwsCredential, now: int)
    requires c.expiration.ExpiresAt?
    ensures IsExpired(c, now) <==> now + RefreshMarginMs > c.expiration.ms
  {
  }

  /** A cached credential that is not expired is served, whatever the environment and STS would give. */
  lemma FreshCacheIsServed(c: AwsCredential, now: int, env: AwsEnv, web: WebIdentity)
    requires !IsExpired(c, now)
    ensures Resolve(Some(c), now, env, web) == (Served(c), Some(c))
  {
  }

  /**
   * Static credentials carry no expiration, so once cached they are served at every
   * later time and never refreshed, even if the environment changes.
   */
  lemma StaticCredentialsStay(env: AwsEnv, cached: Option<AwsCredential>, now: int, web: WebIdentity,
                              later: int, env': AwsEnv, web': WebIdentity)
    requires env.accessKeyId != "" && env.secretAccessKey != ""
    requires cached.None? || IsExpired(cached.value, now)
    ensures var (r, c) := Resolve(cached, now, env, web);
      && r == Served(AwsCredential(env.accessKeyId, env.secretAccessKey, env.sessionToken, NoExpiration))
      && Resolve(c, later, env', web') == (r, c)
  {
  }

  /** On a cache miss without static credentials, the STS credential is served and cached as it is. */
  lemma WebIdentityOnMiss(cached: Option<AwsCredential>, now: int, env: AwsEnv, c: AwsCredential)
    requires cached.None? || IsExpired(cached.value, now)
    requires env.accessKeyId == "" || env.secretAccessKey == ""
    ensures Resolve(cached, now, env, Fetched(c)) == (Served(c), Some(c))
  {
  }

  /** On a cache miss the environment's static credentials win over web identity. */
  lemma EnvironmentBeforeWebIdentity(cached: Option<AwsCredential>, now: int, env: AwsEnv, web: WebIdentity, web': WebIdentity)
    requires cached.None? || IsExpired(cached.value, now)
    requires env.accessKeyId != "" && env.secretAccessKey != ""
    ensures Resolve(cached, now, env, web) == Resolve(cached, now, env, web')
  {
  }

  /** Only a cache miss with no static credentials and no web-identity credential fails. */
  lemma FailsExactly(cached: Option<AwsCredential>, now: int, env: AwsEnv, web: WebIdentity)
    ensures Resolve(cached, now, env, web).0.Failed? <==>
      (cached.None? || IsExpired(cached.value, now))
      && (env.accessKeyId == "" || env.secretAccessKey == "")
      && !web.Fetched?
  {
  }

  /**
   * A fresh cache, then two calls: the first takes the STS credential, the second
   * is served from the cache while it is fresh, even though STS would now fail.
   */
  method TwoCalls(now: int, later: int, env: AwsEnv, c: AwsCredential) returns (first: Outcome, second: Outcome)
    requires env.accessKeyId == "" || env.secretAccessKey == ""
    requires now <= later && !IsExpired(c, later)
    ensures first == Served(c) && second == Served(c)
  {
    var cache := new CredentialCache();
    first := cache.Get(now, env, Fetched(c));
    second := cache.Get(later, env, FetchFailed);
  }
}
