/** Application settings: the DEBUG/production validator, secret lookup with its
    development fallback, fill-only-if-missing secret loading, environment gating and the
    database URL. Environment variables and Secret Manager are passed in as maps. */
module Config {
  import opened Wrappers
  import opened Strings

  datatype Settings = Settings(
    appName: string,
    appVersion: string,
    debug: bool,
    environment: string,
    gcpProjectId: string,
    gcpRegion: string,
    dbHost: string,
    dbName: string,
    dbUser: string,
    dbPassword: Option<string>,
    cloudSqlConnectionName: string,
    useCloudSqlConnector: bool,
    secretKey: Option<string>)

  /** The declared defaults, before any environment variable overrides them. */
  const DefaultSettings := Settings(
    "MemCloud API", "1.0.0", false, "production", "memmachine-cloud", "us-central1",
    "/cloudsql/memmachine-cloud:us-central1:memmachine-db", "memmachine", "postgres", None,
    "memmachine-cloud:us-central1:memmachine-db", true, None)

  /** Field declaration order; a field validator sees only the fields declared before it. */
  const FieldOrder: seq<string> := ["APP_NAME", "APP_VERSION", "DEBUG", "ENVIRONMENT"]

  /** `validate_debug(v, info)`: `data` holds the already-validated earlier fields. */
  function ValidateDebug(v: bool, data: map<string, string>): (r: Result<bool, string>)
    ensures r.Err? <==> ("ENVIRONMENT" in data && data["ENVIRONMENT"] == "production" && v)
    ensures r.Ok? ==> r.value == v
  {
    var env := if "ENVIRONMENT" in data then Some(data["ENVIRONMENT"]) else None;
    if env == Some("production") && v then Err("DEBUG must be False in production environment")
    else Ok(v)
  }

  /** The already-validated values visible to the validator of `field`. */
  function ValidatedBefore(field: string, values: map<string, string>): (data: map<string, string>)
    ensures forall k :: k in data ==> k in values && data[k] == values[k]
  {
    var before := if field in FieldOrder then FieldsBefore(FieldOrder, field) else FieldOrder;
    map k | k in values && k in before :: values[k]
  }

  /** The names strictly before the first `field` in `order`. */
  function FieldsBefore(order: seq<string>, field: string): (r: seq<string>)
    ensures field !in r
    ensures |r| <= |order| && r == order[..|r|]
    ensures |r| < |order| ==> order[|r|] == field
    ensures field in order <==> |r| < |order|
  {
    if order == [] || order[0] == field then []
    else
      assert order == [order[0]] + order[1..];
      [order[0]] + FieldsBefore(order[1..], field)
  }

  /** DEBUG validation as the settings class runs it: with the earlier fields only. */
  function ValidateDebugAsDeclared(debug: bool, values: map<string, string>): Result<bool, string>
  {
    ValidateDebug(debug, ValidatedBefore("DEBUG", values))
  }

  /** ENVIRONMENT is declared after DEBUG, so the check can never fire: DEBUG=true is
      accepted even with ENVIRONMENT explicitly "production". */
  lemma DebugCheckNeverFires(debug: bool, values: map<string, string>)
    ensures ValidateDebugAsDeclared(debug, values) == Ok(debug)
  {
    var before := FieldsBefore(FieldOrder, "DEBUG");
    assert before == ["APP_NAME", "APP_VERSION"];
    assert "ENVIRONMENT" !in ValidatedBefore("DEBUG", values);
  }

  /** The validator as evidently intended: it sees the settled ENVIRONMENT value. */
  function ValidateDebugWithEnvironment(debug: bool, environment: string): (r: Result<bool, string>)
    ensures r.Err? <==> (environment == "production" && debug)
    ensures r.Ok? ==> r.value == debug
  {
    ValidateDebug(debug, map["ENVIRONMENT" := environment])
  }

  /** Why a secret could not be read; the message differs in production. */
  datatype SecretError = SecretError(secretName: string, production: bool)

  /** The Secret Manager resource name of one version of a secret. */
  function SecretResourceName(project: string, secretName: string, version: string): (r: string)
    ensures |r| == 9 + |project| + 9 + |secretName| + 10 + |version|
    ensures r[..9] == "projects/" && r[9..9 + |project|] == project
    ensures r[9 + |project|..18 + |project|] == "/secrets/"
    ensures r[18 + |project|..18 + |project| + |secretName|] == secretName
    ensures r[18 + |project| + |secretName|..28 + |project| + |secretName|] == "/versions/"
    ensures r[28 + |project| + |secretName|..] == version
  {
    "projects/" + project + "/secrets/" + secretName + "/versions/" + version
  }

  /** Within one project and version, distinct secrets have distinct resource names, so
      the store never confuses the password with the JWT key. */
  lemma SecretResourceNamesDistinct(project: string, a: string, b: string, version: string)
    ensures SecretResourceName(project, a, version) == SecretResourceName(project, b, version) ==> a == b
  {
    var ra, rb := SecretResourceName(project, a, version), SecretResourceName(project, b, version);
    if ra == rb {
      assert |a| == |b|;
      assert a == ra[18 + |project|..18 + |project| + |a|] == rb[18 + |project|..18 + |project| + |b|] == b;
    }
  }

  const LatestVersion := "latest"

  /** `get_secret`: in development a non-empty environment variable named after the upper-cased
      secret wins; otherwise the store is read, and a missing secret is an error everywhere. */
  function GetSecret(s: Settings, secretName: string, version: string,
                     env: map<string, string>, store: map<string, string>): (r: Result<string, SecretError>)
    ensures r.Err? ==> r.error == SecretError(secretName, s.environment == "production")
    ensures r.Err? ==> SecretResourceName(s.gcpProjectId, secretName, version) !in store
  {
    var key := Upper(secretName);
    if s.environment == "development" && key in env && |env[key]| > 0 then Ok(env[key])
    else
      var name := SecretResourceName(s.gcpProjectId, secretName, version);
      if name in store then Ok(store[name])
      else Err(SecretError(secretName, s.environment == "production"))
  }

  /** In development a set environment variable is returned whatever the store holds. */
  lemma DevelopmentFallbackIgnoresStore(s: Settings, secretName: string, version: string,
                                        env: map<string, string>, store1: map<string, string>,
                                        store2: map<string, string>)
    requires s.environment == "development"
    requires Upper(secretName) in env && |env[Upper(secretName)]| > 0
    ensures GetSecret(s, secretName, version, env, store1) == Ok(env[Upper(secretName)])
    ensures GetSecret(s, secretName, version, env, store1) == GetSecret(s, secretName, version, env, store2)
  {
  }

  /** Outside development, or without the variable, the answer is the stored version. */
  lemma StoreLookup(s: Settings, secretName: string, version: string,
                    env: map<string, string>, store: map<string, string>)
    requires s.environment != "development" || Upper(secretName) !in env || env[Upper(secretName)] == ""
    ensures var name := SecretResourceName(s.gcpProjectId, secretName, version);
      GetSecret(s, secretName, version, env, store)
        == (if name in store then Ok(store[name]) else Err(SecretError(secretName, s.environment == "production")))
  {
  }

  /** `not value` for an `Optional[str]`. */
  predicate Missing(v: Option<string>) { !Truthy(v) }

  /** `load_secrets`: fetch the database password and the JWT key only where missing. */
  function LoadSecrets(s: Settings, env: map<string, string>, store: map<string, string>): (r: Result<Settings, SecretError>)
    ensures r.Ok? ==> r.value.(dbPassword := s.dbPassword, secretKey := s.secretKey) == s
    ensures r.Ok? && !Missing(s.dbPassword) ==> r.value.dbPassword == s.dbPassword
    ensures r.Ok? && !Missing(s.secretKey) ==> r.value.secretKey == s.secretKey
    ensures r.Ok? ==> !Missing(s.dbPassword) || r.value.dbPassword.Some?
    ensures r.Ok? ==> !Missing(s.secretKey) || r.value.secretKey.Some?
    ensures !Missing(s.dbPassword) && !Missing(s.secretKey) ==> r == Ok(s)
  {
    match FillPassword(s, env, store)
    case Err(e) => Err(e)
    case Ok(s1) =>
      SecretLookupIgnoresSecrets(s, s1, "api-secret-key", env, store);
      FillKey(s1, env, store)
  }

  /** The first half of `load_secrets`: the password, fetched only when missing. */
  function FillPassword(s: Settings, env: map<string, string>, store: map<string, string>): (r: Result<Settings, SecretError>)
    ensures !Missing(s.dbPassword) ==> r == Ok(s)
    ensures Missing(s.dbPassword) ==>
      var p := GetSecret(s, "database-password", LatestVersion, env, store);
      r == if p.Ok? then Ok(s.(dbPassword := Some(p.value))) else Err(p.error)
  {
    if Missing(s.dbPassword) then
      match GetSecret(s, "database-password", LatestVersion, env, store)
      case Ok(p) => Ok(s.(dbPassword := Some(p)))
      case Err(e) => Err(e)
    else Ok(s)
  }

  /** The second half of `load_secrets`: the JWT key, fetched only when missing. */
  function FillKey(s: Settings, env: map<string, string>, store: map<string, string>): (r: Result<Settings, SecretError>)
    ensures !Missing(s.secretKey) ==> r == Ok(s)
    ensures Missing(s.secretKey) ==>
      var k := GetSecret(s, "api-secret-key", LatestVersion, env, store);
      r == if k.Ok? then Ok(s.(secretKey := Some(k.value))) else Err(k.error)
  {
    if Missing(s.secretKey) then
      match GetSecret(s, "api-secret-key", LatestVersion, env, store)
      case Ok(k) => Ok(s.(secretKey := Some(k)))
      case Err(e) => Err(e)
    else Ok(s)
  }

  /** A lookup depends on the environment and the project only, not on secrets already held. */
  lemma SecretLookupIgnoresSecrets(s: Settings, s1: Settings, secretName: string,
                                   env: map<string, string>, store: map<string, string>)
    requires s1.environment == s.environment && s1.gcpProjectId == s.gcpProjectId
    ensures GetSecret(s1, secretName, LatestVersion, env, store) == GetSecret(s, secretName, LatestVersion, env, store)
  {
  }

  /** What `load_secrets` leaves behind: each missing secret is filled with exactly what
      `get_secret` returns for it, and loading fails exactly when a missing secret cannot be
      fetched, with the password's error taking precedence. */
  lemma LoadSecretsOutcome(s: Settings, env: map<string, string>, store: map<string, string>)
    ensures var r := LoadSecrets(s, env, store);
      var p := GetSecret(s, "database-password", LatestVersion, env, store);
      var k := GetSecret(s, "api-secret-key", LatestVersion, env, store);
      && (r.Err? <==> (Missing(s.dbPassword) && p.Err?) || (Missing(s.secretKey) && k.Err?))
      && (r.Err? ==> r.error == if Missing(s.dbPassword) && p.Err? then p.error else k.error)
      && (r.Ok? && Missing(s.dbPassword) ==> r.value.dbPassword == Some(p.value))
      && (r.Ok? && Missing(s.secretKey) ==> r.value.secretKey == Some(k.value))
  {
    var p := GetSecret(s, "database-password", LatestVersion, env, store);
    if Missing(s.dbPassword) && p.Err? {
      PasswordFailureStops(s, env, store);
    } else {
      PasswordFilled(s, env, store);
    }
  }

  lemma PasswordFailureStops(s: Settings, env: map<string, string>, store: map<string, string>)
    requires Missing(s.dbPassword) && GetSecret(s, "database-password", LatestVersion, env, store).Err?
    ensures LoadSecrets(s, env, store) == Err(GetSecret(s, "database-password", LatestVersion, env, store).error)
  {
  }

  lemma PasswordFilled(s: Settings, env: map<string, string>, store: map<string, string>)
    requires !Missing(s.dbPassword) || GetSecret(s, "database-password", LatestVersion, env, store).Ok?
    ensures FillPassword(s, env, store).Ok?
    ensures var s1 := FillPassword(s, env, store).value;
      && LoadSecrets(s, env, store) == FillKey(s1, env, store)
      && s1.secretKey == s.secretKey
      && (Missing(s.dbPassword) ==> s1.dbPassword == Some(GetSecret(s, "database-password", LatestVersion, env, store).value))
      && (!Missing(s.dbPassword) ==> s1.dbPassword == s.dbPassword)
      && GetSecret(s1, "api-secret-key", LatestVersion, env, store) == GetSecret(s, "api-secret-key", LatestVersion, env, store)
  {
    var s1 := FillPassword(s, env, store).value;
    SecretLookupIgnoresSecrets(s, s1, "api-secret-key", env, store);
  }

  /** A missing database password that the store cannot supply makes loading fail. */
  lemma LoadSecretsFailsWithoutPassword(s: Settings, env: map<string, string>, store: map<string, string>)
    requires Missing(s.dbPassword)
    requires GetSecret(s, "database-password", LatestVersion, env, store).Err?
    ensures LoadSecrets(s, env, store) == Err(SecretError("database-password", s.environment == "production"))
  {
  }

  /** `get_settings`: secrets are loaded only in production and staging. */
  function GetSettings(s: Settings, env: map<string, string>, store: map<string, string>): (r: Result<Settings, SecretError>)
    ensures s.environment != "production" && s.environment != "staging" ==> r == Ok(s)
    ensures s.environment == "production" || s.environment == "staging" ==> r == LoadSecrets(s, env, store)
  {
    if s.environment in ["production", "staging"] then LoadSecrets(s, env, store) else Ok(s)
  }

  /** A development configuration never touches the secret store. */
  lemma DevelopmentSkipsSecrets(s: Settings, env: map<string, string>, store1: map<string, string>,
                                store2: map<string, string>)
    requires s.environment == "development"
    ensures GetSettings(s, env, store1) == GetSettings(s, env, store2) == Ok(s)
  {
  }

  /** How an `Optional[str]` renders inside an f-string: a missing value prints as "None". */
  function Render(v: Option<string>): string
  {
    if v.Some? then v.value else "None"
  }

  const ConnectorScheme := "postgresql+pg8000://"
  const DirectScheme := "postgresql://"
  const SocketSuffix := "/.s.PGSQL.5432"

  /** The connector URL up to the `?` of its query. */
  function ConnectorHead(s: Settings): string
  {
    ConnectorScheme + s.dbUser + ":" + Render(s.dbPassword) + "@/" + s.dbName + "?"
  }

  /** The Cloud SQL unix socket path named by the `unix_sock` query key. */
  function SocketPath(s: Settings): string
  {
    "/cloudsql/" + s.cloudSqlConnectionName + SocketSuffix
  }

  /** The direct URL up to the host, before the `/` that precedes the database name. */
  function DirectHead(s: Settings): string
  {
    DirectScheme + s.dbUser + ":" + Render(s.dbPassword) + "@" + s.dbHost
  }

  /** `get_database_url`: a unix-socket URL through the Cloud SQL connector, or a host URL;
      both carry the user and the rendered password before the `@`. Each URL is pinned by
      its parts: their positions and the total length leave no room for anything else. */
  function GetDatabaseUrl(s: Settings): (r: string)
    ensures s.useCloudSqlConnector ==>
      var h := ConnectorHead(s);
      && |r| == |h| + 10 + |SocketPath(s)|
      && r[..|h|] == h && r[|h|..|h| + 10] == "unix_sock=" && r[|h| + 10..] == SocketPath(s)
    ensures !s.useCloudSqlConnector ==>
      var h := DirectHead(s);
      && |r| == |h| + 1 + |s.dbName|
      && r[..|h|] == h && r[|h|] == '/' && r[|h| + 1..] == s.dbName
  {
    if s.useCloudSqlConnector then ConnectorUrl(s) else DirectUrl(s)
  }

  /** The unix-socket URL used through the Cloud SQL connector. */
  function ConnectorUrl(s: Settings): (r: string)
    ensures var h := ConnectorHead(s);
      && |r| == |h| + 10 + |SocketPath(s)|
      && r[..|h|] == h && r[|h|..|h| + 10] == "unix_sock=" && r[|h| + 10..] == SocketPath(s)
  {
    ConnectorHead(s) + "unix_sock=" + SocketPath(s)
  }

  /** The host URL used without the connector. */
  function DirectUrl(s: Settings): (r: string)
    ensures var h := DirectHead(s);
      && |r| == |h| + 1 + |s.dbName|
      && r[..|h|] == h && r[|h|] == '/' && r[|h| + 1..] == s.dbName
  {
    DirectHead(s) + "/" + s.dbName
  }

  /** Before secrets are loaded the default configuration renders its password as "None". */
  lemma DefaultUrlBeforeLoading()
    ensures StartsWith(GetDatabaseUrl(DefaultSettings), "postgresql+pg8000://postgres:None@/memmachine?")
  {
    var s := DefaultSettings;
    assert ConnectorHead(s) == "postgresql+pg8000://postgres:None@/memmachine?";
  }
}
