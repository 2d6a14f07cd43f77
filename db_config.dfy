/** The database configuration read from the environment: `masked`, which
    hides a secret in the start-up log, and the choice between a connection
    string and individual variables.  The environment is a map from variable
    name to value; an absent variable is missing from the map. */
module DbConfig {
  import opened Wrappers
  import opened JsText

  type Env = map<string, string>

  /** `process.env[k]`, with `None` for an unset variable. */
  function EnvVar(env: Env, k: string): Option<string> {
    if k in env then Some(env[k]) else None
  }

  /** A set, non-empty variable: JavaScript truthiness of the value. */
  predicate IsSet(v: Option<string>) {
    v.Some? && v.value != []
  }

  const Missing: string := "(missing)"

  /** `masked(v)`: a missing or empty value prints as `(missing)`; up to
      four characters print as they are; a longer value prints as eight
      characters that reveal only its first two and last two. */
  function Masked(v: Option<string>): (m: string)
    ensures !IsSet(v) ==> m == Missing
    ensures IsSet(v) && |v.value| <= 4 ==> m == v.value
    ensures IsSet(v) && |v.value| > 4 ==>
      && |m| == 8
      && m[..2] == v.value[..2] && m[6..] == v.value[|v.value| - 2..]
      && (forall i :: 2 <= i < 6 ==> m[i] == '*')
  {
    if !IsSet(v) then Missing
    else if |v.value| <= 4 then v.value
    else v.value[..2] + "****" + v.value[|v.value| - 2..]
  }

  /** Two secrets that share their first two and last two characters mask
      to the same text, whatever lies between. */
  lemma MaskedHidesMiddle(s: string, t: string)
    requires |s| > 4 && |t| > 4
    requires s[..2] == t[..2] && s[|s| - 2..] == t[|t| - 2..]
    ensures Masked(Some(s)) == Masked(Some(t))
  {
  }

  /** Settings both modes share. */
  const ConnectionTimeoutMs: int := 5000
  const IdleTimeoutMs: int := 30000
  const MaxClients: int := 10
  const AddressFamily: int := 4

  /** The pool configuration.  A connection string always uses SSL without
      certificate checks; in individual mode `ssl` says whether it does, and
      `port` is `Number(...)`, `None` standing for NaN or a fraction. */
  datatype PoolConfig =
    | ConnectionString(url: string)
    | Individual(user: string, host: string, database: string, password: string, port: Option<int>, ssl: bool)

  /** The mode selection; `None` is the `process.exit(1)` branch.
      `DATABASE_URL` wins over the individual variables; individual mode
      needs `DB_HOST`, `DB_USER` and `DB_NAME` all set and takes them as
      they are, with port 5432 and an empty password when those are unset
      and SSL only for `DB_SSL` exactly `"true"`; with neither the
      configuration fails. */
  function SelectPoolConfig(env: Env): (c: Option<PoolConfig>)
    ensures IsSet(EnvVar(env, "DATABASE_URL")) ==> c == Some(ConnectionString(env["DATABASE_URL"]))
    ensures (c.Some? && c.value.Individual?) <==>
      !IsSet(EnvVar(env, "DATABASE_URL")) && IsSet(EnvVar(env, "DB_HOST")) &&
      IsSet(EnvVar(env, "DB_USER")) && IsSet(EnvVar(env, "DB_NAME"))
    ensures c.None? <==>
      !IsSet(EnvVar(env, "DATABASE_URL")) &&
      !(IsSet(EnvVar(env, "DB_HOST")) && IsSet(EnvVar(env, "DB_USER")) && IsSet(EnvVar(env, "DB_NAME")))
    ensures c.Some? && c.value.Individual? ==>
      && c.value.host == env["DB_HOST"] && c.value.user == env["DB_USER"] && c.value.database == env["DB_NAME"]
      && (!IsSet(EnvVar(env, "DB_PORT")) ==> c.value.port == Some(5432))
      && (!IsSet(EnvVar(env, "DB_PASSWORD")) ==> c.value.password == "")
      && (IsSet(EnvVar(env, "DB_PASSWORD")) ==> c.value.password == env["DB_PASSWORD"])
      && (c.value.ssl <==> "DB_SSL" in env && env["DB_SSL"] == "true")
  {
    var url := EnvVar(env, "DATABASE_URL");
    var host := EnvVar(env, "DB_HOST");
    var user := EnvVar(env, "DB_USER");
    var name := EnvVar(env, "DB_NAME");
    if IsSet(url) then Some(ConnectionString(url.value))
    else if IsSet(host) && IsSet(user) && IsSet(name) then
      var password := EnvVar(env, "DB_PASSWORD");
      var port := EnvVar(env, "DB_PORT");
      Some(Individual(user.value, host.value, name.value,
                      if IsSet(password) then password.value else "",
                      if IsSet(port) then StringToInt(port.value) else Some(5432),
                      EnvVar(env, "DB_SSL") == Some("true")))
    else None
  }

  /** A numeric `DB_PORT` is used as written. */
  lemma PortFromEnv(env: Env, port: nat)
    requires port <= MaxSafeInteger
    requires SelectPoolConfig(env).Some? && SelectPoolConfig(env).value.Individual?
    requires EnvVar(env, "DB_PORT") == Some(IntToString(port))
    ensures SelectPoolConfig(env).value.port == Some(port)
  {
    StringToIntOfString(port);
  }
}
