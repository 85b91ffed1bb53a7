/**
 * What check-users.ts, check-programs.ts, check-supabase.ts and check-pg.js do with
 * the environment once the `.env` loader has run: pick a connection string or the
 * credentials, or exit with status 1.
 */
module ScriptChecks {
  import opened Wrappers
  import opened DotEnv

  /** How a script goes on after its environment checks. */
  datatype Start<T> = Exit(code: int) | Proceed(config: T)

  /** `process.env[k]` is truthy: set and not empty. */
  predicate IsSet(env: map<string, string>, k: string) {
    k in env && env[k] != ""
  }

  /** `process.env[k1] || process.env[k2] || ...`, `None` when every one is falsy. */
  function FirstSet(env: map<string, string>, keys: seq<string>): (r: Option<string>)
    ensures r.None? <==> forall i :: 0 <= i < |keys| ==> !IsSet(env, keys[i])
    ensures r.Some? ==> exists i :: 0 <= i < |keys| && IsSet(env, keys[i]) && r.value == env[keys[i]]
                          && forall j :: 0 <= j < i ==> !IsSet(env, keys[j])
  {
    if keys == [] then None
    else if IsSet(env, keys[0]) then Some(env[keys[0]])
    else
      var r := FirstSet(env, keys[1..]);
      assert forall i :: 0 <= i < |keys| - 1 ==> keys[1..][i] == keys[i + 1];
      r
  }

  const DatabaseUrlKey := "DATABASE_URL"
  const PrismaUrlKey := "POSTGRES_PRISMA_URL"
  const NonPoolingUrlKey := "POSTGRES_URL_NON_POOLING"
  const SupabaseUrlKey := "NEXT_PUBLIC_SUPABASE_URL"
  const SupabaseAnonKey := "NEXT_PUBLIC_SUPABASE_ANON_KEY"

  /** check-users.ts, lines 28-33: the fallback chain, or `None` for `process.exit(1)`. */
  function UsersConnection(env: map<string, string>): Option<string> {
    FirstSet(env, [DatabaseUrlKey, PrismaUrlKey, NonPoolingUrlKey])
  }

  /** A set `DATABASE_URL` is used; an empty one falls through to the next variable. */
  lemma UsersConnectionOrder(env: map<string, string>)
    ensures IsSet(env, DatabaseUrlKey) ==> UsersConnection(env) == Some(env[DatabaseUrlKey])
    ensures !IsSet(env, DatabaseUrlKey) && IsSet(env, PrismaUrlKey) ==> UsersConnection(env) == Some(env[PrismaUrlKey])
    ensures !IsSet(env, DatabaseUrlKey) && !IsSet(env, PrismaUrlKey) ==> UsersConnection(env) == FirstSet(env, [NonPoolingUrlKey])
    ensures UsersConnection(env).Some? ==> UsersConnection(env).value != ""
  {
    var keys := [DatabaseUrlKey, PrismaUrlKey, NonPoolingUrlKey];
    var rest := [PrismaUrlKey, NonPoolingUrlKey];
    assert keys[1..] == rest;
    assert rest[1..] == [NonPoolingUrlKey];
    assert !IsSet(env, DatabaseUrlKey) ==> UsersConnection(env) == FirstSet(env, rest);
    assert !IsSet(env, PrismaUrlKey) ==> FirstSet(env, rest) == FirstSet(env, [NonPoolingUrlKey]);
  }

  /** check-supabase.ts, lines 25-31: both values, or `None` when either is falsy. */
  function SupabaseCredentials(env: map<string, string>): (r: Option<(string, string)>)
    ensures r.Some? <==> IsSet(env, SupabaseUrlKey) && IsSet(env, SupabaseAnonKey)
    ensures r.Some? ==> r.value == (env[SupabaseUrlKey], env[SupabaseAnonKey])
  {
    if IsSet(env, SupabaseUrlKey) && IsSet(env, SupabaseAnonKey)
    then Some((env[SupabaseUrlKey], env[SupabaseAnonKey]))
    else None
  }

  /** check-pg.js, lines 25-29: `DATABASE_URL` alone, or `None` for `process.exit(1)`. */
  function PgConnection(env: map<string, string>): (r: Option<string>)
    ensures r.Some? <==> IsSet(env, DatabaseUrlKey)
    ensures r.Some? ==> r.value == env[DatabaseUrlKey]
  {
    if IsSet(env, DatabaseUrlKey) then Some(env[DatabaseUrlKey]) else None
  }

  /** A present option becomes the configuration, an absent one exit status 1. */
  function StartWith<T>(config: Option<T>): (s: Start<T>)
    ensures s.Exit? <==> config.None?
    ensures s.Exit? ==> s.code == 1
    ensures s.Proceed? ==> config == Some(s.config)
  {
    if config.None? then Exit(1) else Proceed(config.value)
  }

  /** check-users.ts, lines 9-33: load `.env`, then take the first set connection string. */
  method CheckUsers(env: Environment, file: Option<string>) returns (s: Start<string>)
    modifies env
    ensures env.vars == Loaded(old(env.vars), file)
    ensures s == StartWith(UsersConnection(env.vars))
  {
    env.LoadDotEnv(file);
    s := StartWith(UsersConnection(env.vars));
  }

  /** check-programs.ts, lines 5-17: only the loader; the queries after it are not modelled. */
  method CheckPrograms(env: Environment, file: Option<string>)
    modifies env
    ensures env.vars == Loaded(old(env.vars), file)
  {
    env.LoadDotEnv(file);
  }

  /** check-supabase.ts, lines 7-31. */
  method CheckSupabase(env: Environment, file: Option<string>) returns (s: Start<(string, string)>)
    modifies env
    ensures env.vars == Loaded(old(env.vars), file)
    ensures s == StartWith(SupabaseCredentials(env.vars))
  {
    env.LoadDotEnv(file);
    s := StartWith(SupabaseCredentials(env.vars));
  }

  /** check-pg.js, lines 7-29. */
  method CheckPg(env: Environment, file: Option<string>) returns (s: Start<string>)
    modifies env
    ensures env.vars == Loaded(old(env.vars), file)
    ensures s == StartWith(PgConnection(env.vars))
  {
    env.LoadDotEnv(file);
    s := StartWith(PgConnection(env.vars));
  }

  /**
   * Unlike scripts/db-sync.js, where the environment's `DATABASE_URL` wins over the
   * file, here a `DATABASE_URL=` line in `.env` replaces the environment's value.
   */
  lemma DotEnvBeatsEnvironment(env: map<string, string>, url: string)
    requires url != [] && NoTerminator(url) && Text.Trim(url) == url
    requires !Text.IsQuote(url[0]) && !Text.IsQuote(url[|url| - 1])
    ensures PgConnection(Loaded(env, Some(DatabaseUrlKey + "=" + url))) == Some(url)
  {
    var key := DatabaseUrlKey;
    assert key[0] == 'D' && key[|key| - 1] == 'L';
    Text.TrimUnchanged(key);
    assert forall k :: 0 <= k < |key| ==> key[k] != '=' && key[k] != '\n';
    FileOverridesEnvironment(env, key, url);
  }
}
