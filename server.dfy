/**
 * The environment check of server.ts: a request context is accepted only when
 * its `env` record has a string `DATABASE_URL`; otherwise the handler throws.
 */
module Server {
  import opened Wrappers

  const DatabaseUrlKey: string := "DATABASE_URL"
  const MissingEnvError: string := "[server] Missing environment variables"

  /** The JavaScript values an environment entry may hold, told apart by `typeof`. */
  datatype JsValue = JsString(s: string) | JsNumber | JsBoolean(b: bool) | JsUndefined | JsNull | JsObject

  /** The `env` the platform passes: `undefined`, `null`, or a record of named values. */
  datatype Env = Undefined | Null | Record(fields: map<string, JsValue>)

  /** The load context handed to loaders and actions: `{ env }`. */
  datatype LoadContext = LoadContext(env: map<string, JsValue>)

  /**
   * `validateEnv(env)`: `!!env && 'DATABASE_URL' in env && typeof
   * env.DATABASE_URL === 'string'`. It fails for a missing `env`, for a record
   * without the key and for a key whose value is not a string; it passes for
   * every string, the empty one included.
   */
  predicate ValidateEnv(env: Env)
    ensures env == Undefined || env == Null ==> !ValidateEnv(env)
    ensures env.Record? && DatabaseUrlKey !in env.fields ==> !ValidateEnv(env)
    ensures env.Record? && DatabaseUrlKey in env.fields && !env.fields[DatabaseUrlKey].JsString? ==> !ValidateEnv(env)
    ensures env.Record? && DatabaseUrlKey in env.fields && env.fields[DatabaseUrlKey].JsString? ==> ValidateEnv(env)
  {
    env.Record? && DatabaseUrlKey in env.fields && env.fields[DatabaseUrlKey].JsString?
  }

  /**
   * `getLoadContext`: passes a valid `env` through unchanged and throws
   * "[server] Missing environment variables" for any other.
   */
  function GetLoadContext(env: Env): (r: Result<LoadContext>)
    ensures r.Ok? <==> ValidateEnv(env)
    ensures r.Ok? ==> Record(r.value.env) == env
    ensures r.Ok? ==> DatabaseUrlKey in r.value.env && r.value.env[DatabaseUrlKey].JsString?
    ensures r.Err? ==> r.error == MissingEnvError
  {
    if ValidateEnv(env) then Ok(LoadContext(env.fields)) else Err(MissingEnvError)
  }

  /** An empty connection string passes the check: only its type is looked at. */
  lemma EmptyDatabaseUrlAccepted()
    ensures ValidateEnv(Record(map[DatabaseUrlKey := JsString("")]))
    ensures GetLoadContext(Record(map[DatabaseUrlKey := JsString("")])).Ok?
  {
  }
}
