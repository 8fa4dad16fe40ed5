/** The state a loader works on (the store, the request log, the `first_get`
    flag, the reference map and the loading variables of `load_site`) and the
    request primitive `get`. */
module SyncEnv {
  import opened Values
  import opened Api
  import opened Store

  /** What a loader is constructed with: its site, the configured auth token (if
      any) and the script of responses the transport will give. */
  datatype Config = Config(site: int, token: Option<string>, script: seq<Response>)

  /** Everything a loader reads and changes. `warnings` counts the
      "WP_API_AUTH_TOKEN not found" warnings of `get`. */
  datatype Env = Env(
    db: Db,
    sent: seq<Request>,
    firstGet: bool,
    warnings: nat,
    refs: RefMap,
    modifiedAfter: Option<int>,
    purgeFirst: bool,
    full: bool)

  /** Whether `get` warns: no token configured and this is the first call. */
  predicate WarnsOnGet(c: Config, e: Env)
  {
    c.token.None? && e.firstGet
  }

  /** `get(path, params)`: sends the request (with the Bearer header when a token
      is configured), warns on the first token-less call, clears `first_get` on
      every call, and returns the scripted response to this request. */
  function Fetch(c: Config, e: Env, path: string, params: Params): (Env, Response)
  {
    (e.(sent := e.sent + [Request(path, params, Auth(c.token))],
        firstGet := false,
        warnings := e.warnings + if WarnsOnGet(c, e) then 1 else 0),
     ScriptAt(c.script, |e.sent|))
  }

  /** The warning discipline of a loader with a fixed token: `first_get` is set
      exactly until the first request, and the token warning has been logged once
      after that if no token is configured, never otherwise. */
  predicate WarnedAtMostOnce(c: Config, e: Env)
  {
    (e.firstGet <==> e.sent == []) &&
    e.warnings == (if c.token.None? && e.sent != [] then 1 else 0)
  }

  /** `get` keeps the warning discipline, clears `first_get`, and appends exactly
      its own request to the log. */
  lemma FetchKeepsDiscipline(c: Config, e: Env, path: string, params: Params)
    requires WarnedAtMostOnce(c, e)
    ensures WarnedAtMostOnce(c, Fetch(c, e, path, params).0)
    ensures !Fetch(c, e, path, params).0.firstGet
    ensures Fetch(c, e, path, params).0.sent == e.sent + [Request(path, params, Auth(c.token))]
  {
  }

  /** The log only grows: `before` is a prefix of `after`. */
  predicate Extends(before: seq<Request>, after: seq<Request>)
  {
    |before| <= |after| && after[..|before|] == before
  }

  lemma ExtendsAppend(a: seq<Request>, x: Request)
    ensures Extends(a, a + [x])
  {
    assert (a + [x])[..|a|] == a;
  }

  lemma ExtendsTrans(a: seq<Request>, b: seq<Request>, d: seq<Request>)
    requires Extends(a, b) && Extends(b, d)
    ensures Extends(a, d)
  {
    assert d[..|a|] == d[..|b|][..|a|];
  }
}
