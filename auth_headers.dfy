/**
 * `buildAuthHeaders` of server.js: the headers the import route sends to the n8n
 * API. An API key (from the request header, the request body or the environment)
 * wins; otherwise a bearer token (section 2.1 of RFC 6750); otherwise HTTP Basic
 * credentials (section 2 of RFC 7617); otherwise there are no credentials.
 */
module AuthHeaders {
  import opened Options
  import opened JsValues

  /** A header set, in insertion order. */
  type Headers = seq<(string, string)>

  /** The environment variables read here; `""` stands for an unset variable. */
  datatype AuthEnv = AuthEnv(apiKey: string, bearerToken: string, basicUser: string, basicPassword: string)

  const ContentType := ("Content-Type", "application/json")

  /** The value of the first header called `name`, if any. */
  function HeaderValue(hs: Headers, name: string): (v: Option<string>)
    ensures v.Some? <==> exists i :: 0 <= i < |hs| && hs[i].0 == name
    ensures v.Some? ==> (name, v.value) in hs
  {
    if hs == [] then None
    else if hs[0].0 == name then Some(hs[0].1)
    else
      var v := HeaderValue(hs[1..], name);
      assert forall i :: 1 <= i < |hs| ==> hs[i] == hs[1..][i - 1];
      v
  }

  /**
   * The API key: the `x-n8n-api-key` request header when it is a string, else
   * `body.apiKey` when it is a string, else `N8N_API_KEY`.
   */
  function ChosenApiKey(header: Option<string>, body: Value, env: AuthEnv): (key: string)
    ensures header.Some? ==> key == header.value
    ensures header.None? && Get(body, "apiKey").Str? ==> key == Get(body, "apiKey").s
    ensures header.None? && !Get(body, "apiKey").Str? ==> key == env.apiKey
  {
    match header
    case Some(k) => k
    case None =>
      var fromBody := Get(body, "apiKey");
      if fromBody.Str? then fromBody.s else env.apiKey
  }

  /**
   * `buildAuthHeaders(req)`; `header` is the `x-n8n-api-key` request header and
   * `body` the parsed request body. `base64` stands for `Buffer.from(..).toString('base64')`.
   */
  function BuildAuthHeaders(header: Option<string>, body: Value, env: AuthEnv, base64: string -> string): (r: Option<Headers>)
    ensures r.Some? ==> |r.value| == 2 && r.value[0] == ContentType
    ensures r.Some? ==> HeaderValue(r.value, "Content-Type") == Some("application/json")
    ensures r.None? <==>
      ChosenApiKey(header, body, env) == "" && env.bearerToken == "" && (env.basicUser == "" || env.basicPassword == "")
    ensures ChosenApiKey(header, body, env) != "" ==>
      r.Some? && HeaderValue(r.value, "X-N8N-API-KEY") == Some(ChosenApiKey(header, body, env))
      && HeaderValue(r.value, "Authorization") == None
    ensures ChosenApiKey(header, body, env) == "" && r.Some? ==>
      HeaderValue(r.value, "X-N8N-API-KEY") == None
  {
    var apiKey := ChosenApiKey(header, body, env);
    if apiKey != "" then Some([ContentType, ("X-N8N-API-KEY", apiKey)])
    else if env.bearerToken != "" then Some([ContentType, ("Authorization", "Bearer " + env.bearerToken)])
    else if env.basicUser != "" && env.basicPassword != "" then
      Some([ContentType, ("Authorization", "Basic " + base64(env.basicUser + ":" + env.basicPassword))])
    else None
  }

  /** Without an API key a bearer token is used, whatever the Basic credentials are. */
  lemma BearerBeforeBasic(header: Option<string>, body: Value, env: AuthEnv, base64: string -> string)
    requires ChosenApiKey(header, body, env) == "" && env.bearerToken != ""
    ensures var r := BuildAuthHeaders(header, body, env, base64);
      r.Some? && HeaderValue(r.value, "Authorization") == Some("Bearer " + env.bearerToken)
  {
  }

  /** Basic credentials are used only with neither key nor token, and need both user and password. */
  lemma BasicNeedsBoth(header: Option<string>, body: Value, env: AuthEnv, base64: string -> string)
    requires ChosenApiKey(header, body, env) == "" && env.bearerToken == ""
    ensures var r := BuildAuthHeaders(header, body, env, base64);
      r.Some? <==> env.basicUser != "" && env.basicPassword != ""
    ensures var r := BuildAuthHeaders(header, body, env, base64);
      r.Some? ==> HeaderValue(r.value, "Authorization") == Some("Basic " + base64(env.basicUser + ":" + env.basicPassword))
  {
  }

  /** A key in the request header makes the body and environment keys irrelevant. */
  lemma HeaderKeyWins(k: string, body: Value, body': Value, env: AuthEnv, base64: string -> string)
    requires k != ""
    ensures BuildAuthHeaders(Some(k), body, env, base64) == BuildAuthHeaders(Some(k), body', env.(apiKey := ""), base64)
  {
  }

  /**
   * An empty `x-n8n-api-key` header is still a string and shadows the body and
   * environment keys, so the request falls through to bearer, Basic or nothing.
   */
  lemma EmptyHeaderKeyShadows(body: Value, env: AuthEnv, base64: string -> string)
    ensures var r := BuildAuthHeaders(Some(""), body, env, base64);
      r.Some? ==> HeaderValue(r.value, "X-N8N-API-KEY") == None
    ensures BuildAuthHeaders(Some(""), body, env, base64) == BuildAuthHeaders(Some(""), Undefined, env.(apiKey := ""), base64)
  {
  }
}
