/**
 * `buildWorkflowEndpoint` of server.js: where the import route posts a workflow.
 * A configured endpoint wins outright; otherwise a base URL is chosen and its
 * path is completed to the n8n workflows resource.
 */
module WorkflowEndpoint {
  import opened Options
  import opened JsStrings
  import opened JsValues
  import opened Urls

  /** The environment variables read here; `""` stands for an unset variable. */
  datatype ApiEnv = ApiEnv(workflowsEndpoint: string, apiBase: string, apiUrl: string)

  /** `null`, a thrown error (a non-string base or a URL the parser rejects), or the endpoint. */
  datatype Endpoint = NoEndpoint | Throws | Endpoint(url: string)

  const DefaultWorkflowsPath := "/api/v1/workflows"

  /** `preferredBase || N8N_API_BASE || N8N_API_URL`. */
  function RawBase(preferred: Value, env: ApiEnv): (raw: Value)
    ensures Truthy(preferred) ==> raw == preferred
    ensures !Truthy(preferred) ==> raw == Str(if env.apiBase != "" then env.apiBase else env.apiUrl)
  {
    if Truthy(preferred) then preferred
    else if env.apiBase != "" then Str(env.apiBase)
    else Str(env.apiUrl)
  }

  /**
   * The pathname given to the URL: a path holding `/api/v1/` or `/rest/` but not
   * `workflows` gets `workflows` after exactly one slash; every other path is replaced.
   */
  function WorkflowsPath(path: string): (r: string)
    ensures EndsWith(r, "/workflows")
    ensures (Contains(path, "/api/v1/") || Contains(path, "/rest/")) && !Contains(path, "workflows") ==>
      r == (if EndsWith(path, "/") then path else path + "/") + "workflows"
    ensures !((Contains(path, "/api/v1/") || Contains(path, "/rest/")) && !Contains(path, "workflows")) ==>
      r == DefaultWorkflowsPath
  {
    if Contains(path, "/api/v1/") && !Contains(path, "workflows") then
      AppendWorkflows(path)
    else if Contains(path, "/rest/") && !Contains(path, "workflows") then
      AppendWorkflows(path)
    else
      DefaultWorkflowsPath
  }

  function AppendWorkflows(path: string): (r: string)
    ensures EndsWith(r, "/workflows")
  {
    var withSlash := if EndsWith(path, "/") then path else path + "/";
    assert withSlash[|withSlash| - 1] == '/';
    withSlash + "workflows"
  }

  /** The part after the base is chosen: add a trailing slash, parse, complete the path, serialise. */
  function EndpointFromBase(raw: Value): (r: Endpoint)
    requires Truthy(raw)
    ensures !raw.Str? ==> r == Throws
    ensures raw.Str? ==> (r.Endpoint? <==> Parse(if EndsWith(raw.s, "/") then raw.s else raw.s + "/").Some?)
    ensures r != NoEndpoint
  {
    if !raw.Str? then Throws
    else
      var base := if EndsWith(raw.s, "/") then raw.s else raw.s + "/";
      match Parse(base)
      case None => Throws
      case Some(u) => Endpoint(ToString(SetPathname(u, WorkflowsPath(u.pathname))))
  }

  /** `buildWorkflowEndpoint(preferredBase)`. */
  function BuildWorkflowEndpoint(preferred: Value, env: ApiEnv): (r: Endpoint)
    ensures env.workflowsEndpoint != "" ==> r == Endpoint(env.workflowsEndpoint)
    ensures r == NoEndpoint <==>
      env.workflowsEndpoint == "" && !Truthy(preferred) && env.apiBase == "" && env.apiUrl == ""
  {
    if env.workflowsEndpoint != "" then Endpoint(env.workflowsEndpoint)
    else
      var raw := RawBase(preferred, env);
      if !Truthy(raw) then NoEndpoint else EndpointFromBase(raw)
  }

  /** A truthy preferred base makes both environment bases irrelevant. */
  lemma PreferredBaseWins(preferred: Value, env: ApiEnv, env': ApiEnv)
    requires env.workflowsEndpoint == "" && env'.workflowsEndpoint == ""
    requires Truthy(preferred)
    ensures BuildWorkflowEndpoint(preferred, env) == BuildWorkflowEndpoint(preferred, env')
    ensures BuildWorkflowEndpoint(preferred, env) == EndpointFromBase(preferred)
  {
  }

  /** Without a preferred base, `N8N_API_BASE` makes `N8N_API_URL` irrelevant. */
  lemma ApiBaseBeforeApiUrl(preferred: Value, base: string, url: string, url': string)
    requires !Truthy(preferred) && base != ""
    ensures BuildWorkflowEndpoint(preferred, ApiEnv("", base, url))
         == BuildWorkflowEndpoint(preferred, ApiEnv("", base, url'))
    ensures BuildWorkflowEndpoint(preferred, ApiEnv("", base, url)) == EndpointFromBase(Str(base))
  {
  }

  /** `N8N_API_URL` is used only when nothing else is set. */
  lemma ApiUrlLast(preferred: Value, url: string)
    requires !Truthy(preferred) && url != ""
    ensures BuildWorkflowEndpoint(preferred, ApiEnv("", "", url)) == EndpointFromBase(Str(url))
  {
  }

  /** `https://<host><path>` parses into its host and path. */
  lemma HttpsUrlParses(h: string, path: string)
    requires IsPlainHost(h)
    requires StartsWith(path, "/")
    requires forall i :: 0 <= i < |path| ==> path[i] !in {'?', '#'}
    ensures Parse("https://" + h + path) == Some(Url("https", true, h, path, ""))
  {
    PlainHostname(h);
    var u := Url("https", true, h, path, "");
    assert IsScheme("https");
    assert WellFormed(u);
    ParseToString(u);
    HttpsToString(h, path);
  }

  /** The endpoint for `https://<host><path>` with a path the parser keeps as it is. */
  lemma EndpointOfHttpsBase(h: string, path: string, raw: string)
    requires IsPlainHost(h)
    requires StartsWith(path, "/") && EndsWith(path, "/")
    requires forall i :: 0 <= i < |path| ==> path[i] !in {'?', '#'}
    requires raw == "https://" + h + path || (raw + "/" == "https://" + h + path && !EndsWith(raw, "/"))
    ensures EndpointFromBase(Str(raw)) == Endpoint("https://" + h + WorkflowsPath(path))
  {
    var base := if EndsWith(raw, "/") then raw else raw + "/";
    var u := Url("https", true, h, path, "");
    assert Parse(base) == Some(u) by {
      assert base == "https://" + h + path by {
        if raw == "https://" + h + path {
          assert raw[|raw| - 1..] == path[|path| - 1..];
        }
      }
      HttpsUrlParses(h, path);
    }
    HttpsToString(h, WorkflowsPath(path));
  }

  /** A host root gets the default path: `https://x.test` resolves to `https://x.test/api/v1/workflows`. */
  lemma HostRootGetsDefaultPath(h: string)
    requires IsPlainHost(h)
    ensures BuildWorkflowEndpoint(Str("https://" + h), ApiEnv("", "", ""))
         == Endpoint("https://" + h + "/api/v1/workflows")
  {
    assert !Contains("/", "/api/v1/") && !Contains("/", "/rest/");
    var raw := "https://" + h;
    assert !EndsWith(raw, "/") by {
      assert raw[|raw| - 1] == h[|h| - 1];
    }
    EndpointOfHttpsBase(h, "/", raw);
  }

  /** `https://x.test/rest` and `https://x.test/rest/` both resolve to `https://x.test/rest/workflows`. */
  lemma RestBaseGetsWorkflows(h: string, withSlash: bool)
    requires IsPlainHost(h)
    ensures var raw := "https://" + h + (if withSlash then "/rest/" else "/rest");
      BuildWorkflowEndpoint(Str(raw), ApiEnv("", "", "")) == Endpoint("https://" + h + "/rest/workflows")
  {
    var raw := "https://" + h + (if withSlash then "/rest/" else "/rest");
    assert !withSlash ==> !EndsWith(raw, "/") by {
      assert !withSlash ==> raw[|raw| - 1] == 't';
    }
    assert !withSlash ==> raw + "/" == "https://" + h + "/rest/";
    EndpointOfHttpsBase(h, "/rest/", raw);
    RestPathGetsWorkflows();
    PreferredBaseWins(Str(raw), ApiEnv("", "", ""), ApiEnv("", "", ""));
  }

  lemma RestPathGetsWorkflows()
    ensures WorkflowsPath("/rest/") == "/rest/workflows"
  {
    assert Contains("/rest/", "/rest/");
    assert !Contains("/rest/", "workflows");
  }

  lemma RestWorkflowsPathIsReplaced()
    ensures WorkflowsPath("/rest/workflows/") == DefaultWorkflowsPath
  {
    var path := "/rest/workflows/";
    assert Contains(path, "workflows") by {
      assert path[6..] == "workflows/";
      assert Contains(path[6..], "workflows");
      assert Contains(path[5..], "workflows");
      assert Contains(path[4..], "workflows");
      assert Contains(path[3..], "workflows");
      assert Contains(path[2..], "workflows");
      assert Contains(path[1..], "workflows");
    }
  }

  /**
   * A base that already names the workflows resource is not kept: feeding
   * `https://x.test/rest/workflows` back in gives `https://x.test/api/v1/workflows`.
   */
  lemma ResolvedRestEndpointIsRewritten(h: string)
    requires IsPlainHost(h)
    ensures BuildWorkflowEndpoint(Str("https://" + h + "/rest/workflows"), ApiEnv("", "", ""))
         == Endpoint("https://" + h + "/api/v1/workflows")
  {
    var raw := "https://" + h + "/rest/workflows";
    assert !EndsWith(raw, "/") by {
      assert raw[|raw| - 1] == 's';
    }
    assert raw + "/" == "https://" + h + "/rest/workflows/";
    EndpointOfHttpsBase(h, "/rest/workflows/", raw);
    RestWorkflowsPathIsReplaced();
    PreferredBaseWins(Str(raw), ApiEnv("", "", ""), ApiEnv("", "", ""));
  }
}
