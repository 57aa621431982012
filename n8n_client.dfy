/**
 * The direct import of src/utils/n8nClient.ts: the request URL, the headers for
 * the three authentication modes, and the body posted to `/rest/workflows` of an
 * n8n instance.
 */
module N8nClient {
  import opened Options
  import opened JsStrings
  import opened JsValues
  import opened Templates

  /** `'pat'` (a personal access token), `'basic'` (section 2 of RFC 7617) or `'cookie'` (the browser session). */
  datatype AuthMode = Pat | Basic | Cookie

  /** The two thrown errors of `buildHeaders`. */
  datatype HeaderError = MissingToken | MissingBasicCredentials

  /** The credential fields of the import arguments; `""` stands for an absent one. */
  datatype Auth = Auth(mode: AuthMode, token: string, username: string, password: string)

  /** `normalizeHost(host)`: without its one trailing slash, if it has one. */
  function NormalizeHost(host: string): (r: string)
    ensures EndsWith(host, "/") ==> r + "/" == host
    ensures !EndsWith(host, "/") ==> r == host
  {
    if EndsWith(host, "/") then host[..|host| - 1] else host
  }

  /** The request URL of `importWorkflow`. */
  function WorkflowsUrl(host: string): (url: string)
    ensures EndsWith(url, "/rest/workflows")
    ensures url == NormalizeHost(host) + "/rest/workflows"
  {
    var url := NormalizeHost(host) + "/rest/workflows";
    assert url[|url| - |"/rest/workflows"|..] == "/rest/workflows";
    url
  }

  /** A host with or without its trailing slash gives the same URL. */
  lemma TrailingSlashIrrelevant(host: string)
    requires !EndsWith(host, "/")
    ensures WorkflowsUrl(host + "/") == WorkflowsUrl(host) == host + "/rest/workflows"
  {
    assert (host + "/")[..|host|] == host;
  }

  /** Only one slash is removed: `https://n8n.test//` keeps one. */
  lemma OnlyOneSlashRemoved(host: string)
    ensures NormalizeHost(host + "//") == host + "/"
  {
    assert (host + "//")[..|host| + 1] == host + "/";
  }

  /**
   * `buildHeaders(auth)`; `base64` stands for `btoa`. The headers start with the
   * JSON content type, and `Authorization` is assigned for the token and Basic modes.
   */
  method BuildHeaders(auth: Auth, base64: string -> string) returns (r: Result<map<string, string>, HeaderError>)
    ensures r.Err? <==>
      (auth.mode == Pat && auth.token == "") || (auth.mode == Basic && (auth.username == "" || auth.password == ""))
    ensures r.Err? ==> r.error == (if auth.mode == Pat then MissingToken else MissingBasicCredentials)
    ensures r.Ok? ==> "Content-Type" in r.value && r.value["Content-Type"] == "application/json"
    ensures r.Ok? && auth.mode == Pat ==> r.value == map["Content-Type" := "application/json", "Authorization" := "Bearer " + auth.token]
    ensures r.Ok? && auth.mode == Basic ==>
      r.value == map["Content-Type" := "application/json", "Authorization" := "Basic " + base64(auth.username + ":" + auth.password)]
    ensures auth.mode == Cookie ==> r == Ok(map["Content-Type" := "application/json"])
  {
    var headers := map["Content-Type" := "application/json"];
    if auth.mode == Pat {
      if auth.token == "" {
        return Err(MissingToken);
      }
      headers := headers["Authorization" := "Bearer " + auth.token];
    }
    if auth.mode == Basic {
      if auth.username == "" || auth.password == "" {
        return Err(MissingBasicCredentials);
      }
      var encoded := base64(auth.username + ":" + auth.password);
      headers := headers["Authorization" := "Basic " + encoded];
    }
    return Ok(headers);
  }

  /** The `credentials` option of the request: the session cookie is sent only in cookie mode. */
  function FetchCredentials(mode: AuthMode): (r: string)
    ensures r == "include" <==> mode == Cookie
    ensures r == "include" || r == "same-origin"
  {
    if mode == Cookie then "include" else "same-origin"
  }

  /** The posted body: the workflow's name, inactive, and the template's nodes, connections and tags. */
  function ImportBody(workflowName: string, template: WorkflowTemplate): (body: Value)
    ensures body.Obj? && Keys(body.props) == ["name", "active", "nodes", "connections", "tags"] && UniqueKeys(body.props)
    ensures Get(body, "name") == Str(workflowName) && Get(body, "active") == Bool(false)
    ensures Get(body, "nodes") == template.nodes && Get(body, "connections") == template.connections
    ensures Get(body, "tags").Arr? && |Get(body, "tags").items| == |template.tags|
    ensures forall i :: 0 <= i < |template.tags| ==> Get(body, "tags").items[i] == Str(template.tags[i])
  {
    BodyObject(Str(workflowName), template.nodes, template.connections, TagValues(template.tags))
  }

  /** The tags as an array of strings. */
  function TagValues(tags: seq<string>): (r: Value)
    ensures r.Arr? && |r.items| == |tags|
    ensures forall i :: 0 <= i < |tags| ==> r.items[i] == Str(tags[i])
  {
    Arr(seq(|tags|, i requires 0 <= i < |tags| => Str(tags[i])))
  }

  /** `{ name, active: false, nodes, connections, tags }`. */
  function BodyObject(name: Value, nodes: Value, connections: Value, tags: Value): (body: Value)
    ensures body.Obj? && Keys(body.props) == ["name", "active", "nodes", "connections", "tags"] && UniqueKeys(body.props)
    ensures Get(body, "name") == name && Get(body, "active") == Bool(false)
    ensures Get(body, "nodes") == nodes && Get(body, "connections") == connections && Get(body, "tags") == tags
  {
    var props := [("name", name), ("active", Bool(false)), ("nodes", nodes), ("connections", connections), ("tags", tags)];
    assert Keys(props) == ["name", "active", "nodes", "connections", "tags"];
    LookupUnique(props, 0);
    LookupUnique(props, 1);
    LookupUnique(props, 2);
    LookupUnique(props, 3);
    LookupUnique(props, 4);
    Obj(props)
  }
}
