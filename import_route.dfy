/**
 * The checks and the payload of `POST /api/import-workflow` in server.js, before
 * the request to n8n is sent: find the workflow (inline, or a template file by
 * id), then the credentials, then the endpoint; the first missing one answers the
 * request with an error.
 */
module ImportRoute {
  import opened Options
  import opened JsValues
  import opened AuthHeaders
  import opened WorkflowEndpoint

  /** The three refusals, in the order they are checked. */
  datatype Rejection = TemplateNotFound | NoCredentials | NoApiAddress

  /**
   * What the route does: refuse, throw outside its `try` (an endpoint base the URL
   * parser rejects), or post `payload` to `endpoint` with `headers`.
   */
  datatype Decision =
    | Rejected(reason: Rejection)
    | Thrown
    | Forward(endpoint: string, headers: Headers, payload: Value)

  const DefaultWorkflowName := "Imported from template gallery"

  /**
   * `resolved`: the body's `workflow`, or, when that is falsy and a `templateId` is
   * given, the template file read through `disk`. `disk(id)` stands for
   * `loadTemplateFromDisk(id)`: the parsed file `<id>.json`, or `null` when it cannot
   * be read or parsed.
   */
  function Resolved(body: Value, disk: string -> Value): (resolved: Value)
    ensures Truthy(Get(body, "workflow")) ==> resolved == Get(body, "workflow")
    ensures !Truthy(Get(body, "workflow")) && !Truthy(Get(body, "templateId")) ==> resolved == Get(body, "workflow")
    ensures !Truthy(Get(body, "workflow")) && Truthy(Get(body, "templateId")) ==>
      resolved == disk(ToJsString(Get(body, "templateId")))
  {
    // `req.body || {}` reads every field of a falsy body as `undefined`, as `Get` does
    var workflow := Get(body, "workflow");
    var templateId := Get(body, "templateId");
    if !Truthy(workflow) && Truthy(templateId) then disk(ToJsString(templateId)) else workflow
  }

  /** The resolved workflow is usable: it and its `nodes` and `connections` are truthy. */
  predicate HasWorkflow(resolved: Value) {
    Truthy(resolved) && Truthy(Get(resolved, "nodes")) && Truthy(Get(resolved, "connections"))
  }

  /** `a || b`: `a` when it is truthy, else `b`. */
  function Or(a: Value, b: Value): (r: Value)
    ensures Truthy(a) ==> r == a
    ensures !Truthy(a) ==> r == b
  {
    if Truthy(a) then a else b
  }

  /** The payload posted to n8n: a name, the workflow's nodes and connections, and its settings. */
  function ImportPayload(name: Value, resolved: Value): (p: Value)
    ensures p.Obj? && Keys(p.props) == ["name", "nodes", "connections", "settings"] && UniqueKeys(p.props)
    ensures Truthy(name) ==> Get(p, "name") == name
    ensures !Truthy(name) && Truthy(Get(resolved, "name")) ==> Get(p, "name") == Get(resolved, "name")
    ensures !Truthy(name) && !Truthy(Get(resolved, "name")) ==> Get(p, "name") == Str(DefaultWorkflowName)
    ensures Truthy(Get(p, "name"))
    ensures Get(p, "nodes") == Get(resolved, "nodes") && Get(p, "connections") == Get(resolved, "connections")
    ensures Get(p, "settings") == (if Truthy(Get(resolved, "settings")) then Get(resolved, "settings") else Obj([]))
  {
    PayloadObject(
      Or(name, Or(Get(resolved, "name"), Str(DefaultWorkflowName))),
      Get(resolved, "nodes"),
      Get(resolved, "connections"),
      Or(Get(resolved, "settings"), Obj([])))
  }

  /** `{ name, nodes, connections, settings }`. */
  function PayloadObject(name: Value, nodes: Value, connections: Value, settings: Value): (p: Value)
    ensures p.Obj? && Keys(p.props) == ["name", "nodes", "connections", "settings"] && UniqueKeys(p.props)
    ensures Get(p, "name") == name && Get(p, "nodes") == nodes
    ensures Get(p, "connections") == connections && Get(p, "settings") == settings
  {
    var props := [("name", name), ("nodes", nodes), ("connections", connections), ("settings", settings)];
    assert Keys(props) == ["name", "nodes", "connections", "settings"];
    LookupUnique(props, 0);
    LookupUnique(props, 1);
    LookupUnique(props, 2);
    LookupUnique(props, 3);
    Obj(props)
  }

  /**
   * The route up to the request to n8n. `header` is the `x-n8n-api-key` request
   * header, `body` the parsed body.
   */
  function DecideImport(header: Option<string>, body: Value, authEnv: AuthEnv, apiEnv: ApiEnv,
                        disk: string -> Value, base64: string -> string): (d: Decision)
    ensures d == Rejected(TemplateNotFound) <==> !HasWorkflow(Resolved(body, disk))
    ensures d == Rejected(NoCredentials) <==>
      HasWorkflow(Resolved(body, disk)) && BuildAuthHeaders(header, body, authEnv, base64).None?
    ensures d == Rejected(NoApiAddress) <==>
      HasWorkflow(Resolved(body, disk)) && BuildAuthHeaders(header, body, authEnv, base64).Some?
      && BuildWorkflowEndpoint(Get(body, "apiBase"), apiEnv) == NoEndpoint
    ensures d == Thrown <==>
      HasWorkflow(Resolved(body, disk)) && BuildAuthHeaders(header, body, authEnv, base64).Some?
      && BuildWorkflowEndpoint(Get(body, "apiBase"), apiEnv) == Throws
    ensures (&& HasWorkflow(Resolved(body, disk))
             && BuildAuthHeaders(header, body, authEnv, base64).Some?
             && BuildWorkflowEndpoint(Get(body, "apiBase"), apiEnv).Endpoint?) ==> d.Forward?
    ensures d.Forward? ==>
      && BuildAuthHeaders(header, body, authEnv, base64) == Some(d.headers)
      && BuildWorkflowEndpoint(Get(body, "apiBase"), apiEnv) == Endpoint(d.endpoint)
      && d.payload == ImportPayload(Get(body, "name"), Resolved(body, disk))
  {
    var resolved := Resolved(body, disk);
    if !HasWorkflow(resolved) then Rejected(TemplateNotFound)
    else match BuildAuthHeaders(header, body, authEnv, base64)
      case None => Rejected(NoCredentials)
      case Some(headers) =>
        match BuildWorkflowEndpoint(Get(body, "apiBase"), apiEnv)
        case NoEndpoint => Rejected(NoApiAddress)
        case Throws => Thrown
        case Endpoint(url) => Forward(url, headers, ImportPayload(Get(body, "name"), resolved))
  }

  /** An unusable workflow is refused before credentials or the endpoint are looked at. */
  lemma TemplateCheckedFirst(header: Option<string>, body: Value, authEnv: AuthEnv, apiEnv: ApiEnv,
                             header': Option<string>, authEnv': AuthEnv, apiEnv': ApiEnv,
                             disk: string -> Value, base64: string -> string)
    requires !HasWorkflow(Resolved(body, disk))
    ensures DecideImport(header, body, authEnv, apiEnv, disk, base64)
         == DecideImport(header', body, authEnv', apiEnv', disk, base64)
  {
  }

  /** Missing credentials are reported whatever the endpoint configuration is. */
  lemma CredentialsBeforeEndpoint(header: Option<string>, body: Value, authEnv: AuthEnv, apiEnv: ApiEnv, apiEnv': ApiEnv,
                                  disk: string -> Value, base64: string -> string)
    requires BuildAuthHeaders(header, body, authEnv, base64).None?
    ensures DecideImport(header, body, authEnv, apiEnv, disk, base64)
         == DecideImport(header, body, authEnv, apiEnv', disk, base64)
  {
  }

  /** An inline workflow is used as it is; the template files are not read. */
  lemma InlineWorkflowWins(body: Value, disk: string -> Value, disk': string -> Value)
    requires Truthy(Get(body, "workflow"))
    ensures Resolved(body, disk) == Resolved(body, disk') == Get(body, "workflow")
  {
  }

  /**
   * A forwarded request carries the workflow's nodes and connections and a
   * non-empty name, chosen from the body's `name`, the workflow's name and the default.
   */
  lemma ForwardedPayload(header: Option<string>, body: Value, authEnv: AuthEnv, apiEnv: ApiEnv,
                         disk: string -> Value, base64: string -> string)
    requires DecideImport(header, body, authEnv, apiEnv, disk, base64).Forward?
    ensures var d := DecideImport(header, body, authEnv, apiEnv, disk, base64);
      var resolved := Resolved(body, disk);
      && Truthy(Get(d.payload, "nodes")) && Truthy(Get(d.payload, "connections"))
      && Get(d.payload, "nodes") == Get(resolved, "nodes")
      && Get(d.payload, "connections") == Get(resolved, "connections")
      && Truthy(Get(d.payload, "name"))
      && HeaderValue(d.headers, "Content-Type") == Some("application/json")
  {
  }
}
