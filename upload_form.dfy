/**
 * The upload form of src/components/TemplateUploadModal.tsx: the comma lists for
 * tags and credentials, the workflow JSON check, and the template that a submit
 * hands to the upload.
 */
module UploadForm {
  import opened Options
  import opened Seqs
  import opened JsStrings
  import opened JsValues
  import opened Slug
  import opened Templates

  /** The form fields; `diagramPreview` is the data URL of a chosen diagram image, if any. */
  datatype FormState = FormState(
    name: string,
    description: string,
    difficulty: Difficulty,
    estimatedSetupMinutes: int,
    credentials: string,
    tags: string,
    diagramCaption: string,
    heroColor: string,
    json: string,
    diagramPreview: Option<string>)

  const Gradients: seq<string> := [
    "linear-gradient(135deg, #7c3aed, #14b8a6)",
    "linear-gradient(135deg, #0ea5e9, #6366f1)",
    "linear-gradient(135deg, #f97316, #f43f5e)",
    "linear-gradient(135deg, #22d3ee, #6366f1)",
    "linear-gradient(135deg, #34d399, #10b981)"
  ]

  const InitialState := FormState("", "", Beginner, 5, "", "", "", Gradients[0], "", None)

  /** Why the workflow JSON is refused: it does not parse, it is `null`, or it lacks nodes or connections. */
  datatype JsonError = ParseFailed | NullDocument | MissingNodesOrConnections

  /** Why a submit stops before the upload. */
  datatype SubmitError = MissingTitle | BadWorkflowJson(reason: JsonError)

  /** `value.split(',').map((x) => x.trim()).filter(Boolean)`. */
  function ParseCommaList(value: string): (r: seq<string>)
    ensures forall i :: 0 <= i < |r| ==> r[i] != "" && Trim(r[i]) == r[i] && ',' !in r[i]
  {
    var pieces := Split(value, ',');
    var trimmed := Map(pieces, Trim);
    forall i | 0 <= i < |trimmed| ensures Trim(trimmed[i]) == trimmed[i] && ',' !in trimmed[i] {
      TrimKeepsOut(pieces[i], ',');
      TrimTrimmed(trimmed[i]);
    }
    KeepClean(trimmed);
    Filter(trimmed, NonEmpty)
  }

  /** A character absent from `s` is absent from its trim. */
  lemma TrimKeepsOut(s: string, c: char)
    requires c !in s
    ensures c !in Trim(s)
  {
    var r := Trim(s);
    forall i | 0 <= i < |r| ensures r[i] != c {
      assert r[i] == s[TrimLead(s) + i];
    }
  }

  lemma KeepClean(s: seq<string>)
    requires forall i :: 0 <= i < |s| ==> Trim(s[i]) == s[i] && ',' !in s[i]
    ensures var r := Filter(s, NonEmpty); forall i :: 0 <= i < |r| ==> Trim(r[i]) == r[i] && ',' !in r[i]
  {
  }

  /** `parsedTags`. */
  function ParsedTags(form: FormState): seq<string> {
    ParseCommaList(form.tags)
  }

  /** `parsedCredentials`. */
  function ParsedCredentials(form: FormState): seq<string> {
    ParseCommaList(form.credentials)
  }

  /** The list holds exactly the non-empty trimmed pieces between the commas, in input order. */
  lemma CommaListExactly(value: string, x: string)
    ensures x in ParseCommaList(value) <==>
      x != "" && exists i :: 0 <= i < |Split(value, ',')| && Trim(Split(value, ',')[i]) == x
    ensures IsSubsequence(ParseCommaList(value), Map(Split(value, ','), Trim))
  {
    var trimmed := Map(Split(value, ','), Trim);
    FilterMembership(trimmed, NonEmpty, x);
    FilterIsSubsequence(trimmed, NonEmpty);
  }

  /** Writing a clean list with commas and parsing it gives the list back. */
  lemma CommaListRoundTrip(items: seq<string>)
    requires forall i :: 0 <= i < |items| ==> items[i] != "" && Trim(items[i]) == items[i] && ',' !in items[i]
    ensures ParseCommaList(Join(items, ',')) == items
  {
    if items == [] {
      assert Join(items, ',') == "";
      assert Map(Split("", ','), Trim) == [""] by {
        assert Split("", ',') == [""];
        assert Trim("") == "";
      }
    } else {
      assert Split(Join(items, ','), ',') == items by {
        SplitJoin(items, ',');
      }
      assert Map(items, Trim) == items;
      assert Filter(items, NonEmpty) == items;
    }
  }

  /**
   * `parseWorkflowJson()`: the form's JSON, `{}` when the field is empty, parsed
   * by `parse` (standing for `JSON.parse`; `None` when it throws), and accepted
   * only with truthy `nodes` and `connections`.
   */
  function ParseWorkflowJson(json: string, parse: string -> Option<Value>): (r: Result<Value, JsonError>)
    ensures r.Ok? ==> Truthy(Get(r.value, "nodes")) && Truthy(Get(r.value, "connections"))
    ensures r.Ok? ==> parse(if json == "" then "{}" else json) == Some(r.value)
    ensures r == Err(ParseFailed) <==> parse(if json == "" then "{}" else json).None?
    ensures r == Err(NullDocument) <==> parse(if json == "" then "{}" else json) == Some(Null)
    ensures forall v ::
      (parse(if json == "" then "{}" else json) == Some(v) && v != Null
       && Truthy(Get(v, "nodes")) && Truthy(Get(v, "connections"))) ==> r == Ok(v)
  {
    match parse(if json == "" then "{}" else json)
    case None => Err(ParseFailed)
    case Some(parsed) =>
      // reading a property of `null` throws; every other value reads as `Get` does
      if parsed.Null? then Err(NullDocument)
      else if !Truthy(Get(parsed, "nodes")) || !Truthy(Get(parsed, "connections")) then Err(MissingNodesOrConnections)
      else Ok(parsed)
  }

  /**
   * The id of a new template: the slug of its name, or, when a template already has
   * that id, the slug followed by `-` and the clock reading `later`.
   */
  function UniqueId(name: string, existingIds: set<string>, now: nat, later: nat): (id: string)
    ensures Slugify(name, now) !in existingIds ==> id == Slugify(name, now) && id !in existingIds
    ensures Slugify(name, now) in existingIds ==> id == Slugify(name, now) + "-" + DecimalString(later)
    ensures id != ""
  {
    var baseId := Slugify(name, now);
    if baseId in existingIds then baseId + "-" + DecimalString(later) else baseId
  }

  /**
   * `handleSubmit()`: the template handed to `onSubmit`, or why the submit stopped.
   * `now` is the clock reading inside `slugify`, `later` the one of the id suffix.
   */
  function HandleSubmit(form: FormState, existingIds: set<string>, now: nat, later: nat,
                        parse: string -> Option<Value>): (r: Result<WorkflowTemplate, SubmitError>)
    ensures r == Err(MissingTitle) <==> Trim(form.name) == "" || Trim(form.description) == ""
    ensures r.Err? && r.error.BadWorkflowJson? <==>
      Trim(form.name) != "" && Trim(form.description) != "" && ParseWorkflowJson(form.json, parse).Err?
    ensures r.Ok? ==> IsHydrated(r.value)
  {
    if Trim(form.name) == "" || Trim(form.description) == "" then Err(MissingTitle)
    else match ParseWorkflowJson(form.json, parse)
      case Err(e) => Err(BadWorkflowJson(e))
      case Ok(workflow) =>
        Ok(WorkflowTemplate(
          UniqueId(form.name, existingIds, now, later),
          Trim(form.name),
          Trim(form.description),
          ParsedTags(form),
          form.difficulty,
          form.heroColor,
          Get(workflow, "preview"),
          form.diagramPreview,
          if form.diagramCaption == "" then None else Some(form.diagramCaption),
          Get(workflow, "nodes"),
          Get(workflow, "connections"),
          if Truthy(Get(workflow, "settings")) then Get(workflow, "settings") else Obj([]),
          Some(ParsedCredentials(form)),
          if form.estimatedSetupMinutes == 0 then None else Some(form.estimatedSetupMinutes)))
  }

  /** The built template: trimmed texts, the parsed lists, and the defaults for the optional fields. */
  lemma SubmittedTemplate(form: FormState, existingIds: set<string>, now: nat, later: nat, parse: string -> Option<Value>)
    requires HandleSubmit(form, existingIds, now, later, parse).Ok?
    ensures var t := HandleSubmit(form, existingIds, now, later, parse).value;
      var workflow := ParseWorkflowJson(form.json, parse).value;
      && t.name == Trim(form.name) && t.name != "" && t.description == Trim(form.description) && t.description != ""
      && t.id == UniqueId(form.name, existingIds, now, later)
      && t.tags == ParsedTags(form) && t.credentials == Some(ParsedCredentials(form))
      && t.nodes == Get(workflow, "nodes") && t.connections == Get(workflow, "connections")
      && t.difficulty == form.difficulty && t.heroColor == form.heroColor
      && t.preview == Get(workflow, "preview") && t.diagramImage == form.diagramPreview
      && Truthy(t.settings)
      && t.settings == (if Truthy(Get(workflow, "settings")) then Get(workflow, "settings") else Obj([]))
      && t.diagramCaption == (if form.diagramCaption == "" then None else Some(form.diagramCaption))
      && t.estimatedSetupMinutes == (if form.estimatedSetupMinutes == 0 then None else Some(form.estimatedSetupMinutes))
  {
  }

  /** The title is checked before the JSON is read. */
  lemma TitleCheckedFirst(form: FormState, existingIds: set<string>, now: nat, later: nat,
                          parse: string -> Option<Value>, parse': string -> Option<Value>)
    requires Trim(form.name) == "" || Trim(form.description) == ""
    ensures HandleSubmit(form, existingIds, now, later, parse) == HandleSubmit(form, existingIds, now, later, parse')
  {
  }

  /**
   * The suffix does not make the id unique: when a template already has the
   * suffixed id too, the new template gets that id anyway.
   */
  lemma SuffixedIdMayCollide(base: string, now: nat, later: nat)
    requires IsSlug(base)
    ensures var taken := {base, base + "-" + DecimalString(later)};
      UniqueId(base, taken, now, later) in taken
  {
    SlugIsFixedPoint(base, now);
  }
}
