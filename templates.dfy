/**
 * The client's `WorkflowTemplate` record (src/data/templates.ts). Optional fields
 * hold `None`, or `Undefined` for the loosely typed ones, when the property is
 * absent; `nodes` and `connections` are absent on a list entry that has not been
 * loaded in full yet.
 */
module Templates {
  import opened Options
  import opened JsValues

  datatype Difficulty = Beginner | Intermediate | Advanced

  datatype WorkflowTemplate = WorkflowTemplate(
    id: string,
    name: string,
    description: string,
    tags: seq<string>,
    difficulty: Difficulty,
    heroColor: string,
    preview: Value,
    diagramImage: Option<string>,
    diagramCaption: Option<string>,
    nodes: Value,
    connections: Value,
    settings: Value,
    credentials: Option<seq<string>>,
    estimatedSetupMinutes: Option<int>)

  /** A template whose workflow is loaded: `template.nodes && template.connections`. */
  predicate IsHydrated(t: WorkflowTemplate) {
    Truthy(t.nodes) && Truthy(t.connections)
  }

  /** One property of `{ ...a, ...b }`: `b`'s when `b` has it, else `a`'s. */
  function PickValue(a: Value, b: Value): (r: Value)
    ensures b != Undefined ==> r == b
    ensures b == Undefined ==> r == a
  {
    if b.Undefined? then a else b
  }

  function PickOption<T>(a: Option<T>, b: Option<T>): (r: Option<T>)
    ensures b.Some? ==> r == b
    ensures b.None? ==> r == a
  {
    if b.None? then a else b
  }

  /** The property `r` of `{ ...a, ...b }` when `a` and `b` hold `x` and `y`. */
  predicate Spread(x: Value, y: Value, r: Value) {
    (y != Undefined ==> r == y) && (y == Undefined ==> r == x)
  }

  predicate SpreadOption<T(==)>(x: Option<T>, y: Option<T>, r: Option<T>) {
    (y.Some? ==> r == y) && (y.None? ==> r == x)
  }

  /**
   * `{ ...item, ...full }`: every property `full` has wins; the optional ones it
   * lacks keep `item`'s values.
   */
  function Overlay(item: WorkflowTemplate, full: WorkflowTemplate): (r: WorkflowTemplate)
    ensures r.id == full.id && r.name == full.name && r.description == full.description
    ensures r.tags == full.tags && r.difficulty == full.difficulty && r.heroColor == full.heroColor
    ensures Spread(item.nodes, full.nodes, r.nodes)
    ensures Spread(item.connections, full.connections, r.connections)
    ensures Spread(item.preview, full.preview, r.preview)
    ensures Spread(item.settings, full.settings, r.settings)
    ensures SpreadOption(item.diagramImage, full.diagramImage, r.diagramImage)
    ensures SpreadOption(item.diagramCaption, full.diagramCaption, r.diagramCaption)
    ensures SpreadOption(item.credentials, full.credentials, r.credentials)
    ensures SpreadOption(item.estimatedSetupMinutes, full.estimatedSetupMinutes, r.estimatedSetupMinutes)
  {
    WorkflowTemplate(
      full.id, full.name, full.description, full.tags, full.difficulty, full.heroColor,
      PickValue(item.preview, full.preview),
      PickOption(item.diagramImage, full.diagramImage),
      PickOption(item.diagramCaption, full.diagramCaption),
      PickValue(item.nodes, full.nodes),
      PickValue(item.connections, full.connections),
      PickValue(item.settings, full.settings),
      PickOption(item.credentials, full.credentials),
      PickOption(item.estimatedSetupMinutes, full.estimatedSetupMinutes))
  }

  /** Spreading the same template twice changes nothing more than spreading it once. */
  lemma OverlayIdempotent(item: WorkflowTemplate, full: WorkflowTemplate)
    ensures Overlay(Overlay(item, full), full) == Overlay(item, full)
  {
  }

  /** A template spread over itself is itself, and `full` spread over anything is at least as loaded as `full`. */
  lemma OverlaySelf(t: WorkflowTemplate, item: WorkflowTemplate)
    ensures Overlay(t, t) == t
    ensures IsHydrated(t) ==> IsHydrated(Overlay(item, t))
  {
  }
}
