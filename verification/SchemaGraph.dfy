/** Compiled schemas and what validating an instance against one of their nodes does. */
module SchemaGraph {
  import opened JsonValue

  /** One step of an instance path; also what an evaluation tracker records. */
  datatype Place = Property(name: Text) | Item(index: nat)

  type Path = seq<Place>

  datatype ErrorKind = KeywordFailed | SchemaIsFalse | RefCycleDetected

  datatype ValidationError = ValidationError(at: Path, kind: ErrorKind)

  /**
   * What the keywords of one schema object make the validator do, in order, for
   * a given instance.
   */
  datatype Action =
    /** Runs only while `shouldContinue()`. */
    | Guarded(body: seq<Action>)
    /** An assertion that fails, at the instance or a step below it. */
    | Fail(step: Path)
    /** Records places as evaluated, if a tracker is attached. */
    | Mark(places: set<Place>)
    /** An applicator on the same context; below the instance the tracker is suspended. */
    | Visit(child: nat, instance: Json, step: Path, suspended: bool)
    /** unevaluatedProperties / unevaluatedItems for one place. */
    | Unevaluated(place: Place, child: nat, instance: Json)
    // Applicators that try subschemas in contexts of their own:
    | AnyOf(children: seq<nat>)
    | OneOf(children: seq<nat>)
    | Not(child: nat)
    | IfThenElse(condition: nat, thenChild: Option<nat>, elseChild: Option<nat>)
    | Contains(child: nat, items: seq<Json>, minContains: nat, maxContains: Option<nat>)
  {
    predicate Probes() {
      AnyOf? || OneOf? || Not? || IfThenElse? || Contains?
    }
  }

  /** A node of the flat graph; all references are node indices. */
  datatype Node =
    | BooleanSchema(value: bool)
    | ObjectSchema(plan: Json -> seq<Action>, tracked: bool, selfIndex: Option<nat>)
    | RefSchema(target: Option<nat>, selfIndex: Option<nat>)
    | DynamicRefSchema(target: Option<nat>, anchor: Text)

  /**
   * `resourceAnchors` are the $dynamicAnchor maps of resource roots,
   * `anchorNames` the $dynamicAnchor of each node that has one.
   */
  datatype Schema = Schema(
    nodes: seq<Node>,
    root: nat,
    resourceAnchors: map<nat, map<Text, nat>>,
    anchorNames: map<nat, Text>
  )

  const SLASH: CodeUnit := 0x2F

  type Scope = seq<map<Text, nat>>

  /**
   * Where the walk is: what a call of validateNode sees and leaves as it was.
   * In the library `guarded` is true and `inherits` false throughout: without
   * the guard against reference cycles, or with subschemas that inherit the
   * dynamic scope when they are tried, the same recursion is what the
   * library's is measured by.
   */
  datatype Frame = Frame(
    schema: Schema,
    stopOnFirstError: bool,
    instance: Json,
    at: Path,
    scope: Scope,
    active: seq<(nat, Path)>,
    guarded: bool,
    inherits: bool
  )

  /** What a call of validateNode changes. */
  datatype State = State(errors: seq<ValidationError>, tracker: Option<set<Place>>) {
    predicate IsValid() {
      errors == []
    }

    function AddError(at: Path, kind: ErrorKind): State {
      State(errors + [ValidationError(at, kind)], tracker)
    }

    function Marked(places: set<Place>): State {
      if tracker.Some? then State(errors, Some(tracker.value + places)) else this
    }
  }

  predicate ShouldContinue(f: Frame, st: State) {
    !f.stopOnFirstError || st.IsValid()
  }

  function PushResource(f: Frame, resource: Option<nat>): Frame {
    if resource.Some? && resource.value in f.schema.resourceAnchors then
      f.(scope := f.scope + [f.schema.resourceAnchors[resource.value]])
    else f
  }

  /** The outermost scope that knows the anchor. */
  function ResolveAnchor(scope: Scope, anchor: Text): Option<nat> {
    if scope == [] then None
    else if anchor in scope[0] then Some(scope[0][anchor])
    else ResolveAnchor(scope[1..], anchor)
  }

  /** Dynamic resolution happens only for a plain anchor that the static target declares itself. */
  predicate Bookended(s: Schema, target: nat, anchor: Text) {
    anchor != [] && anchor[0] != SLASH && target in s.anchorNames && s.anchorNames[target] == anchor
  }

  function DynamicTarget(f: Frame, target: nat, anchor: Text): nat {
    if Bookended(f.schema, target, anchor) then ResolveAnchor(f.scope, anchor).GetOr(target) else target
  }

  // ---------------------------------------------------------------------
  // Trying subschemas
  // ---------------------------------------------------------------------

  datatype Probe = Probe(child: nat, instance: Json, step: Path, tracked: bool)

  /** A probe that found no error: its position, and what it recorded. */
  datatype Hit = Hit(index: nat, places: set<Place>)

  /** A probe's own context: fail-fast, with empty scope, no active references and its own tracker. */
  function ProbeFrame(f: Frame, p: Probe): Frame {
    Frame(f.schema, true, p.instance, f.at + p.step, if f.inherits then f.scope else [], [], f.guarded, f.inherits)
  }

  function ProbeState(p: Probe): State {
    State([], if p.tracked then Some({}) else None)
  }

  function ProbesOf(act: Action, instance: Json, tracked: bool): seq<Probe>
    requires act.Probes()
  {
    match act
    case AnyOf(children) => seq(|children|, i requires 0 <= i < |children| => Probe(children[i], instance, [], tracked))
    case OneOf(children) => seq(|children|, i requires 0 <= i < |children| => Probe(children[i], instance, [], tracked))
    case Not(child) => [Probe(child, instance, [], false)]
    case IfThenElse(condition, _, _) => [Probe(condition, instance, [], tracked)]
    case Contains(child, items, minContains, maxContains) =>
      if minContains == 0 && maxContains.None? && !tracked then []
      else seq(|items|, i requires 0 <= i < |items| => Probe(child, items[i], [Item(i)], false))
  }

  /** The number of hits after which the remaining probes are skipped. */
  function LimitOf(act: Action, tracked: bool): Option<nat>
    requires act.Probes()
  {
    match act
    case AnyOf(_) => if tracked then None else Some(1)
    case OneOf(_) => Some(2)
    case Contains(_, _, _, maxContains) => if tracked || maxContains.None? then None else Some(maxContains.value + 1)
    case _ => None
  }

  function AllPlaces(hits: seq<Hit>): set<Place> {
    if hits == [] then {} else hits[0].places + AllPlaces(hits[1..])
  }

  /** The effect of the probes' outcome on the context they were started from. */
  function Conclude(act: Action, hits: seq<Hit>, at: Path, st: State): State
    requires act.Probes()
  {
    match act
    case AnyOf(_) => if hits == [] then st.AddError(at, KeywordFailed) else st.Marked(AllPlaces(hits))
    case OneOf(_) => if |hits| == 1 then st.Marked(hits[0].places) else st.AddError(at, KeywordFailed)
    case Not(_) => if hits == [] then st else st.AddError(at, KeywordFailed)
    case IfThenElse(_, _, _) => if hits == [] then st else st.Marked(hits[0].places)
    case Contains(_, _, minContains, maxContains) =>
      var marked := st.Marked(set h | h in hits :: Item(h.index));
      var low := if |hits| < minContains then marked.AddError(at, KeywordFailed) else marked;
      if maxContains.Some? && |hits| > maxContains.value then low.AddError(at, KeywordFailed) else low
  }

  /** The branch an if/then/else goes on with, on the original context. */
  function Branch(act: Action, hits: seq<Hit>): Option<nat> {
    if !act.IfThenElse? then None
    else if hits != [] then act.thenChild
    else act.elseChild
  }

  // ---------------------------------------------------------------------
  // Running a node
  // ---------------------------------------------------------------------

  /**
   * validateNode with a bound on its call depth: `None` when the bound is
   * exceeded or a node index is out of range, otherwise the state it returns
   * in. A run returns if and only if some bound gives `Some`.
   */
  function RunNode(fuel: nat, n: nat, f: Frame, st: State): Option<State>
    decreases fuel, 0
  {
    if fuel == 0 || n >= |f.schema.nodes| then None
    else
      match f.schema.nodes[n]
      case BooleanSchema(value) => Some(if value then st else st.AddError(f.at, SchemaIsFalse))
      case ObjectSchema(plan, tracked, selfIndex) =>
        var inner := if tracked then State(st.errors, Some({})) else st;
        (match RunActions(fuel - 1, plan(f.instance), PushResource(f, selfIndex), inner)
         case None => None
         case Some(out) =>
           Some(if tracked then State(out.errors, st.tracker).Marked(out.tracker.GetOr({})) else out))
      case RefSchema(target, selfIndex) =>
        if target.None? then Some(st)
        else RunTarget(fuel - 1, target.value, PushResource(f, selfIndex), st)
      case DynamicRefSchema(target, anchor) =>
        if target.None? then Some(st)
        else RunTarget(fuel - 1, DynamicTarget(f, target.value, anchor), f, st)
  }

  /** A reference: refused when the same target is already being expanded at this instance path. */
  function RunTarget(fuel: nat, target: nat, f: Frame, st: State): Option<State>
    decreases fuel, 1
  {
    if f.guarded && (target, f.at) in f.active then Some(st.AddError(f.at, RefCycleDetected))
    else RunNode(fuel, target, PushResource(f, Some(target)).(active := f.active + [(target, f.at)]), st)
  }

  function RunActions(fuel: nat, acts: seq<Action>, f: Frame, st: State): Option<State>
    decreases fuel, 2, acts
  {
    if acts == [] then Some(st)
    else
      match RunAction(fuel, acts[0], f, st)
      case None => None
      case Some(next) => RunActions(fuel, acts[1..], f, next)
  }

  function RunAction(fuel: nat, act: Action, f: Frame, st: State): Option<State>
    decreases fuel, 2, act
  {
    match act
    case Guarded(body) => if ShouldContinue(f, st) then RunActions(fuel, body, f, st) else Some(st)
    case Fail(step) => Some(st.AddError(f.at + step, KeywordFailed))
    case Mark(places) => Some(st.Marked(places))
    case Visit(child, instance, step, suspended) =>
      var inner := if suspended then State(st.errors, None) else st;
      (match RunNode(fuel, child, f.(instance := instance, at := f.at + step), inner)
       case None => None
       case Some(out) => Some(if suspended then State(out.errors, st.tracker) else out))
    case Unevaluated(place, child, instance) =>
      if !ShouldContinue(f, st) || st.tracker.None? || place in st.tracker.value then Some(st)
      else if child < |f.schema.nodes| && f.schema.nodes[child].BooleanSchema? then
        Some((if f.schema.nodes[child].value then st else st.AddError(f.at + [place], KeywordFailed)).Marked({place}))
      else
        (match RunNode(fuel, child, f.(instance := instance, at := f.at + [place]), st)
         case None => None
         case Some(out) => Some(out.Marked({place})))
    case _ =>
      match RunProbes(fuel, f, ProbesOf(act, f.instance, st.tracker.Some?), 0, LimitOf(act, st.tracker.Some?), [])
      case None => None
      case Some(hits) =>
        match Branch(act, hits)
        case None => Some(Conclude(act, hits, f.at, st))
        case Some(child) => RunNode(fuel, child, f, Conclude(act, hits, f.at, st))
  }

  /** The probes from the `i`-th on, until the limit of hits is reached. */
  function RunProbes(fuel: nat, f: Frame, probes: seq<Probe>, i: nat, limit: Option<nat>,
                     hits: seq<Hit>): Option<seq<Hit>>
    requires i <= |probes|
    decreases fuel, 1, |probes| - i
  {
    if i == |probes| || (limit.Some? && |hits| >= limit.value) then Some(hits)
    else
      match RunNode(fuel, probes[i].child, ProbeFrame(f, probes[i]), ProbeState(probes[i]))
      case None => None
      case Some(out) =>
        RunProbes(fuel, f, probes, i + 1, limit, if out.IsValid() then hits + [Hit(i, out.tracker.GetOr({}))] else hits)
  }

  // ---------------------------------------------------------------------
  // The two entry points
  // ---------------------------------------------------------------------

  function RootFrame(schema: Schema, instance: Json, stopOnFirstError: bool): Frame {
    PushResource(Frame(schema, stopOnFirstError, instance, [], [], [], true, false), Some(schema.root))
  }

  function RunRoot(fuel: nat, schema: Schema, instance: Json, stopOnFirstError: bool): Option<State> {
    RunNode(fuel, schema.root, RootFrame(schema, instance, stopOnFirstError), State([], None))
  }

  /** Validation returns. */
  ghost predicate Returns(schema: Schema, instance: Json, stopOnFirstError: bool) {
    exists fuel: nat :: RunRoot(fuel, schema, instance, stopOnFirstError).Some?
  }
}
