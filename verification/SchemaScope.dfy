/** The dynamic scope, which subschemas tried in contexts of their own start without. */
module SchemaScope {
  import opened JsonValue
  import opened SchemaGraph
  import opened SchemaTermination

  // ---------------------------------------------------------------------
  // When an outer scope matters
  // ---------------------------------------------------------------------

  /** Entries further out go first. */
  lemma {:induction false} ResolveAppended(outer: Scope, inner: Scope, anchor: Text)
    ensures ResolveAnchor(outer + inner, anchor) ==
            if ResolveAnchor(outer, anchor).Some? then ResolveAnchor(outer, anchor) else ResolveAnchor(inner, anchor)
  {
    if outer == [] {
      assert outer + inner == inner;
    } else {
      assert (outer + inner)[0] == outer[0] && (outer + inner)[1..] == outer[1..] + inner;
      ResolveAppended(outer[1..], inner, anchor);
    }
  }

  /** Entering a resource that declares the anchor gives it a node unless an entry further out does. */
  lemma EnteredInside(f: Frame, resource: nat, anchor: Text)
    ensures var declared := f.schema.resourceAnchors;
            ResolveAnchor(PushResource(f, Some(resource)).scope, anchor) ==
            if ResolveAnchor(f.scope, anchor).Some? then ResolveAnchor(f.scope, anchor)
            else if resource in declared && anchor in declared[resource] then Some(declared[resource][anchor])
            else None
    ensures PushResource(f, None) == f
  {
    if resource in f.schema.resourceAnchors {
      ResolveAppended(f.scope, [f.schema.resourceAnchors[resource]], anchor);
    }
  }

  /** The static target declares the anchor, a plain name and not a pointer. */
  predicate DeclaredThere(s: Schema, target: nat, anchor: Text) {
    target in s.anchorNames && s.anchorNames[target] == anchor && anchor != [] && anchor[0] != '/' as int
  }

  /**
   * Where a reference goes without the outer part of its scope, it goes with
   * it exactly if it is not resolved dynamically, or no outer entry declares
   * the anchor, or the outermost that does names the same node.
   */
  lemma OuterScopeMattersNot(f: Frame, outer: Scope, inner: Scope, target: nat, anchor: Text)
    ensures DynamicTarget(f.(scope := outer + inner), target, anchor) ==
            DynamicTarget(f.(scope := inner), target, anchor)
            <==>
            || !DeclaredThere(f.schema, target, anchor)
            || ResolveAnchor(outer, anchor).None?
            || ResolveAnchor(outer, anchor).value == ResolveAnchor(inner, anchor).GetOr(target)
  {
    ResolveAppended(outer, inner, anchor);
  }

  // ---------------------------------------------------------------------
  // References that go to the same node in every scope
  // ---------------------------------------------------------------------

  /** Every resource that declares the anchor declares it at the static target. */
  predicate DeclaredOnce(s: Schema, target: nat, anchor: Text) {
    forall r :: r in s.resourceAnchors && anchor in s.resourceAnchors[r] ==> s.resourceAnchors[r][anchor] == target
  }

  /** A reference goes to its static target in every scope exactly if no resource declares its anchor elsewhere. */
  lemma StaticInEveryScope(s: Schema, target: nat, anchor: Text)
    ensures (forall f: Frame :: f.schema == s && ScopeOfSchema(f) ==> DynamicTarget(f, target, anchor) == target) <==>
            (DeclaredThere(s, target, anchor) ==> DeclaredOnce(s, target, anchor))
  {
    if DeclaredThere(s, target, anchor) ==> DeclaredOnce(s, target, anchor) {
      forall f: Frame | f.schema == s && ScopeOfSchema(f)
        ensures DynamicTarget(f, target, anchor) == target
      {
        DynamicTargetIsDeclared(f, target, anchor);
      }
    } else {
      var r :| && r in s.resourceAnchors && anchor in s.resourceAnchors[r]
               && s.resourceAnchors[r][anchor] != target;
      var f := Frame(s, false, Null, [], [s.resourceAnchors[r]], [], true, false);
      assert IsResourceMap(s, f.scope[0]) && ScopeOfSchema(f);
      assert ResolveAnchor(f.scope, anchor) == Some(s.resourceAnchors[r][anchor]);
      assert DynamicTarget(f, target, anchor) != target;
    }
  }

  ghost predicate StaticNode(s: Schema, node: Node) {
    node.DynamicRefSchema? && node.target.Some? && DeclaredThere(s, node.target.value, node.anchor) ==>
      DeclaredOnce(s, node.target.value, node.anchor)
  }

  ghost predicate Static(s: Schema) {
    forall n :: 0 <= n < |s.nodes| ==> StaticNode(s, s.nodes[n])
  }

  /** Frames that differ at most in their scope, and in whether it is inherited. */
  ghost predicate UpToScope(f: Frame, g: Frame) {
    && Static(f.schema) && g == f.(scope := g.scope, inherits := g.inherits)
    && ScopeOfSchema(f) && ScopeOfSchema(g)
  }

  lemma {:induction false} NodeIgnoresScope(fuel: nat, n: nat, f: Frame, g: Frame, st: State)
    requires UpToScope(f, g)
    ensures RunNode(fuel, n, g, st) == RunNode(fuel, n, f, st)
    decreases fuel, 0
  {
    if fuel > 0 && n < |f.schema.nodes| {
      match f.schema.nodes[n]
      case BooleanSchema(_) =>
      case ObjectSchema(plan, tracked, selfIndex) =>
        PushedScope(f, selfIndex);
        PushedScope(g, selfIndex);
        ActionsIgnoreScope(fuel - 1, plan(f.instance), PushResource(f, selfIndex), PushResource(g, selfIndex),
                           if tracked then State(st.errors, Some({})) else st);
      case RefSchema(target, selfIndex) =>
        if target.Some? {
          PushedScope(f, selfIndex);
          PushedScope(g, selfIndex);
          TargetIgnoresScope(fuel - 1, target.value, PushResource(f, selfIndex), PushResource(g, selfIndex), st);
        }
      case DynamicRefSchema(target, anchor) =>
        if target.Some? {
          assert StaticNode(f.schema, f.schema.nodes[n]);
          StaticInEveryScope(f.schema, target.value, anchor);
          TargetIgnoresScope(fuel - 1, target.value, f, g, st);
        }
    }
  }

  lemma {:induction false} TargetIgnoresScope(fuel: nat, target: nat, f: Frame, g: Frame, st: State)
    requires UpToScope(f, g)
    ensures RunTarget(fuel, target, g, st) == RunTarget(fuel, target, f, st)
    decreases fuel, 1
  {
    PushedScope(f, Some(target));
    PushedScope(g, Some(target));
    NodeIgnoresScope(fuel, target, PushResource(f, Some(target)).(active := f.active + [(target, f.at)]),
                     PushResource(g, Some(target)).(active := g.active + [(target, g.at)]), st);
  }

  lemma {:induction false} ActionsIgnoreScope(fuel: nat, acts: seq<Action>, f: Frame, g: Frame, st: State)
    requires UpToScope(f, g)
    ensures RunActions(fuel, acts, g, st) == RunActions(fuel, acts, f, st)
    decreases fuel, 2, acts
  {
    if acts != [] {
      ActionIgnoresScope(fuel, acts[0], f, g, st);
      if RunAction(fuel, acts[0], f, st).Some? {
        ActionsIgnoreScope(fuel, acts[1..], f, g, RunAction(fuel, acts[0], f, st).value);
      }
    }
  }

  lemma {:induction false} ActionIgnoresScope(fuel: nat, act: Action, f: Frame, g: Frame, st: State)
    requires UpToScope(f, g)
    ensures RunAction(fuel, act, g, st) == RunAction(fuel, act, f, st)
    decreases fuel, 2, act
  {
    match act
    case Guarded(body) => ActionsIgnoreScope(fuel, body, f, g, st);
    case Fail(_) =>
    case Mark(_) =>
    case Visit(child, instance, step, suspended) =>
      NodeIgnoresScope(fuel, child, f.(instance := instance, at := f.at + step),
                       g.(instance := instance, at := g.at + step),
                       if suspended then State(st.errors, None) else st);
    case Unevaluated(place, child, instance) =>
      NodeIgnoresScope(fuel, child, f.(instance := instance, at := f.at + [place]),
                       g.(instance := instance, at := g.at + [place]), st);
    case _ => ProbingIgnoresScope(fuel, act, f, g, st);
  }

  lemma {:induction false} ProbingIgnoresScope(fuel: nat, act: Action, f: Frame, g: Frame, st: State)
    requires UpToScope(f, g) && act.Probes()
    ensures RunAction(fuel, act, g, st) == RunAction(fuel, act, f, st)
    decreases fuel, 1
  {
    var probes, limit := ProbesOf(act, f.instance, st.tracker.Some?), LimitOf(act, st.tracker.Some?);
    ProbesIgnoreScope(fuel, f, g, probes, 0, limit, []);
    var hits := RunProbes(fuel, f, probes, 0, limit, []);
    if hits.Some? && Branch(act, hits.value).Some? {
      NodeIgnoresScope(fuel, Branch(act, hits.value).value, f, g, Conclude(act, hits.value, f.at, st));
    }
  }

  lemma {:induction false} ProbesIgnoreScope(fuel: nat, f: Frame, g: Frame, probes: seq<Probe>, i: nat,
                                             limit: Option<nat>, hits: seq<Hit>)
    requires UpToScope(f, g) && i <= |probes|
    ensures RunProbes(fuel, g, probes, i, limit, hits) == RunProbes(fuel, f, probes, i, limit, hits)
    decreases fuel, 1, |probes| - i
  {
    if i < |probes| && !(limit.Some? && |hits| >= limit.value) {
      NodeIgnoresScope(fuel, probes[i].child, ProbeFrame(f, probes[i]), ProbeFrame(g, probes[i]),
                       ProbeState(probes[i]));
      var out := RunNode(fuel, probes[i].child, ProbeFrame(f, probes[i]), ProbeState(probes[i]));
      if out.Some? {
        ProbesIgnoreScope(fuel, f, g, probes, i + 1, limit,
                          if out.value.IsValid() then hits + [Hit(i, out.value.tracker.GetOr({}))] else hits);
      }
    }
  }

  // ---------------------------------------------------------------------
  // Whole runs
  // ---------------------------------------------------------------------

  /** The recursion in which tried subschemas inherit the dynamic scope, as the specification has it. */
  function RunInheriting(fuel: nat, s: Schema, instance: Json, stopOnFirstError: bool): Option<State> {
    RunNode(fuel, s.root, RootFrame(s, instance, stopOnFirstError).(inherits := true), State([], None))
  }

  /**
   * Where every resource that declares the anchor of a dynamic reference
   * declares it at the static target, no run depends on the scope: it makes no
   * difference that tried subschemas do not inherit it.
   */
  lemma ScopeMakesNoDifference(fuel: nat, s: Schema, instance: Json, stopOnFirstError: bool)
    requires Static(s)
    ensures RunInheriting(fuel, s, instance, stopOnFirstError) == RunRoot(fuel, s, instance, stopOnFirstError)
  {
    var f := RootFrame(s, instance, stopOnFirstError);
    PushedScope(f.(scope := []), Some(s.root));
    NodeIgnoresScope(fuel, s.root, f, f.(inherits := true), State([], None));
  }
}
