/** When validation returns: the active-reference guard, and what escapes it. */
module SchemaTermination {
  import opened JsonValue
  import opened SchemaGraph
  import opened SchemaLaws

  // ---------------------------------------------------------------------
  // Height of an instance
  // ---------------------------------------------------------------------

  ghost function Maximum(s: set<nat>): (r: nat)
    ensures forall x :: x in s ==> x <= r
  {
    if s == {} then 0
    else
      var x :| x in s;
      var rest := Maximum(s - {x});
      assert forall y :: y in s ==> y == x || y in s - {x};
      if x > rest then x else rest
  }

  ghost function Height(j: Json): nat {
    match j
    case Arr(items) => 1 + Maximum(set i | 0 <= i < |items| :: Height(items[i]))
    case Obj(members) => 1 + Maximum(set k | k in members :: Height(members[k]))
    case _ => 0
  }

  /** Elements, members and member names are lower than their container. */
  lemma PartsAreLower(j: Json)
    ensures j.Arr? ==> forall i :: 0 <= i < |j.items| ==> Height(j.items[i]) < Height(j)
    ensures j.Obj? ==> forall k :: k in j.members ==> Height(j.members[k]) < Height(j) && Height(Str(k)) < Height(j)
  {
    match j
    case Arr(items) =>
      var heights := set i | 0 <= i < |items| :: Height(items[i]);
      assert forall i :: 0 <= i < |items| ==> Height(items[i]) in heights;
    case Obj(members) =>
      var heights := set k | k in members :: Height(members[k]);
      assert forall k :: k in members ==> Height(members[k]) in heights;
    case _ =>
  }

  // ---------------------------------------------------------------------
  // Stratified graphs
  // ---------------------------------------------------------------------

  /**
   * What compilation guarantees of the keywords of node `n` (children precede
   * their parent; below the instance, or at a member name, the instance gets
   * lower), and the stratification: `level` never rises along a reference or an
   * applicator on the same context, and falls when a subschema is tried on the
   * same instance in a context of its own.
   */
  ghost predicate StratifiedAction(s: Schema, level: seq<nat>, n: nat, x: Json, act: Action)
    requires |level| == |s.nodes| && n < |level|
    decreases act
  {
    match act
    case Guarded(body) => forall i :: 0 <= i < |body| ==> StratifiedAction(s, level, n, x, body[i])
    case Fail(_) => true
    case Mark(_) => true
    case Visit(child, instance, step, _) =>
      && child < |level|
      && (Height(instance) < Height(x) || (instance == x && step == [] && child < n && level[child] <= level[n]))
    case Unevaluated(_, child, instance) => child < |level| && Height(instance) < Height(x)
    case AnyOf(children) => forall i :: 0 <= i < |children| ==> children[i] < |level| && level[children[i]] < level[n]
    case OneOf(children) => forall i :: 0 <= i < |children| ==> children[i] < |level| && level[children[i]] < level[n]
    case Not(child) => child < |level| && level[child] < level[n]
    case IfThenElse(condition, thenChild, elseChild) =>
      && condition < |level| && level[condition] < level[n]
      && (thenChild.Some? ==> thenChild.value < n && level[thenChild.value] <= level[n])
      && (elseChild.Some? ==> elseChild.value < n && level[elseChild.value] <= level[n])
    case Contains(child, items, _, _) =>
      child < |level| && forall i :: 0 <= i < |items| ==> Height(items[i]) < Height(x)
  }

  ghost predicate StratifiedTarget(level: seq<nat>, n: nat, target: nat)
    requires n < |level|
  {
    target < |level| && level[target] <= level[n]
  }

  ghost predicate StratifiedNode(s: Schema, level: seq<nat>, n: nat)
    requires |level| == |s.nodes| && n < |level|
  {
    match s.nodes[n]
    case BooleanSchema(_) => true
    case ObjectSchema(plan, _, _) =>
      forall x: Json, i :: 0 <= i < |plan(x)| ==> StratifiedAction(s, level, n, x, plan(x)[i])
    case RefSchema(target, _) => target.Some? ==> StratifiedTarget(level, n, target.value)
    case DynamicRefSchema(target, anchor) =>
      target.Some? ==>
        && StratifiedTarget(level, n, target.value)
        && forall r :: r in s.resourceAnchors && anchor in s.resourceAnchors[r] ==>
                         StratifiedTarget(level, n, s.resourceAnchors[r][anchor])
  }

  ghost predicate Stratified(s: Schema, level: seq<nat>) {
    && |level| == |s.nodes| && s.root < |s.nodes|
    && forall n :: 0 <= n < |level| ==> StratifiedNode(s, level, n)
  }

  /** Every scope on the stack is the anchor map of some resource. */
  ghost predicate ScopeOfSchema(f: Frame) {
    forall i :: 0 <= i < |f.scope| ==> IsResourceMap(f.schema, f.scope[i])
  }

  ghost predicate IsResourceMap(s: Schema, anchors: map<Text, nat>) {
    exists r :: r in s.resourceAnchors && anchors == s.resourceAnchors[r]
  }

  lemma PushedScope(f: Frame, resource: Option<nat>)
    requires ScopeOfSchema(f)
    ensures ScopeOfSchema(PushResource(f, resource))
  {
  }

  /** A resolved anchor comes from the outermost scope entry that has it. */
  lemma ResolvedFromScope(scope: Scope, anchor: Text) returns (i: nat)
    requires ResolveAnchor(scope, anchor).Some?
    ensures i < |scope| && anchor in scope[i] && scope[i][anchor] == ResolveAnchor(scope, anchor).value
    ensures forall j :: 0 <= j < i ==> anchor !in scope[j]
  {
    i := 0;
    if anchor !in scope[0] {
      var k := ResolvedFromScope(scope[1..], anchor);
      i := k + 1;
    }
  }

  /** A dynamic reference goes to its static target or to a node some resource declares under its anchor. */
  lemma DynamicTargetIsDeclared(f: Frame, target: nat, anchor: Text)
    requires ScopeOfSchema(f)
    ensures var to := DynamicTarget(f, target, anchor);
            || to == target
            || exists r :: && r in f.schema.resourceAnchors && anchor in f.schema.resourceAnchors[r]
                           && f.schema.resourceAnchors[r][anchor] == to
  {
    if ResolveAnchor(f.scope, anchor).Some? {
      var i := ResolvedFromScope(f.scope, anchor);
      var r :| r in f.schema.resourceAnchors && f.scope[i] == f.schema.resourceAnchors[r];
    }
  }

  lemma DynamicTargetInLevel(level: seq<nat>, n: nat, f: Frame, target: nat, anchor: Text)
    requires Stratified(f.schema, level) && n < |level| && ScopeOfSchema(f)
    requires f.schema.nodes[n] == DynamicRefSchema(Some(target), anchor)
    ensures StratifiedTarget(level, n, DynamicTarget(f, target, anchor))
  {
    assert StratifiedNode(f.schema, level, n);
    DynamicTargetIsDeclared(f, target, anchor);
  }

  // ---------------------------------------------------------------------
  // Termination
  // ---------------------------------------------------------------------

  /** The reference targets the guard would still let through at the current instance path. */
  ghost function Inactive(f: Frame): set<nat> {
    set t | 0 <= t < |f.schema.nodes| && (t, f.at) !in f.active
  }

  /**
   * On a stratified graph every run returns, whatever the instance, the mode,
   * and the references already active. The measure: the height of the
   * instance, then the level, then the targets not active at this path, then
   * the node's index.
   */
  lemma {:induction false} NodeReturns(level: seq<nat>, n: nat, f: Frame, st: State) returns (fuel: nat)
    requires Stratified(f.schema, level) && n < |level| && ScopeOfSchema(f) && f.guarded
    ensures RunNode(fuel, n, f, st).Some?
    decreases Height(f.instance), level[n], |Inactive(f)|, n, 3
  {
    assert StratifiedNode(f.schema, level, n);
    match f.schema.nodes[n]
    case BooleanSchema(_) =>
      fuel := 1;
    case ObjectSchema(plan, tracked, selfIndex) =>
      var inner := if tracked then State(st.errors, Some({})) else st;
      PushedScope(f, selfIndex);
      var below := ActionsReturn(level, n, plan(f.instance), PushResource(f, selfIndex), inner);
      fuel := below + 1;
    case RefSchema(target, selfIndex) =>
      fuel := 1;
      if target.Some? {
        PushedScope(f, selfIndex);
        var below := TargetReturns(level, n, target.value, PushResource(f, selfIndex), st);
        fuel := below + 1;
      }
    case DynamicRefSchema(target, anchor) =>
      fuel := 1;
      if target.Some? {
        DynamicTargetInLevel(level, n, f, target.value, anchor);
        var below := TargetReturns(level, n, DynamicTarget(f, target.value, anchor), f, st);
        fuel := below + 1;
      }
  }

  lemma {:induction false} TargetReturns(level: seq<nat>, n: nat, target: nat, f: Frame, st: State) returns (fuel: nat)
    requires Stratified(f.schema, level) && n < |level| && ScopeOfSchema(f) && f.guarded
    requires StratifiedTarget(level, n, target)
    ensures RunTarget(fuel, target, f, st).Some?
    decreases Height(f.instance), level[n], |Inactive(f)|, n, 2
  {
    fuel := 0;
    if (target, f.at) !in f.active {
      var next := PushResource(f, Some(target)).(active := f.active + [(target, f.at)]);
      PushedScope(f, Some(target));
      assert Inactive(next) == Inactive(f) - {target};
      fuel := NodeReturns(level, target, next, st);
    }
  }

  lemma {:induction false} ActionsReturn(level: seq<nat>, n: nat, acts: seq<Action>, f: Frame, st: State)
    returns (fuel: nat)
    requires Stratified(f.schema, level) && n < |level| && ScopeOfSchema(f) && f.guarded
    requires forall i :: 0 <= i < |acts| ==> StratifiedAction(f.schema, level, n, f.instance, acts[i])
    ensures RunActions(fuel, acts, f, st).Some?
    decreases Height(f.instance), level[n], |Inactive(f)|, n, 1, acts
  {
    fuel := 0;
    if acts != [] {
      var first := ActionReturns(level, n, acts[0], f, st);
      var next := RunAction(first, acts[0], f, st).value;
      var rest := ActionsReturn(level, n, acts[1..], f, next);
      fuel := if first > rest then first else rest;
      ActionMonotone(first, fuel, acts[0], f, st);
      ActionsMonotone(rest, fuel, acts[1..], f, next);
    }
  }

  lemma {:induction false} ActionReturns(level: seq<nat>, n: nat, act: Action, f: Frame, st: State) returns (fuel: nat)
    requires Stratified(f.schema, level) && n < |level| && ScopeOfSchema(f) && f.guarded
    requires StratifiedAction(f.schema, level, n, f.instance, act)
    ensures RunAction(fuel, act, f, st).Some?
    decreases Height(f.instance), level[n], |Inactive(f)|, n, 1, act
  {
    match act
    case Guarded(body) =>
      fuel := ActionsReturn(level, n, body, f, st);
    case Fail(_) =>
      fuel := 0;
    case Mark(_) =>
      fuel := 0;
    case Visit(child, instance, step, suspended) =>
      var below := f.(instance := instance, at := f.at + step);
      if step == [] {
        assert below.at == f.at;
      }
      fuel := NodeReturns(level, child, below, if suspended then State(st.errors, None) else st);
    case Unevaluated(place, child, instance) =>
      fuel := NodeReturns(level, child, f.(instance := instance, at := f.at + [place]), st);
    case _ =>
      fuel := ProbingReturns(level, n, act, f, st);
  }

  /** A probe's own context is on a lower instance, or on the same one at a lower level. */
  ghost predicate LowerProbe(level: seq<nat>, n: nat, f: Frame, p: Probe)
    requires n < |level|
  {
    && p.child < |level|
    && (Height(p.instance) < Height(f.instance) || (p.instance == f.instance && level[p.child] < level[n]))
  }

  lemma {:induction false} ProbingReturns(level: seq<nat>, n: nat, act: Action, f: Frame, st: State) returns (fuel: nat)
    requires Stratified(f.schema, level) && n < |level| && ScopeOfSchema(f) && f.guarded
    requires act.Probes() && StratifiedAction(f.schema, level, n, f.instance, act)
    ensures RunAction(fuel, act, f, st).Some?
    decreases Height(f.instance), level[n], |Inactive(f)|, n, 0, 1
  {
    var probes, limit := ProbesOf(act, f.instance, st.tracker.Some?), LimitOf(act, st.tracker.Some?);
    assert forall i :: 0 <= i < |probes| ==> LowerProbe(level, n, f, probes[i]);
    fuel := ProbesReturn(level, n, f, probes, 0, limit, []);
    var hits := RunProbes(fuel, f, probes, 0, limit, []).value;
    var branch := Branch(act, hits);
    if branch.Some? {
      var after := NodeReturns(level, branch.value, f, Conclude(act, hits, f.at, st));
      var both := if after > fuel then after else fuel;
      NodeMonotone(after, both, branch.value, f, Conclude(act, hits, f.at, st));
      ProbesMonotone(fuel, both, f, probes, 0, limit, []);
      fuel := both;
    }
  }

  lemma {:induction false} ProbesReturn(level: seq<nat>, n: nat, f: Frame, probes: seq<Probe>, i: nat,
                                        limit: Option<nat>, hits: seq<Hit>) returns (fuel: nat)
    requires i <= |probes| && ScopeOfSchema(f) && f.guarded
    requires Stratified(f.schema, level) && n < |level|
    requires forall k :: 0 <= k < |probes| ==> LowerProbe(level, n, f, probes[k])
    ensures RunProbes(fuel, f, probes, i, limit, hits).Some?
    decreases Height(f.instance), level[n], |Inactive(f)|, n, 0, 0, |probes| - i
  {
    fuel := 0;
    if i < |probes| && !(limit.Some? && |hits| >= limit.value) {
      var p := probes[i];
      var one := NodeReturns(level, p.child, ProbeFrame(f, p), ProbeState(p));
      var out := RunNode(one, p.child, ProbeFrame(f, p), ProbeState(p)).value;
      var more := if out.IsValid() then hits + [Hit(i, out.tracker.GetOr({}))] else hits;
      var rest := ProbesReturn(level, n, f, probes, i + 1, limit, more);
      fuel := if one > rest then one else rest;
      NodeMonotone(one, fuel, p.child, ProbeFrame(f, p), ProbeState(p));
      ProbesMonotone(rest, fuel, f, probes, i + 1, limit, more);
    }
  }

  /** Both validators return on every instance of a stratified schema, however its references are cyclic. */
  lemma ValidationReturns(schema: Schema, level: seq<nat>, instance: Json, stopOnFirstError: bool) returns (fuel: nat)
    requires Stratified(schema, level)
    ensures RunRoot(fuel, schema, instance, stopOnFirstError).Some?
  {
    fuel := NodeReturns(level, schema.root, RootFrame(schema, instance, stopOnFirstError), State([], None));
  }

  // ---------------------------------------------------------------------
  // Where the guard is all that is needed
  // ---------------------------------------------------------------------

  /** No subschema is tried on the instance itself in a context of its own. */
  ghost predicate StaysInContext(size: nat, n: nat, x: Json, act: Action)
    decreases act
  {
    match act
    case Guarded(body) => forall i :: 0 <= i < |body| ==> StaysInContext(size, n, x, body[i])
    case Fail(_) => true
    case Mark(_) => true
    case Visit(child, instance, step, _) =>
      child < size && (Height(instance) < Height(x) || (instance == x && step == [] && child < n))
    case Unevaluated(_, child, instance) => child < size && Height(instance) < Height(x)
    case Contains(child, items, _, _) =>
      child < size && forall i :: 0 <= i < |items| ==> Height(items[i]) < Height(x)
    case _ => false
  }

  ghost predicate PlainNode(s: Schema, n: nat)
    requires n < |s.nodes|
  {
    match s.nodes[n]
    case BooleanSchema(_) => true
    case ObjectSchema(plan, _, _) => forall x: Json, i :: 0 <= i < |plan(x)| ==>
                                       StaysInContext(|s.nodes|, n, x, plan(x)[i])
    case RefSchema(target, _) => target.Some? ==> target.value < |s.nodes|
    case DynamicRefSchema(target, anchor) =>
      target.Some? ==>
        && target.value < |s.nodes|
        && forall r :: r in s.resourceAnchors && anchor in s.resourceAnchors[r] ==>
             s.resourceAnchors[r][anchor] < |s.nodes|
  }

  lemma {:induction false} PlainActionIsStratified(s: Schema, level: seq<nat>, n: nat, x: Json, act: Action)
    requires |level| == |s.nodes| && n < |level| && forall k :: 0 <= k < |level| ==> level[k] == 0
    requires StaysInContext(|level|, n, x, act)
    ensures StratifiedAction(s, level, n, x, act)
    decreases act
  {
    if act.Guarded? {
      forall i | 0 <= i < |act.body|
        ensures StratifiedAction(s, level, n, x, act.body[i])
      {
        PlainActionIsStratified(s, level, n, x, act.body[i]);
      }
    }
  }

  /** References may be cyclic in any way: as long as they stay in one context the guard ends every run. */
  lemma ReferenceCyclesReturn(s: Schema, instance: Json, stopOnFirstError: bool) returns (fuel: nat)
    requires s.root < |s.nodes| && forall n :: 0 <= n < |s.nodes| ==> PlainNode(s, n)
    ensures RunRoot(fuel, s, instance, stopOnFirstError).Some?
  {
    var level: seq<nat> := seq(|s.nodes|, _ => 0);
    forall n | 0 <= n < |level|
      ensures StratifiedNode(s, level, n)
    {
      assert PlainNode(s, n);
      if s.nodes[n].ObjectSchema? {
        forall x: Json, i | 0 <= i < |s.nodes[n].plan(x)|
          ensures StratifiedAction(s, level, n, x, s.nodes[n].plan(x)[i])
        {
          PlainActionIsStratified(s, level, n, x, s.nodes[n].plan(x)[i]);
        }
      }
    }
    fuel := ValidationReturns(s, level, instance, stopOnFirstError);
  }

  /** {"$ref": "#"} is reported, not followed for ever. */
  lemma SelfReferenceIsReported(instance: Json, stopOnFirstError: bool)
    ensures RunRoot(2, Schema([RefSchema(Some(0), None)], 0, map[], map[]), instance, stopOnFirstError) ==
            Some(State([ValidationError([], RefCycleDetected)], None))
  {
    var s := Schema([RefSchema(Some(0), None)], 0, map[], map[]);
    var f := RootFrame(s, instance, stopOnFirstError);
    var g := PushResource(f, Some(0)).(active := f.active + [(0, f.at)]);
    var st := State([], None);
    assert f.active == [] && (0, f.at) in g.active && PushResource(f, None) == f && PushResource(g, None) == g;
    var e := ValidationError([], RefCycleDetected);
    assert [] + [e] == [e];
    assert RunTarget(0, 0, g, st) == Some(State([e], None));
    assert RunNode(1, 0, g, st) == RunTarget(0, 0, g, st);
    assert RunTarget(1, 0, f, st) == RunNode(1, 0, g, st);
    assert RunNode(2, 0, f, st) == RunTarget(1, 0, f, st);
  }
}
