/** The guard against reference cycles, measured by the same recursion without it. */
module SchemaGuard {
  import opened JsonValue
  import opened SchemaGraph
  import opened SchemaLaws
  import opened SchemaEntry
  import opened SchemaMeaning

  // ---------------------------------------------------------------------
  // Steady schemas
  // ---------------------------------------------------------------------

  predicate LooksAtTracker(act: Action) {
    match act
    case Guarded(body) => exists i :: 0 <= i < |body| && LooksAtTracker(body[i])
    case Unevaluated(_, _, _) => true
    case _ => false
  }

  predicate TidyActions(acts: seq<Action>, tracked: bool) {
    forall i :: 0 <= i < |acts| ==> (LooksAtTracker(acts[i]) ==> tracked)
  }

  ghost predicate TidyNode(node: Node) {
    match node
    case ObjectSchema(plan, tracked, _) => forall x: Json :: TidyActions(plan(x), tracked)
    case DynamicRefSchema(target, _) => target.None?
    case _ => true
  }

  /** No dynamic references, and only schemas with unevaluated* look at trackers. */
  ghost predicate Tidy(s: Schema) {
    forall n :: 0 <= n < |s.nodes| ==> TidyNode(s.nodes[n])
  }

  /** At the instance path only nodes of `closed` are visited. */
  predicate ClosedAction(closed: set<nat>, act: Action) {
    match act
    case Guarded(body) => forall i :: 0 <= i < |body| ==> ClosedAction(closed, body[i])
    case Visit(child, instance, step, _) => step == [] ==> child in closed && !instance.IsContainer()
    case IfThenElse(_, thenChild, elseChild) =>
      (thenChild.Some? ==> thenChild.value in closed) && (elseChild.Some? ==> elseChild.value in closed)
    case _ => true
  }

  ghost predicate ClosedNode(closed: set<nat>, node: Node) {
    match node
    case BooleanSchema(_) => true
    case ObjectSchema(plan, _, _) =>
      forall x: Json, i :: !x.IsContainer() && 0 <= i < |plan(x)| ==> ClosedAction(closed, plan(x)[i])
    case RefSchema(target, _) => target.None?
    case DynamicRefSchema(target, _) => target.None?
  }

  /** Applied to a scalar, nodes of `closed` come to no reference at its path. */
  ghost predicate Closed(s: Schema, closed: set<nat>) {
    forall n :: n in closed ==> n < |s.nodes| && ClosedNode(closed, s.nodes[n])
  }

  /** A visit at the instance path is one of the instance, with its tracker, or of a scalar by a node of `closed`. */
  predicate SteadyAction(closed: set<nat>, x: Json, act: Action) {
    match act
    case Guarded(body) => forall i :: 0 <= i < |body| ==> SteadyAction(closed, x, body[i])
    case Visit(child, instance, step, suspended) =>
      step == [] ==> (instance == x && !suspended) || (child in closed && !instance.IsContainer())
    case _ => true
  }

  predicate SteadyActions(closed: set<nat>, x: Json, acts: seq<Action>) {
    forall i :: 0 <= i < |acts| ==> SteadyAction(closed, x, acts[i])
  }

  ghost predicate SteadyNode(closed: set<nat>, node: Node) {
    node.ObjectSchema? ==> forall x: Json :: SteadyActions(closed, x, node.plan(x))
  }

  /**
   * Where a path stands for another value than the instance, a member name,
   * no reference is met; and there are no dynamic references.
   */
  ghost predicate Steady(s: Schema, closed: set<nat>) {
    Tidy(s) && Closed(s, closed) && forall n :: 0 <= n < |s.nodes| ==> SteadyNode(closed, s.nodes[n])
  }

  function Unguarded(f: Frame): Frame {
    f.(guarded := false)
  }

  // ---------------------------------------------------------------------
  // What an unguarded run depends on
  // ---------------------------------------------------------------------

  /** Two unguarded frames that may differ in path, scope and active references. */
  ghost predicate SamePlaceIn(f: Frame, g: Frame) {
    && f.schema == g.schema && f.instance == g.instance && f.stopOnFirstError == g.stopOnFirstError
    && !f.guarded && !g.guarded
  }

  /** `u` is no nearer to an error that would stop it, and tracks no more. */
  predicate Matches(f: Frame, u: State, v: State) {
    && (f.stopOnFirstError ==> (u.IsValid() <==> v.IsValid()))
    && (u.tracker.Some? ==> v.tracker.Some?)
  }

  predicate SameOut(f: Frame, u: State, v: State, out: Option<State>, res: Option<State>) {
    && out.Some? && res.Some? && Matches(f, out.value, res.value)
    && (u.tracker == v.tracker ==> out.value.tracker == res.value.tracker)
  }

  /** Where the run from `v` returns, so does the one from `u`, with the same verdict. */
  lemma {:induction false} NodeAlike(fuel: nat, n: nat, f: Frame, g: Frame, u: State, v: State)
    requires Tidy(f.schema) && SamePlaceIn(f, g) && Matches(f, u, v)
    requires RunNode(fuel, n, g, v).Some?
    ensures SameOut(f, u, v, RunNode(fuel, n, f, u), RunNode(fuel, n, g, v))
    decreases fuel, 0
  {
    NodeGrows(fuel, n, g, v);
    assert TidyNode(f.schema.nodes[n]);
    match f.schema.nodes[n]
    case BooleanSchema(_) =>
    case ObjectSchema(plan, tracked, selfIndex) =>
      var a := if tracked then State(u.errors, Some({})) else u;
      var b := if tracked then State(v.errors, Some({})) else v;
      ActionsAlike(fuel - 1, plan(f.instance), tracked, PushResource(f, selfIndex), PushResource(g, selfIndex), a, b);
    case RefSchema(target, selfIndex) =>
      if target.Some? {
        var t := target.value;
        var p, q := PushResource(f, selfIndex), PushResource(g, selfIndex);
        NodeAlike(fuel - 1, t, PushResource(p, Some(t)).(active := p.active + [(t, p.at)]),
                  PushResource(q, Some(t)).(active := q.active + [(t, q.at)]), u, v);
      }
    case DynamicRefSchema(_, _) =>
  }

  lemma {:induction false} ActionsAlike(fuel: nat, acts: seq<Action>, tracked: bool, f: Frame, g: Frame, u: State,
                                        v: State)
    requires Tidy(f.schema) && SamePlaceIn(f, g) && Matches(f, u, v)
    requires TidyActions(acts, tracked) && (tracked ==> u.tracker == v.tracker)
    requires RunActions(fuel, acts, g, v).Some?
    ensures SameOut(f, u, v, RunActions(fuel, acts, f, u), RunActions(fuel, acts, g, v))
    decreases fuel, 7, acts
  {
    if acts != [] {
      ActionAlike(fuel, acts[0], f, g, u, v);
      ActionsAlike(fuel, acts[1..], tracked, f, g, RunAction(fuel, acts[0], f, u).value,
                   RunAction(fuel, acts[0], g, v).value);
    }
  }

  lemma {:induction false} ActionAlike(fuel: nat, act: Action, f: Frame, g: Frame, u: State, v: State)
    requires Tidy(f.schema) && SamePlaceIn(f, g) && Matches(f, u, v)
    requires LooksAtTracker(act) ==> u.tracker == v.tracker
    requires RunAction(fuel, act, g, v).Some?
    ensures SameOut(f, u, v, RunAction(fuel, act, f, u), RunAction(fuel, act, g, v))
    decreases fuel, 7, act
  {
    match act
    case Guarded(body) =>
      if ShouldContinue(g, v) {
        ActionsAlike(fuel, body, LooksAtTracker(act), f, g, u, v);
      }
    case Fail(_) =>
    case Mark(_) =>
    case Visit(child, instance, step, suspended) =>
      NodeAlike(fuel, child, f.(instance := instance, at := f.at + step), g.(instance := instance, at := g.at + step),
                if suspended then State(u.errors, None) else u, if suspended then State(v.errors, None) else v);
    case Unevaluated(place, child, instance) =>
      if RunNode(fuel, child, g.(instance := instance, at := g.at + [place]), v).Some? {
        NodeAlike(fuel, child, f.(instance := instance, at := f.at + [place]),
                  g.(instance := instance, at := g.at + [place]), u, v);
      }
    case _ => ProbingAlike(fuel, act, f, g, u, v);
  }

  lemma {:induction false} ProbingAlike(fuel: nat, act: Action, f: Frame, g: Frame, u: State, v: State)
    requires Tidy(f.schema) && SamePlaceIn(f, g) && Matches(f, u, v)
    requires act.Probes() && RunAction(fuel, act, g, v).Some?
    ensures SameOut(f, u, v, RunAction(fuel, act, f, u), RunAction(fuel, act, g, v))
    decreases fuel, 3
  {
    var tu, tv := u.tracker.Some?, v.tracker.Some?;
    var some := RunProbes(fuel, f, ProbesOf(act, f.instance, tu), 0, LimitOf(act, tu), []);
    var all := RunProbes(fuel, g, ProbesOf(act, f.instance, tv), 0, LimitOf(act, tv), []).value;
    HitsAlike(fuel, act, f, g, tu, tv);
    ConcludeAlike(f, g, act, some.value, all, u, v);
    var branch := Branch(act, all);
    if branch.Some? {
      NodeAlike(fuel, branch.value, f, g, Conclude(act, some.value, f.at, u), Conclude(act, all, g.at, v));
    }
  }

  /** Fewer hits may be recorded without a tracker, but enough of them for the verdict. */
  predicate Enough(act: Action, tu: bool, tv: bool, some: seq<Hit>, all: seq<Hit>)
    requires act.Probes()
  {
    && (tu == tv ==> some == all)
    && (|some| == AtMost(LimitOf(act, tu), |all|) || (act.Contains? && act.minContains == 0 && act.maxContains.None?))
  }

  lemma ConcludeAlike(f: Frame, g: Frame, act: Action, some: seq<Hit>, all: seq<Hit>, u: State, v: State)
    requires act.Probes() && Matches(f, u, v) && Enough(act, u.tracker.Some?, v.tracker.Some?, some, all)
    ensures Matches(f, Conclude(act, some, f.at, u), Conclude(act, all, g.at, v))
    ensures u.tracker == v.tracker ==> Conclude(act, some, f.at, u).tracker == Conclude(act, all, g.at, v).tracker
    ensures Branch(act, some) == Branch(act, all)
  {
  }

  lemma {:induction false} HitsAlike(fuel: nat, act: Action, f: Frame, g: Frame, tu: bool, tv: bool)
    requires Tidy(f.schema) && SamePlaceIn(f, g) && act.Probes() && (tu ==> tv)
    requires RunProbes(fuel, g, ProbesOf(act, f.instance, tv), 0, LimitOf(act, tv), []).Some?
    ensures var some := RunProbes(fuel, f, ProbesOf(act, f.instance, tu), 0, LimitOf(act, tu), []);
            some.Some? &&
            Enough(act, tu, tv, some.value,
                   RunProbes(fuel, g, ProbesOf(act, f.instance, tv), 0, LimitOf(act, tv), []).value)
    decreases fuel, 2
  {
    var p, q := ProbesOf(act, f.instance, tu), ProbesOf(act, f.instance, tv);
    if |p| == |q| {
      ProbesAlike(fuel, f, g, p, q, 0, LimitOf(act, tu), LimitOf(act, tv), [], []);
    }
  }

  lemma {:induction false} ProbesAlike(fuel: nat, f: Frame, g: Frame, p: seq<Probe>, q: seq<Probe>, i: nat,
                                      few: Option<nat>, many: Option<nat>, some: seq<Hit>, all: seq<Hit>)
    requires Tidy(f.schema) && SamePlaceIn(f, g) && i <= |p| == |q|
    requires forall k :: 0 <= k < |p| ==> q[k] == p[k].(tracked := q[k].tracked) && (p[k].tracked ==> q[k].tracked)
    requires (many == few || many.None?) && |some| == AtMost(few, |all|)
    requires RunProbes(fuel, g, q, i, many, all).Some?
    ensures var r := RunProbes(fuel, f, p, i, few, some);
            && r.Some? && |r.value| == AtMost(few, |RunProbes(fuel, g, q, i, many, all).value|)
            && (p == q && few == many && some == all ==> r == RunProbes(fuel, g, q, i, many, all))
    decreases fuel, 1, |p| - i
  {
    if i < |q| && !(many.Some? && |all| >= many.value) {
      var out := RunNode(fuel, q[i].child, ProbeFrame(g, q[i]), ProbeState(q[i])).value;
      var moreAll := if out.IsValid() then all + [Hit(i, out.tracker.GetOr({}))] else all;
      if few.Some? && |some| >= few.value {
        ProbesAlike(fuel, f, g, p, q, i + 1, few, many, some, moreAll);
      } else {
        NodeAlike(fuel, q[i].child, ProbeFrame(f, p[i]), ProbeFrame(g, q[i]), ProbeState(p[i]), ProbeState(q[i]));
        var res := RunNode(fuel, p[i].child, ProbeFrame(f, p[i]), ProbeState(p[i])).value;
        var moreSome := if res.IsValid() then some + [Hit(i, res.tracker.GetOr({}))] else some;
        ProbesAlike(fuel, f, g, p, q, i + 1, few, many, moreSome, moreAll);
      }
    }
  }

  // ---------------------------------------------------------------------
  // Where the unguarded run returns, the guard changes nothing
  // ---------------------------------------------------------------------

  function WithGuard(f: Frame): Frame {
    f.(guarded := true)
  }

  /** A state that validation goes on from in frames like `g`. */
  predicate GoesOn(stopOnFirstError: bool, v: State, tracked: bool) {
    (stopOnFirstError ==> v.IsValid()) && v.tracker.Some? == tracked
  }

  /** No unguarded run of `t` on this instance returns within a smaller bound, whatever the path. */
  ghost predicate Doomed(f: Frame, t: nat, bound: nat, tracked: bool) {
    forall k: nat, g, v ::
      k < bound && SamePlaceIn(Unguarded(f), g) && GoesOn(f.stopOnFirstError, v, tracked) ==> RunNode(k, t, g, v).None?
  }

  /** Every reference being expanded at this path has been found not to return within the bound. */
  ghost predicate AllDoomed(f: Frame, bound: nat, tracked: bool) {
    forall k :: 0 <= k < |f.active| && f.active[k].1 == f.at ==> Doomed(f, f.active[k].0, bound, tracked)
  }

  predicate PathsBehind(f: Frame) {
    forall k :: 0 <= k < |f.active| ==> |f.active[k].1| <= |f.at|
  }

  predicate NoCycle(errors: seq<ValidationError>) {
    forall i :: 0 <= i < |errors| ==> !errors[i].kind.RefCycleDetected?
  }

  /** The guarded run and the unguarded one: in step, and the same where all errors are collected. */
  predicate Together(f: Frame, free: State, held: State) {
    InStep(free, held) && (!f.stopOnFirstError ==> free == held)
  }

  /** `sealed`: at a scalar, in a node of `closed`, where no reference will be met. */
  ghost predicate Held(closed: set<nat>, sealed: bool, f: Frame, fuel: nat, u: State, w: State) {
    && Steady(f.schema, closed) && !f.guarded && PathsBehind(f) && Together(f, u, w)
    && (sealed ==> !f.instance.IsContainer())
    && (!sealed && ShouldContinue(f, u) ==> AllDoomed(f, fuel, u.tracker.Some?))
  }

  /** What a guarded run has to come to, given the unguarded one. */
  predicate HeldOut(f: Frame, u: State, out: State, held: Option<State>) {
    && held.Some? && Together(f, out, held.value)
    && (!f.stopOnFirstError && NoCycle(u.errors) ==> NoCycle(out.errors))
  }

  lemma DoomedTracked(f: Frame, t: nat, bound: nat)
    requires Tidy(f.schema) && Doomed(f, t, bound, false)
    ensures Doomed(f, t, bound, true)
  {
    forall k: nat, g, v | k < bound && SamePlaceIn(Unguarded(f), g) && GoesOn(f.stopOnFirstError, v, true)
      ensures RunNode(k, t, g, v).None?
    {
      if RunNode(k, t, g, v).Some? {
        NodeAlike(k, t, g, g, State(v.errors, None), v);
        assert GoesOn(f.stopOnFirstError, State(v.errors, None), false);
      }
    }
  }

  /** The least bound within which a run returns. */
  lemma {:induction false} LeastFuel(fuel: nat, t: nat, f: Frame, u: State) returns (least: nat)
    requires RunNode(fuel, t, f, u).Some?
    ensures least <= fuel && RunNode(least, t, f, u) == RunNode(fuel, t, f, u)
    ensures forall k: nat :: k < least ==> RunNode(k, t, f, u).None?
  {
    if k: nat :| k < fuel && RunNode(k, t, f, u).Some? {
      NodeMonotone(k, fuel, t, f, u);
      least := LeastFuel(k, t, f, u);
    } else {
      least := fuel;
    }
  }

  lemma LeastIsDoomed(least: nat, t: nat, f: Frame, g: Frame, u: State)
    requires Tidy(f.schema) && SamePlaceIn(f, g) && (f.stopOnFirstError ==> u.IsValid())
    requires forall k: nat :: k < least ==> RunNode(k, t, g, u).None?
    ensures Doomed(f, t, least, u.tracker.Some?)
  {
    forall k: nat, h, v | k < least && SamePlaceIn(Unguarded(f), h) && GoesOn(f.stopOnFirstError, v, u.tracker.Some?)
      ensures RunNode(k, t, h, v).None?
    {
      if RunNode(k, t, h, v).Some? {
        NodeAlike(k, t, g, h, u, v);
      }
    }
  }

  lemma {:induction false} NodeHeld(closed: set<nat>, sealed: bool, fuel: nat, n: nat, f: Frame, u: State, w: State)
    requires Held(closed, sealed, f, fuel, u, w) && RunNode(fuel, n, f, u).Some? && (sealed ==> n in closed)
    ensures HeldOut(f, u, RunNode(fuel, n, f, u).value, RunNode(fuel, n, WithGuard(f), w))
    decreases fuel, 0
  {
    assert TidyNode(f.schema.nodes[n]);
    match f.schema.nodes[n]
    case BooleanSchema(_) =>
    case ObjectSchema(_, _, _) => PlanHeld(closed, sealed, fuel - 1, n, f, u, w);
    case RefSchema(target, selfIndex) =>
      if target.Some? {
        TargetHeld(closed, fuel - 1, target.value, PushResource(f, selfIndex), u, w);
      }
    case DynamicRefSchema(_, _) =>
  }

  lemma StillDoomed(f: Frame, g: Frame, fuel: nat, before: bool, now: bool)
    requires Tidy(f.schema) && AllDoomed(f, fuel + 1, before) && (before ==> now)
    requires g == f.(scope := g.scope)
    ensures AllDoomed(g, fuel, now)
  {
    forall k | 0 <= k < |g.active| && g.active[k].1 == g.at
      ensures Doomed(g, g.active[k].0, fuel, now)
    {
      assert Doomed(f, f.active[k].0, fuel + 1, before);
      assert Doomed(g, g.active[k].0, fuel, before);
      if now != before {
        DoomedTracked(g, g.active[k].0, fuel);
      }
    }
  }

  lemma {:induction false} PlanHeld(closed: set<nat>, sealed: bool, fuel: nat, n: nat, f: Frame, u: State, w: State)
    requires Held(closed, sealed, f, fuel + 1, u, w) && n < |f.schema.nodes| && f.schema.nodes[n].ObjectSchema? &&
             (sealed ==> n in closed)
    requires RunNode(fuel + 1, n, f, u).Some?
    ensures HeldOut(f, u, RunNode(fuel + 1, n, f, u).value, RunNode(fuel + 1, n, WithGuard(f), w))
    decreases fuel, 9
  {
    assert SteadyNode(closed, f.schema.nodes[n]) && (sealed ==> ClosedNode(closed, f.schema.nodes[n]));
    var node := f.schema.nodes[n];
    var g, acts := PushResource(f, node.selfIndex), node.plan(f.instance);
    var a := if node.tracked then State(u.errors, Some({})) else u;
    var b := if node.tracked then State(w.errors, Some({})) else w;
    if !sealed && ShouldContinue(f, u) {
      StillDoomed(f, g, fuel, u.tracker.Some?, a.tracker.Some?);
    }
    ActionsHeld(closed, sealed, fuel, acts, g, a, b);
    ActionsGrow(fuel, acts, g, a);
  }

  /** A reference that is refused could not have returned. */
  lemma {:induction false} TargetHeld(closed: set<nat>, fuel: nat, target: nat, f: Frame, u: State, w: State)
    requires Held(closed, false, f, fuel + 1, u, w) && RunTarget(fuel, target, f, u).Some?
    ensures HeldOut(f, u, RunTarget(fuel, target, f, u).value, RunTarget(fuel, target, WithGuard(f), w))
    decreases fuel, 1
  {
    var next := PushResource(f, Some(target)).(active := f.active + [(target, f.at)]);
    NodeGrows(fuel, target, next, u);
    if (target, f.at) in f.active {
      if ShouldContinue(f, u) {
        var k :| 0 <= k < |f.active| && f.active[k] == (target, f.at);
        assert Doomed(f, target, fuel + 1, u.tracker.Some?);
        assert SamePlaceIn(Unguarded(f), next) && GoesOn(f.stopOnFirstError, u, u.tracker.Some?);
        assert false;
      }
    } else {
      var least := LeastFuel(fuel, target, next, u);
      if ShouldContinue(f, u) {
        LeastIsDoomed(least, target, next, next, u);
        forall k | 0 <= k < |next.active| && next.active[k].1 == next.at
          ensures Doomed(next, next.active[k].0, least, u.tracker.Some?)
        {
          if k < |f.active| {
            assert Doomed(f, f.active[k].0, fuel + 1, u.tracker.Some?);
          }
        }
      }
      NodeHeld(closed, false, least, target, next, u, w);
      NodeMonotone(least, fuel, target, WithGuard(next), w);
    }
  }

  lemma {:induction false} ActionsHeld(closed: set<nat>, sealed: bool, fuel: nat, acts: seq<Action>, f: Frame,
                                       u: State, w: State)
    requires Held(closed, sealed, f, fuel, u, w) && RunActions(fuel, acts, f, u).Some?
    requires SteadyActions(closed, f.instance, acts) &&
             (sealed ==> forall i :: 0 <= i < |acts| ==> ClosedAction(closed, acts[i]))
    ensures HeldOut(f, u, RunActions(fuel, acts, f, u).value, RunActions(fuel, acts, WithGuard(f), w))
    decreases fuel, 7, acts
  {
    if acts != [] {
      ActionHeld(closed, sealed, fuel, acts[0], f, u, w);
      ActionGrows(fuel, acts[0], f, u);
      ActionsHeld(closed, sealed, fuel, acts[1..], f, RunAction(fuel, acts[0], f, u).value,
                  RunAction(fuel, acts[0], WithGuard(f), w).value);
    }
  }

  lemma {:induction false} ActionHeld(closed: set<nat>, sealed: bool, fuel: nat, act: Action, f: Frame, u: State,
                                      w: State)
    requires Held(closed, sealed, f, fuel, u, w) && RunAction(fuel, act, f, u).Some?
    requires SteadyAction(closed, f.instance, act) && (sealed ==> ClosedAction(closed, act))
    ensures HeldOut(f, u, RunAction(fuel, act, f, u).value, RunAction(fuel, act, WithGuard(f), w))
    decreases fuel, 7, act
  {
    match act
    case Guarded(body) =>
      if ShouldContinue(f, u) {
        ActionsHeld(closed, sealed, fuel, body, f, u, w);
      }
    case Fail(_) =>
    case Mark(_) =>
    case Visit(child, instance, step, suspended) => VisitHeld(closed, sealed, fuel, act, f, u, w);
    case Unevaluated(place, child, instance) =>
      var g := f.(instance := instance, at := f.at + [place]);
      if RunNode(fuel, child, g, u).Some? {
        NodeHeld(closed, false, fuel, child, g, u, w);
      }
    case _ => ProbingHeld(closed, sealed, fuel, act, f, u, w);
  }

  lemma {:induction false} VisitHeld(closed: set<nat>, sealed: bool, fuel: nat, act: Action, f: Frame, u: State,
                                     w: State)
    requires Held(closed, sealed, f, fuel, u, w) && act.Visit? && RunAction(fuel, act, f, u).Some?
    requires SteadyAction(closed, f.instance, act) && (sealed ==> ClosedAction(closed, act))
    ensures HeldOut(f, u, RunAction(fuel, act, f, u).value, RunAction(fuel, act, WithGuard(f), w))
    decreases fuel, 3
  {
    var g := f.(instance := act.instance, at := f.at + act.step);
    var a := if act.suspended then State(u.errors, None) else u;
    var b := if act.suspended then State(w.errors, None) else w;
    if act.step == [] {
      assert f.at + [] == f.at;
    }
    NodeGrows(fuel, act.child, g, a);
    var sealedBelow := act.step == [] && (sealed || act.instance != f.instance || act.suspended);
    NodeHeld(closed, sealedBelow, fuel, act.child, g, a, b);
  }

  lemma {:induction false} ProbingHeld(closed: set<nat>, sealed: bool, fuel: nat, act: Action, f: Frame, u: State,
                                       w: State)
    requires Held(closed, sealed, f, fuel, u, w) && act.Probes() && RunAction(fuel, act, f, u).Some?
    requires sealed ==> ClosedAction(closed, act)
    ensures HeldOut(f, u, RunAction(fuel, act, f, u).value, RunAction(fuel, act, WithGuard(f), w))
    decreases fuel, 3
  {
    var tracked := u.tracker.Some?;
    var probes, limit := ProbesOf(act, f.instance, tracked), LimitOf(act, tracked);
    ProbesHeld(closed, fuel, f, probes, 0, limit, []);
    var hits := RunProbes(fuel, f, probes, 0, limit, []).value;
    ConcludeGrows(act, hits, f.at, u);
    ConcludeInStep(act, hits, f.at, u, w);
    var branch := Branch(act, hits);
    if branch.Some? {
      NodeHeld(closed, sealed, fuel, branch.value, f, Conclude(act, hits, f.at, u), Conclude(act, hits, f.at, w));
    }
  }

  /** In a context of its own nothing is being expanded yet. */
  lemma {:induction false} ProbesHeld(closed: set<nat>, fuel: nat, f: Frame, probes: seq<Probe>, i: nat,
                                      limit: Option<nat>, hits: seq<Hit>)
    requires Steady(f.schema, closed) && !f.guarded && i <= |probes| && RunProbes(fuel, f, probes, i, limit, hits).Some?
    ensures RunProbes(fuel, WithGuard(f), probes, i, limit, hits) == RunProbes(fuel, f, probes, i, limit, hits)
    decreases fuel, 1, |probes| - i
  {
    if i < |probes| && !(limit.Some? && |hits| >= limit.value) {
      var p := probes[i];
      NodeHeld(closed, false, fuel, p.child, ProbeFrame(f, p), ProbeState(p), ProbeState(p));
      var out := RunNode(fuel, p.child, ProbeFrame(f, p), ProbeState(p)).value;
      ProbesHeld(closed, fuel, f, probes, i + 1, limit,
                 if out.IsValid() then hits + [Hit(i, out.tracker.GetOr({}))] else hits);
    }
  }

  // ---------------------------------------------------------------------
  // Whole runs
  // ---------------------------------------------------------------------

  /** The recursion without a guard, from the root. */
  function RunUnguarded(fuel: nat, s: Schema, instance: Json, stopOnFirstError: bool): Option<State> {
    RunNode(fuel, s.root, Unguarded(RootFrame(s, instance, stopOnFirstError)), State([], None))
  }

  /** Where the recursion has a result without the guard, validation has the same result, and reports no cycle. */
  lemma GuardChangesNothing(closed: set<nat>, fuel: nat, s: Schema, instance: Json, stopOnFirstError: bool)
    requires Steady(s, closed) && RunUnguarded(fuel, s, instance, stopOnFirstError).Some?
    ensures var free := RunUnguarded(fuel, s, instance, stopOnFirstError);
            var held := RunRoot(fuel, s, instance, stopOnFirstError);
            held.Some? && InStep(free.value, held.value)
            && (!stopOnFirstError ==> free == held && NoCycle(held.value.errors))
  {
    var f := Unguarded(RootFrame(s, instance, stopOnFirstError));
    NodeHeld(closed, false, fuel, s.root, f, State([], None), State([], None));
    assert WithGuard(f) == RootFrame(s, instance, stopOnFirstError);
  }

  /** A cycle that is reported is one: without the guard the recursion has no result, whatever its depth. */
  lemma ReportedCycleIsReal(closed: set<nat>, s: Schema, instance: Json, errors: seq<ValidationError>, fuel: nat)
    requires Steady(s, closed) && Collected(s, instance, errors) && !NoCycle(errors)
    ensures RunUnguarded(fuel, s, instance, false).None?
  {
    if RunUnguarded(fuel, s, instance, false).Some? {
      GuardChangesNothing(closed, fuel, s, instance, false);
      var out := RunRoot(fuel, s, instance, false).value;
      assert RunRoot(fuel, s, instance, false) == Some(State(out.errors, out.tracker));
      CollectedOnce(s, instance, errors, out.errors);
    }
  }

  predicate TriesNothing(act: Action) {
    if act.Guarded? then forall i :: 0 <= i < |act.body| ==> TriesNothing(act.body[i]) else !act.Probes()
  }

  ghost predicate Untried(s: Schema) {
    forall n, x: Json, i ::
      0 <= n < |s.nodes| && s.nodes[n].ObjectSchema? && 0 <= i < |s.nodes[n].plan(x)| ==>
        TriesNothing(s.nodes[n].plan(x)[i])
  }

  lemma NoCycleBefore(before: State, after: State)
    requires Grows(before, after) && NoCycle(after.errors)
    ensures NoCycle(before.errors)
  {
    assert forall i :: 0 <= i < |before.errors| ==> before.errors[i] == after.errors[i];
  }

  lemma CycleIsRecorded(st: State, at: Path)
    ensures !NoCycle(st.AddError(at, RefCycleDetected).errors)
  {
    var errors := st.AddError(at, RefCycleDetected).errors;
    assert errors[|errors| - 1].kind.RefCycleDetected?;
  }

  /** A run in one context that records no cycle has refused no reference. */
  lemma {:induction false} NodeUnrefused(fuel: nat, n: nat, f: Frame, st: State)
    requires Untried(f.schema) && f.guarded && RunNode(fuel, n, f, st).Some?
    requires NoCycle(RunNode(fuel, n, f, st).value.errors)
    ensures RunNode(fuel, n, Unguarded(f), st) == RunNode(fuel, n, f, st)
    decreases fuel, 0
  {
    match f.schema.nodes[n]
    case BooleanSchema(_) =>
    case ObjectSchema(plan, tracked, selfIndex) =>
      var inner := if tracked then State(st.errors, Some({})) else st;
      ActionsUnrefused(fuel - 1, plan(f.instance), PushResource(f, selfIndex), inner);
    case RefSchema(target, selfIndex) =>
      if target.Some? {
        TargetUnrefused(fuel - 1, target.value, PushResource(f, selfIndex), st);
      }
    case DynamicRefSchema(target, anchor) =>
      if target.Some? {
        TargetUnrefused(fuel - 1, DynamicTarget(f, target.value, anchor), f, st);
      }
  }

  lemma {:induction false} TargetUnrefused(fuel: nat, target: nat, f: Frame, st: State)
    requires Untried(f.schema) && f.guarded && RunTarget(fuel, target, f, st).Some?
    requires NoCycle(RunTarget(fuel, target, f, st).value.errors)
    ensures RunTarget(fuel, target, Unguarded(f), st) == RunTarget(fuel, target, f, st)
    decreases fuel, 1
  {
    if (target, f.at) in f.active {
      CycleIsRecorded(st, f.at);
      assert false;
    } else {
      NodeUnrefused(fuel, target, PushResource(f, Some(target)).(active := f.active + [(target, f.at)]), st);
    }
  }

  lemma {:induction false} ActionsUnrefused(fuel: nat, acts: seq<Action>, f: Frame, st: State)
    requires Untried(f.schema) && f.guarded && RunActions(fuel, acts, f, st).Some?
    requires forall i :: 0 <= i < |acts| ==> TriesNothing(acts[i])
    requires NoCycle(RunActions(fuel, acts, f, st).value.errors)
    ensures RunActions(fuel, acts, Unguarded(f), st) == RunActions(fuel, acts, f, st)
    decreases fuel, 2, acts
  {
    if acts != [] {
      var next := RunAction(fuel, acts[0], f, st).value;
      ActionsGrow(fuel, acts[1..], f, next);
      NoCycleBefore(next, RunActions(fuel, acts, f, st).value);
      ActionUnrefused(fuel, acts[0], f, st);
      ActionsUnrefused(fuel, acts[1..], f, next);
    }
  }

  lemma {:induction false} ActionUnrefused(fuel: nat, act: Action, f: Frame, st: State)
    requires Untried(f.schema) && f.guarded && TriesNothing(act) && RunAction(fuel, act, f, st).Some?
    requires NoCycle(RunAction(fuel, act, f, st).value.errors)
    ensures RunAction(fuel, act, Unguarded(f), st) == RunAction(fuel, act, f, st)
    decreases fuel, 2, act
  {
    match act
    case Guarded(body) =>
      if ShouldContinue(f, st) {
        ActionsUnrefused(fuel, body, f, st);
      }
    case Visit(child, instance, step, suspended) =>
      NodeUnrefused(fuel, child, f.(instance := instance, at := f.at + step),
                    if suspended then State(st.errors, None) else st);
    case Unevaluated(place, child, instance) =>
      if RunNode(fuel, child, f.(instance := instance, at := f.at + [place]), st).Some?
         && NoCycle(RunNode(fuel, child, f.(instance := instance, at := f.at + [place]), st).value.errors) {
        NodeUnrefused(fuel, child, f.(instance := instance, at := f.at + [place]), st);
      }
    case _ =>
  }

  /** Where no subschema is tried in a context of its own, a cycle is reported exactly when there is one. */
  lemma CycleReportedIff(closed: set<nat>, s: Schema, instance: Json, errors: seq<ValidationError>)
    requires Steady(s, closed) && Untried(s) && Collected(s, instance, errors)
    ensures NoCycle(errors) <==> exists fuel: nat :: RunUnguarded(fuel, s, instance, false).Some?
  {
    if NoCycle(errors) {
      var fuel: nat, tracker :| RunRoot(fuel, s, instance, false) == Some(State(errors, tracker));
      NodeUnrefused(fuel, s.root, RootFrame(s, instance, false), State([], None));
      assert RunUnguarded(fuel, s, instance, false).Some?;
    } else if fuel: nat :| RunUnguarded(fuel, s, instance, false).Some? {
      ReportedCycleIsReal(closed, s, instance, errors, fuel);
    }
  }
}
