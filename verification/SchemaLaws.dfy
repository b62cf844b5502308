/** Laws of every run: the depth bound does not matter, errors only grow, and stopping early keeps the verdict. */
module SchemaLaws {
  import opened JsonValue
  import opened SchemaGraph

  // ---------------------------------------------------------------------
  // A returning run returns the same under every larger bound
  // ---------------------------------------------------------------------

  lemma {:induction false} NodeMonotone(fuel: nat, more: nat, n: nat, f: Frame, st: State)
    requires fuel <= more && RunNode(fuel, n, f, st).Some?
    ensures RunNode(more, n, f, st) == RunNode(fuel, n, f, st)
    decreases fuel, 0
  {
    match f.schema.nodes[n]
    case BooleanSchema(_) =>
    case ObjectSchema(plan, tracked, selfIndex) =>
      var inner := if tracked then State(st.errors, Some({})) else st;
      ActionsMonotone(fuel - 1, more - 1, plan(f.instance), PushResource(f, selfIndex), inner);
    case RefSchema(target, selfIndex) =>
      if target.Some? {
        TargetMonotone(fuel - 1, more - 1, target.value, PushResource(f, selfIndex), st);
      }
    case DynamicRefSchema(target, anchor) =>
      if target.Some? {
        TargetMonotone(fuel - 1, more - 1, DynamicTarget(f, target.value, anchor), f, st);
      }
  }

  lemma {:induction false} TargetMonotone(fuel: nat, more: nat, target: nat, f: Frame, st: State)
    requires fuel <= more && RunTarget(fuel, target, f, st).Some?
    ensures RunTarget(more, target, f, st) == RunTarget(fuel, target, f, st)
    decreases fuel, 1
  {
    if !(f.guarded && (target, f.at) in f.active) {
      NodeMonotone(fuel, more, target, PushResource(f, Some(target)).(active := f.active + [(target, f.at)]), st);
    }
  }

  lemma {:induction false} ActionsMonotone(fuel: nat, more: nat, acts: seq<Action>, f: Frame, st: State)
    requires fuel <= more && RunActions(fuel, acts, f, st).Some?
    ensures RunActions(more, acts, f, st) == RunActions(fuel, acts, f, st)
    decreases fuel, 2, acts
  {
    if acts != [] {
      ActionMonotone(fuel, more, acts[0], f, st);
      ActionsMonotone(fuel, more, acts[1..], f, RunAction(fuel, acts[0], f, st).value);
    }
  }

  lemma {:induction false} ActionMonotone(fuel: nat, more: nat, act: Action, f: Frame, st: State)
    requires fuel <= more && RunAction(fuel, act, f, st).Some?
    ensures RunAction(more, act, f, st) == RunAction(fuel, act, f, st)
    decreases fuel, 2, act
  {
    match act
    case Guarded(body) =>
      if ShouldContinue(f, st) {
        ActionsMonotone(fuel, more, body, f, st);
      }
    case Fail(_) =>
    case Mark(_) =>
    case Visit(child, instance, step, suspended) =>
      NodeMonotone(fuel, more, child, f.(instance := instance, at := f.at + step),
                   if suspended then State(st.errors, None) else st);
    case Unevaluated(place, child, instance) =>
      if RunNode(fuel, child, f.(instance := instance, at := f.at + [place]), st).Some? {
        NodeMonotone(fuel, more, child, f.(instance := instance, at := f.at + [place]), st);
      }
    case _ => ProbingMonotone(fuel, more, act, f, st);
  }

  lemma {:induction false} ProbingMonotone(fuel: nat, more: nat, act: Action, f: Frame, st: State)
    requires act.Probes()
    requires fuel <= more && RunAction(fuel, act, f, st).Some?
    ensures RunAction(more, act, f, st) == RunAction(fuel, act, f, st)
    decreases fuel, 1, |ProbesOf(act, f.instance, st.tracker.Some?)| + 1
  {
    var probes, limit := ProbesOf(act, f.instance, st.tracker.Some?), LimitOf(act, st.tracker.Some?);
    ProbesMonotone(fuel, more, f, probes, 0, limit, []);
    var hits := RunProbes(fuel, f, probes, 0, limit, []).value;
    var branch := Branch(act, hits);
    if branch.Some? {
      NodeMonotone(fuel, more, branch.value, f, Conclude(act, hits, f.at, st));
    }
  }

  lemma {:induction false} ProbesMonotone(fuel: nat, more: nat, f: Frame, probes: seq<Probe>, i: nat,
                                          limit: Option<nat>, hits: seq<Hit>)
    requires i <= |probes|
    requires fuel <= more && RunProbes(fuel, f, probes, i, limit, hits).Some?
    ensures RunProbes(more, f, probes, i, limit, hits) == RunProbes(fuel, f, probes, i, limit, hits)
    decreases fuel, 1, |probes| - i
  {
    if i < |probes| && !(limit.Some? && |hits| >= limit.value) {
      NodeMonotone(fuel, more, probes[i].child, ProbeFrame(f, probes[i]), ProbeState(probes[i]));
      var out := RunNode(fuel, probes[i].child, ProbeFrame(f, probes[i]), ProbeState(probes[i])).value;
      ProbesMonotone(fuel, more, f, probes, i + 1, limit,
                     if out.IsValid() then hits + [Hit(i, out.tracker.GetOr({}))] else hits);
    }
  }

  // ---------------------------------------------------------------------
  // Lists of actions
  // ---------------------------------------------------------------------

  lemma {:induction false} RunActionsConcat(fuel: nat, a: seq<Action>, b: seq<Action>, f: Frame, st: State)
    ensures RunActions(fuel, a + b, f, st) == match RunActions(fuel, a, f, st)
                                              case None => None
                                              case Some(next) => RunActions(fuel, b, f, next)
    decreases a
  {
    if a == [] {
      assert a + b == b;
    } else {
      assert (a + b)[1..] == a[1..] + b;
      if RunAction(fuel, a[0], f, st).Some? {
        RunActionsConcat(fuel, a[1..], b, f, RunAction(fuel, a[0], f, st).value);
      }
    }
  }

  lemma Singly(fuel: nat, act: Action, f: Frame, st: State)
    ensures RunActions(fuel, [act], f, st) == RunAction(fuel, act, f, st)
  {
    if RunAction(fuel, act, f, st).Some? {
      assert RunActions(fuel, [act][1..], f, RunAction(fuel, act, f, st).value) == RunAction(fuel, act, f, st);
    }
  }

  // ---------------------------------------------------------------------
  // Errors and evaluated places are never lost
  // ---------------------------------------------------------------------

  /** Errors recorded before stay, in order; a tracker stays attached and keeps its places. */
  predicate Grows(before: State, after: State) {
    && before.errors <= after.errors
    && (before.tracker.Some? <==> after.tracker.Some?)
    && (before.tracker.Some? ==> before.tracker.value <= after.tracker.value)
  }

  lemma {:induction false} NodeGrows(fuel: nat, n: nat, f: Frame, st: State)
    requires RunNode(fuel, n, f, st).Some?
    ensures Grows(st, RunNode(fuel, n, f, st).value)
    decreases fuel, 0
  {
    match f.schema.nodes[n]
    case BooleanSchema(_) =>
    case ObjectSchema(plan, tracked, selfIndex) =>
      var inner := if tracked then State(st.errors, Some({})) else st;
      ActionsGrow(fuel - 1, plan(f.instance), PushResource(f, selfIndex), inner);
    case RefSchema(target, selfIndex) =>
      if target.Some? {
        TargetGrows(fuel - 1, target.value, PushResource(f, selfIndex), st);
      }
    case DynamicRefSchema(target, anchor) =>
      if target.Some? {
        TargetGrows(fuel - 1, DynamicTarget(f, target.value, anchor), f, st);
      }
  }

  lemma {:induction false} TargetGrows(fuel: nat, target: nat, f: Frame, st: State)
    requires RunTarget(fuel, target, f, st).Some?
    ensures Grows(st, RunTarget(fuel, target, f, st).value)
    decreases fuel, 1
  {
    if !(f.guarded && (target, f.at) in f.active) {
      NodeGrows(fuel, target, PushResource(f, Some(target)).(active := f.active + [(target, f.at)]), st);
    }
  }

  lemma {:induction false} ActionsGrow(fuel: nat, acts: seq<Action>, f: Frame, st: State)
    requires RunActions(fuel, acts, f, st).Some?
    ensures Grows(st, RunActions(fuel, acts, f, st).value)
    decreases fuel, 2, acts
  {
    if acts != [] {
      ActionGrows(fuel, acts[0], f, st);
      ActionsGrow(fuel, acts[1..], f, RunAction(fuel, acts[0], f, st).value);
    }
  }

  lemma ConcludeGrows(act: Action, hits: seq<Hit>, at: Path, st: State)
    requires act.Probes()
    ensures Grows(st, Conclude(act, hits, at, st))
  {
  }

  lemma {:induction false} ActionGrows(fuel: nat, act: Action, f: Frame, st: State)
    requires RunAction(fuel, act, f, st).Some?
    ensures Grows(st, RunAction(fuel, act, f, st).value)
    decreases fuel, 2, act
  {
    match act
    case Guarded(body) =>
      if ShouldContinue(f, st) {
        ActionsGrow(fuel, body, f, st);
      }
    case Fail(_) =>
    case Mark(_) =>
    case Visit(child, instance, step, suspended) =>
      NodeGrows(fuel, child, f.(instance := instance, at := f.at + step),
                if suspended then State(st.errors, None) else st);
    case Unevaluated(place, child, instance) =>
      if RunNode(fuel, child, f.(instance := instance, at := f.at + [place]), st).Some? {
        NodeGrows(fuel, child, f.(instance := instance, at := f.at + [place]), st);
      }
    case _ => ProbingGrows(fuel, act, f, st);
  }

  lemma {:induction false} ProbingGrows(fuel: nat, act: Action, f: Frame, st: State)
    requires act.Probes()
    requires RunAction(fuel, act, f, st).Some?
    ensures Grows(st, RunAction(fuel, act, f, st).value)
    decreases fuel, 1
  {
    var probes, limit := ProbesOf(act, f.instance, st.tracker.Some?), LimitOf(act, st.tracker.Some?);
    var hits := RunProbes(fuel, f, probes, 0, limit, []).value;
    ConcludeGrows(act, hits, f.at, st);
    var branch := Branch(act, hits);
    if branch.Some? {
      NodeGrows(fuel, branch.value, f, Conclude(act, hits, f.at, st));
    }
  }

  // ---------------------------------------------------------------------
  // Fail-fast and collecting runs
  // ---------------------------------------------------------------------

  /** Without errors so far the two runs are in the same state; afterwards both have errors. */
  predicate InStep(collecting: State, failFast: State) {
    && (collecting.tracker.Some? <==> failFast.tracker.Some?)
    && (collecting.IsValid() <==> failFast.IsValid())
    && (collecting.IsValid() ==> collecting == failFast)
  }

  predicate Follows(collecting: Option<State>, failFast: Option<State>) {
    collecting.Some? ==> failFast.Some? && InStep(collecting.value, failFast.value)
  }

  function FailFast(f: Frame): Frame {
    f.(stopOnFirstError := true)
  }

  /** Probes run in contexts of their own, so they do not depend on the mode of the caller. */
  lemma {:induction false} ProbesIgnoreMode(fuel: nat, f: Frame, probes: seq<Probe>, i: nat, limit: Option<nat>,
                                           hits: seq<Hit>)
    requires i <= |probes|
    ensures RunProbes(fuel, FailFast(f), probes, i, limit, hits) == RunProbes(fuel, f, probes, i, limit, hits)
    decreases |probes| - i
  {
    if i < |probes| && !(limit.Some? && |hits| >= limit.value) {
      assert ProbeFrame(FailFast(f), probes[i]) == ProbeFrame(f, probes[i]);
      var out := RunNode(fuel, probes[i].child, ProbeFrame(f, probes[i]), ProbeState(probes[i]));
      if out.Some? {
        ProbesIgnoreMode(fuel, f, probes, i + 1, limit,
                         if out.value.IsValid() then hits + [Hit(i, out.value.tracker.GetOr({}))] else hits);
      }
    }
  }

  lemma {:induction false} NodeFollows(fuel: nat, n: nat, f: Frame, c: State, s: State)
    requires !f.stopOnFirstError && InStep(c, s)
    ensures Follows(RunNode(fuel, n, f, c), RunNode(fuel, n, FailFast(f), s))
    decreases fuel, 0
  {
    if fuel > 0 && n < |f.schema.nodes| {
      match f.schema.nodes[n]
      case BooleanSchema(_) =>
      case ObjectSchema(plan, tracked, selfIndex) =>
        var innerC := if tracked then State(c.errors, Some({})) else c;
        var innerS := if tracked then State(s.errors, Some({})) else s;
        ActionsFollow(fuel - 1, plan(f.instance), PushResource(f, selfIndex), innerC, innerS);
        if RunActions(fuel - 1, plan(f.instance), PushResource(f, selfIndex), innerC).Some? {
          ActionsGrow(fuel - 1, plan(f.instance), PushResource(f, selfIndex), innerC);
        }
      case RefSchema(target, selfIndex) =>
        if target.Some? {
          TargetFollows(fuel - 1, target.value, PushResource(f, selfIndex), c, s);
        }
      case DynamicRefSchema(target, anchor) =>
        if target.Some? {
          TargetFollows(fuel - 1, DynamicTarget(f, target.value, anchor), f, c, s);
        }
    }
  }

  lemma {:induction false} TargetFollows(fuel: nat, target: nat, f: Frame, c: State, s: State)
    requires !f.stopOnFirstError && InStep(c, s)
    ensures Follows(RunTarget(fuel, target, f, c), RunTarget(fuel, target, FailFast(f), s))
    decreases fuel, 1
  {
    if !(f.guarded && (target, f.at) in f.active) {
      NodeFollows(fuel, target, PushResource(f, Some(target)).(active := f.active + [(target, f.at)]), c, s);
    }
  }

  lemma {:induction false} ActionsFollow(fuel: nat, acts: seq<Action>, f: Frame, c: State, s: State)
    requires !f.stopOnFirstError && InStep(c, s)
    ensures Follows(RunActions(fuel, acts, f, c), RunActions(fuel, acts, FailFast(f), s))
    decreases fuel, 2, acts
  {
    if acts != [] {
      ActionFollows(fuel, acts[0], f, c, s);
      var next := RunAction(fuel, acts[0], f, c);
      if next.Some? {
        ActionsFollow(fuel, acts[1..], f, next.value, RunAction(fuel, acts[0], FailFast(f), s).value);
      }
    }
  }

  lemma ConcludeInStep(act: Action, hits: seq<Hit>, at: Path, c: State, s: State)
    requires act.Probes() && InStep(c, s)
    ensures InStep(Conclude(act, hits, at, c), Conclude(act, hits, at, s))
  {
    ConcludeGrows(act, hits, at, c);
    ConcludeGrows(act, hits, at, s);
  }

  lemma {:induction false} ActionFollows(fuel: nat, act: Action, f: Frame, c: State, s: State)
    requires !f.stopOnFirstError && InStep(c, s)
    ensures Follows(RunAction(fuel, act, f, c), RunAction(fuel, act, FailFast(f), s))
    decreases fuel, 2, act
  {
    if RunAction(fuel, act, f, c).Some? {
      ActionGrows(fuel, act, f, c);
    }
    match act
    case Guarded(body) =>
      ActionsFollow(fuel, body, f, c, s);
    case Fail(_) =>
    case Mark(_) =>
    case Visit(child, instance, step, suspended) =>
      NodeFollows(fuel, child, f.(instance := instance, at := f.at + step),
                  if suspended then State(c.errors, None) else c, if suspended then State(s.errors, None) else s);
    case Unevaluated(place, child, instance) =>
      NodeFollows(fuel, child, f.(instance := instance, at := f.at + [place]), c, s);
    case _ =>
      ProbingFollows(fuel, act, f, c, s);
  }

  lemma {:induction false} ProbingFollows(fuel: nat, act: Action, f: Frame, c: State, s: State)
    requires act.Probes() && !f.stopOnFirstError && InStep(c, s)
    ensures Follows(RunAction(fuel, act, f, c), RunAction(fuel, act, FailFast(f), s))
    decreases fuel, 1, 0
  {
    var probes, limit := ProbesOf(act, f.instance, c.tracker.Some?), LimitOf(act, c.tracker.Some?);
    ProbesIgnoreMode(fuel, f, probes, 0, limit, []);
    var hits := RunProbes(fuel, f, probes, 0, limit, []);
    if hits.Some? {
      ConcludeInStep(act, hits.value, f.at, c, s);
      var branch := Branch(act, hits.value);
      if branch.Some? {
        NodeFollows(fuel, branch.value, f, Conclude(act, hits.value, f.at, c), Conclude(act, hits.value, f.at, s));
      }
    }
  }

  /**
   * Whenever the collecting validator returns, so does the fail-fast one, with
   * the same verdict and, on a valid instance, the same state. This holds for
   * every schema graph, cyclic ones included.
   */
  lemma SameVerdict(fuel: nat, schema: Schema, instance: Json)
    requires RunRoot(fuel, schema, instance, false).Some?
    ensures RunRoot(fuel, schema, instance, true).Some?
    ensures var all, first := RunRoot(fuel, schema, instance, false).value, RunRoot(fuel, schema, instance, true).value;
            (all.IsValid() <==> first.IsValid()) && (all.IsValid() ==> all == first)
  {
    var f := RootFrame(schema, instance, false);
    assert FailFast(f) == RootFrame(schema, instance, true);
    NodeFollows(fuel, schema.root, f, State([], None), State([], None));
  }

  // ---------------------------------------------------------------------
  // A valid fail-fast run did everything the collecting run does
  // ---------------------------------------------------------------------

  predicate EndsValid(out: Option<State>) {
    out.Some? && out.value.IsValid()
  }

  lemma {:induction false} NodeLeads(fuel: nat, n: nat, f: Frame, st: State)
    requires EndsValid(RunNode(fuel, n, FailFast(f), st))
    ensures RunNode(fuel, n, f, st) == RunNode(fuel, n, FailFast(f), st)
    decreases fuel, 0
  {
    match f.schema.nodes[n]
    case BooleanSchema(_) =>
    case ObjectSchema(plan, tracked, selfIndex) =>
      var inner := if tracked then State(st.errors, Some({})) else st;
      ActionsLead(fuel - 1, plan(f.instance), PushResource(f, selfIndex), inner);
    case RefSchema(target, selfIndex) =>
      if target.Some? {
        TargetLeads(fuel - 1, target.value, PushResource(f, selfIndex), st);
      }
    case DynamicRefSchema(target, anchor) =>
      if target.Some? {
        TargetLeads(fuel - 1, DynamicTarget(f, target.value, anchor), f, st);
      }
  }

  lemma {:induction false} TargetLeads(fuel: nat, target: nat, f: Frame, st: State)
    requires EndsValid(RunTarget(fuel, target, FailFast(f), st))
    ensures RunTarget(fuel, target, f, st) == RunTarget(fuel, target, FailFast(f), st)
    decreases fuel, 1
  {
    if !(f.guarded && (target, f.at) in f.active) {
      NodeLeads(fuel, target, PushResource(f, Some(target)).(active := f.active + [(target, f.at)]), st);
    }
  }

  lemma {:induction false} ActionsLead(fuel: nat, acts: seq<Action>, f: Frame, st: State)
    requires EndsValid(RunActions(fuel, acts, FailFast(f), st))
    ensures RunActions(fuel, acts, f, st) == RunActions(fuel, acts, FailFast(f), st)
    decreases fuel, 2, acts
  {
    if acts != [] {
      var next := RunAction(fuel, acts[0], FailFast(f), st).value;
      ActionsGrow(fuel, acts[1..], FailFast(f), next);
      ActionLeads(fuel, acts[0], f, st);
      ActionsLead(fuel, acts[1..], f, next);
    }
  }

  lemma {:induction false} ActionLeads(fuel: nat, act: Action, f: Frame, st: State)
    requires EndsValid(RunAction(fuel, act, FailFast(f), st))
    ensures RunAction(fuel, act, f, st) == RunAction(fuel, act, FailFast(f), st)
    decreases fuel, 2, act
  {
    ActionGrows(fuel, act, FailFast(f), st);
    match act
    case Guarded(body) =>
      ActionsLead(fuel, body, f, st);
    case Fail(_) =>
    case Mark(_) =>
    case Visit(child, instance, step, suspended) =>
      NodeLeads(fuel, child, f.(instance := instance, at := f.at + step),
                if suspended then State(st.errors, None) else st);
    case Unevaluated(place, child, instance) =>
      if EndsValid(RunNode(fuel, child, FailFast(f.(instance := instance, at := f.at + [place])), st)) {
        NodeLeads(fuel, child, f.(instance := instance, at := f.at + [place]), st);
      }
    case _ => ProbingLeads(fuel, act, f, st);
  }

  lemma {:induction false} ProbingLeads(fuel: nat, act: Action, f: Frame, st: State)
    requires act.Probes()
    requires EndsValid(RunAction(fuel, act, FailFast(f), st))
    ensures RunAction(fuel, act, f, st) == RunAction(fuel, act, FailFast(f), st)
    decreases fuel, 1, 0
  {
    var probes, limit := ProbesOf(act, f.instance, st.tracker.Some?), LimitOf(act, st.tracker.Some?);
    ProbesIgnoreMode(fuel, f, probes, 0, limit, []);
    var hits := RunProbes(fuel, f, probes, 0, limit, []).value;
    var branch := Branch(act, hits);
    if branch.Some? {
      NodeLeads(fuel, branch.value, f, Conclude(act, hits, f.at, st));
    }
  }

  /** A fail-fast run that finds the instance valid is, to the last step, the collecting run. */
  lemma ValidFailFastIsCollecting(fuel: nat, schema: Schema, instance: Json)
    requires EndsValid(RunRoot(fuel, schema, instance, true))
    ensures RunRoot(fuel, schema, instance, false) == RunRoot(fuel, schema, instance, true)
  {
    var f := RootFrame(schema, instance, false);
    assert FailFast(f) == RootFrame(schema, instance, true);
    NodeLeads(fuel, schema.root, f, State([], None));
  }
}
