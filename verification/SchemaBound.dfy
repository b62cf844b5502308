/**
 * How deep a run can get that returns at all. Within a context the guard and
 * the order of the nodes limit the depth; between contexts on one instance no
 * subschema is tried within a try of itself, or the run would not return.
 */
module SchemaBound {
  import opened JsonValue
  import opened SchemaGraph
  import opened SchemaLaws
  import opened SchemaTermination

  // ---------------------------------------------------------------------
  // Grounded graphs
  // ---------------------------------------------------------------------

  /** What compilation guarantees of applicators: on the same instance they go to earlier nodes, others go down. */
  ghost predicate GroundedAction(n: nat, x: Json, act: Action) {
    match act
    case Guarded(body) => forall i :: 0 <= i < |body| ==> GroundedAction(n, x, body[i])
    case Visit(child, instance, step, _) =>
      Height(instance) < Height(x) || (instance == x && step == [] && child < n)
    case Unevaluated(_, _, instance) => Height(instance) < Height(x)
    case IfThenElse(_, thenChild, elseChild) =>
      (thenChild.Some? ==> thenChild.value < n) && (elseChild.Some? ==> elseChild.value < n)
    case Contains(_, items, _, _) => forall i :: 0 <= i < |items| ==> Height(items[i]) < Height(x)
    case _ => true
  }

  ghost predicate GroundedNode(n: nat, node: Node) {
    node.ObjectSchema? ==> forall x: Json, i :: 0 <= i < |node.plan(x)| ==> GroundedAction(n, x, node.plan(x)[i])
  }

  ghost predicate Grounded(s: Schema) {
    forall n :: 0 <= n < |s.nodes| ==> GroundedNode(n, s.nodes[n])
  }

  // ---------------------------------------------------------------------
  // Within one context
  // ---------------------------------------------------------------------

  /** The context in which a subschema is tried on the instance at a path. */
  function TryFrame(s: Schema, x: Json, at: Path): Frame {
    Frame(s, true, x, at, [], [], true, false)
  }

  function TryRun(fuel: nat, s: Schema, x: Json, at: Path, child: nat, tracked: bool): Option<State> {
    RunNode(fuel, child, TryFrame(s, x, at), State([], if tracked then Some({}) else None))
  }

  /** Subschemas tried on the instance that return within `m` do so within `b`. */
  ghost predicate TriesWithin(s: Schema, x: Json, at: Path, m: nat, b: nat) {
    forall child, tracked :: TryRun(m, s, x, at, child, tracked).Some? ==> TryRun(b, s, x, at, child, tracked).Some?
  }

  /** Runs on lower instances that return within `m` do so within `b`. */
  ghost predicate LowerWithin(s: Schema, h: nat, m: nat, b: nat) {
    forall n, f: Frame, st ::
      f.schema == s && f.guarded && !f.inherits && Height(f.instance) < h && RunNode(m, n, f, st).Some? ==>
        RunNode(b, n, f, st).Some?
  }

  ghost predicate Settled(f: Frame, m: nat, b: nat) {
    && Grounded(f.schema) && f.guarded && !f.inherits
    && TriesWithin(f.schema, f.instance, f.at, m, b) && LowerWithin(f.schema, Height(f.instance), m, b)
  }

  /** Levels that a context adds, with so many targets inactive: references, and visits of earlier nodes. */
  function Depth(size: nat, inactive: nat, n: nat): nat {
    inactive * (size + 1) + n + 1
  }

  lemma DepthOfTarget(size: nat, inactive: nat, target: nat, n: nat)
    requires inactive > 0 && target < size
    ensures Depth(size, inactive - 1, target) + 1 <= Depth(size, inactive, n)
  {
    assert (inactive - 1) * (size + 1) + (size + 1) == inactive * (size + 1);
  }

  /** Two runs that both return, return the same. */
  lemma SameResult(m: nat, b: nat, d: nat, n: nat, f: Frame, st: State)
    requires RunNode(m, n, f, st).Some? && RunNode(b, n, f, st).Some? && b <= d
    ensures RunNode(d, n, f, st) == RunNode(m, n, f, st)
  {
    NodeMonotone(b, d, n, f, st);
    if m <= d {
      NodeMonotone(m, d, n, f, st);
    } else {
      NodeMonotone(d, m, n, f, st);
    }
  }

  lemma {:induction false} NodeWithin(m: nat, b: nat, d: nat, fuel: nat, n: nat, f: Frame, st: State)
    requires Settled(f, m, b) && fuel <= m + 1 && RunNode(fuel, n, f, st).Some?
    requires d >= b + Depth(|f.schema.nodes|, |Inactive(f)|, n)
    ensures RunNode(d, n, f, st) == RunNode(fuel, n, f, st)
    decreases |Inactive(f)|, n, 9
  {
    match f.schema.nodes[n]
    case BooleanSchema(_) =>
    case ObjectSchema(plan, tracked, selfIndex) =>
      assert GroundedNode(n, f.schema.nodes[n]);
      var inner := if tracked then State(st.errors, Some({})) else st;
      ActionsWithin(m, b, d - 1, fuel - 1, n, plan(f.instance), PushResource(f, selfIndex), inner);
    case RefSchema(target, selfIndex) =>
      if target.Some? {
        TargetWithin(m, b, d, fuel, n, target.value, PushResource(f, selfIndex), st);
      }
    case DynamicRefSchema(target, anchor) =>
      if target.Some? {
        TargetWithin(m, b, d, fuel, n, DynamicTarget(f, target.value, anchor), f, st);
      }
  }

  lemma {:induction false} TargetWithin(m: nat, b: nat, d: nat, fuel: nat, n: nat, target: nat, f: Frame, st: State)
    requires Settled(f, m, b) && 0 < fuel <= m + 1 && RunTarget(fuel - 1, target, f, st).Some?
    requires d >= b + Depth(|f.schema.nodes|, |Inactive(f)|, n)
    ensures RunTarget(d - 1, target, f, st) == RunTarget(fuel - 1, target, f, st)
    decreases |Inactive(f)|, n, 8
  {
    if (target, f.at) !in f.active {
      var next := PushResource(f, Some(target)).(active := f.active + [(target, f.at)]);
      assert target in Inactive(f);
      assert Inactive(next) == Inactive(f) - {target};
      DepthOfTarget(|f.schema.nodes|, |Inactive(f)|, target, n);
      NodeWithin(m, b, d - 1, fuel - 1, target, next, st);
    }
  }

  lemma {:induction false} ActionsWithin(m: nat, b: nat, d: nat, fuel: nat, n: nat, acts: seq<Action>, f: Frame,
                                         st: State)
    requires Settled(f, m, b) && fuel <= m && RunActions(fuel, acts, f, st).Some?
    requires forall i :: 0 <= i < |acts| ==> GroundedAction(n, f.instance, acts[i])
    requires d + 1 >= b + Depth(|f.schema.nodes|, |Inactive(f)|, n)
    ensures RunActions(d, acts, f, st) == RunActions(fuel, acts, f, st)
    decreases |Inactive(f)|, n, 7, acts
  {
    if acts != [] {
      ActionWithin(m, b, d, fuel, n, acts[0], f, st);
      ActionsWithin(m, b, d, fuel, n, acts[1..], f, RunAction(fuel, acts[0], f, st).value);
    }
  }

  lemma {:induction false} ActionWithin(m: nat, b: nat, d: nat, fuel: nat, n: nat, act: Action, f: Frame, st: State)
    requires Settled(f, m, b) && fuel <= m && RunAction(fuel, act, f, st).Some?
    requires GroundedAction(n, f.instance, act)
    requires d + 1 >= b + Depth(|f.schema.nodes|, |Inactive(f)|, n)
    ensures RunAction(d, act, f, st) == RunAction(fuel, act, f, st)
    decreases |Inactive(f)|, n, 7, act
  {
    match act
    case Guarded(body) =>
      if ShouldContinue(f, st) {
        ActionsWithin(m, b, d, fuel, n, body, f, st);
      }
    case Fail(_) =>
    case Mark(_) =>
    case Visit(child, instance, step, suspended) =>
      var inner := if suspended then State(st.errors, None) else st;
      VisitWithin(m, b, d, fuel, n, child, instance, step, f, inner);
    case Unevaluated(place, child, instance) =>
      var below := f.(instance := instance, at := f.at + [place]);
      if RunNode(fuel, child, below, st).Some? {
        LowerSettles(m, b, d, fuel, child, below, st, Height(f.instance));
      }
    case _ => ProbingWithin(m, b, d, fuel, n, act, f, st);
  }

  lemma LowerSettles(m: nat, b: nat, d: nat, fuel: nat, n: nat, f: Frame, st: State, h: nat)
    requires f.guarded && !f.inherits && Height(f.instance) < h && LowerWithin(f.schema, h, m, b) && fuel <= m && b <= d
    requires RunNode(fuel, n, f, st).Some?
    ensures RunNode(d, n, f, st) == RunNode(fuel, n, f, st)
  {
    NodeMonotone(fuel, m, n, f, st);
    SameResult(fuel, b, d, n, f, st);
  }

  lemma {:induction false} VisitWithin(m: nat, b: nat, d: nat, fuel: nat, n: nat, child: nat, instance: Json,
                                       step: Path, f: Frame, st: State)
    requires Settled(f, m, b) && fuel <= m
    requires Height(instance) < Height(f.instance) || (instance == f.instance && step == [] && child < n)
    requires RunNode(fuel, child, f.(instance := instance, at := f.at + step), st).Some?
    requires d + 1 >= b + Depth(|f.schema.nodes|, |Inactive(f)|, n)
    ensures var below := f.(instance := instance, at := f.at + step);
            RunNode(d, child, below, st) == RunNode(fuel, child, below, st)
    decreases |Inactive(f)|, n, 5
  {
    var below := f.(instance := instance, at := f.at + step);
    if Height(instance) < Height(f.instance) {
      LowerSettles(m, b, d, fuel, child, below, st, Height(f.instance));
    } else {
      assert f.at + [] == f.at;
      assert below == f;
      NodeWithin(m, b, d, fuel, child, f, st);
    }
  }

  // Probes

  /** On the instance itself, at its path, or on a lower one. */
  ghost predicate GroundedProbe(f: Frame, p: Probe) {
    Height(p.instance) < Height(f.instance) || (p.instance == f.instance && p.step == [])
  }

  lemma {:induction false} ProbesWithin(m: nat, b: nat, d: nat, fuel: nat, f: Frame, probes: seq<Probe>, i: nat,
                                       limit: Option<nat>, hits: seq<Hit>)
    requires Settled(f, m, b) && fuel <= m && b <= d && i <= |probes|
    requires forall k :: 0 <= k < |probes| ==> GroundedProbe(f, probes[k])
    requires RunProbes(fuel, f, probes, i, limit, hits).Some?
    ensures RunProbes(d, f, probes, i, limit, hits) == RunProbes(fuel, f, probes, i, limit, hits)
    decreases |probes| - i
  {
    if i < |probes| && !(limit.Some? && |hits| >= limit.value) {
      var p := probes[i];
      OneProbeWithin(m, b, d, fuel, f, p);
      var out := RunNode(fuel, p.child, ProbeFrame(f, p), ProbeState(p)).value;
      ProbesWithin(m, b, d, fuel, f, probes, i + 1, limit,
                   if out.IsValid() then hits + [Hit(i, out.tracker.GetOr({}))] else hits);
    }
  }

  lemma OneProbeWithin(m: nat, b: nat, d: nat, fuel: nat, f: Frame, p: Probe)
    requires Settled(f, m, b) && fuel <= m && b <= d && GroundedProbe(f, p)
    requires RunNode(fuel, p.child, ProbeFrame(f, p), ProbeState(p)).Some?
    ensures RunNode(d, p.child, ProbeFrame(f, p), ProbeState(p)) ==
            RunNode(fuel, p.child, ProbeFrame(f, p), ProbeState(p))
  {
    var g, st := ProbeFrame(f, p), ProbeState(p);
    if Height(p.instance) < Height(f.instance) {
      LowerSettles(m, b, d, fuel, p.child, g, st, Height(f.instance));
    } else {
      assert f.at + [] == f.at;
      NodeMonotone(fuel, m, p.child, g, st);
      assert TryRun(m, f.schema, f.instance, f.at, p.child, p.tracked) == RunNode(m, p.child, g, st);
      SameResult(fuel, b, d, p.child, g, st);
    }
  }

  lemma {:induction false} ProbingWithin(m: nat, b: nat, d: nat, fuel: nat, n: nat, act: Action, f: Frame, st: State)
    requires Settled(f, m, b) && fuel <= m && act.Probes() && RunAction(fuel, act, f, st).Some?
    requires GroundedAction(n, f.instance, act)
    requires d + 1 >= b + Depth(|f.schema.nodes|, |Inactive(f)|, n)
    ensures RunAction(d, act, f, st) == RunAction(fuel, act, f, st)
    decreases |Inactive(f)|, n, 6
  {
    var probes, limit := ProbesOf(act, f.instance, st.tracker.Some?), LimitOf(act, st.tracker.Some?);
    ProbesWithin(m, b, d, fuel, f, probes, 0, limit, []);
    var hits := RunProbes(fuel, f, probes, 0, limit, []).value;
    var branch := Branch(act, hits);
    if branch.Some? {
      NodeWithin(m, b, d, fuel, branch.value, f, Conclude(act, hits, f.at, st));
    }
  }

  // ---------------------------------------------------------------------
  // From context to context
  // ---------------------------------------------------------------------

  /** The subschemas that return, tried on the instance with a bound. */
  ghost function Returning(m: nat, s: Schema, x: Json, at: Path, tracked: bool): set<nat> {
    set child | 0 <= child < |s.nodes| && TryRun(m, s, x, at, child, tracked).Some?
  }

  ghost function Below(size: nat): (r: set<nat>)
    ensures |r| == size && forall k: nat :: k in r <==> k < size
  {
    if size == 0 then {} else Below(size - 1) + {size - 1}
  }

  lemma Subset<T>(a: set<T>, b: set<T>)
    requires a <= b
    ensures |a| <= |b| && (|a| == |b| ==> a == b)
  {
    assert b == a + (b - a);
  }

  lemma ReturningIsSmall(m: nat, s: Schema, x: Json, at: Path, tracked: bool)
    ensures |Returning(m, s, x, at, tracked)| <= |s.nodes|
  {
    Subset(Returning(m, s, x, at, tracked), Below(|s.nodes|));
  }

  lemma ReturningGrows(m: nat, s: Schema, x: Json, at: Path, tracked: bool)
    requires m > 0
    ensures Returning(m - 1, s, x, at, tracked) <= Returning(m, s, x, at, tracked)
  {
    forall child | child in Returning(m - 1, s, x, at, tracked)
      ensures child in Returning(m, s, x, at, tracked)
    {
      NodeMonotone(m - 1, m, child, TryFrame(s, x, at), State([], if tracked then Some({}) else None));
    }
  }

  /** Levels that one context adds at most. */
  function Width(size: nat): nat {
    Depth(size, size, size)
  }

  ghost function Returned(m: nat, s: Schema, x: Json, at: Path): nat {
    |Returning(m, s, x, at, false)| + |Returning(m, s, x, at, true)|
  }

  lemma InactiveIsSmall(f: Frame)
    ensures |Inactive(f)| <= |f.schema.nodes|
  {
    Subset(Inactive(f), Below(|f.schema.nodes|));
  }

  lemma DepthWithinWidth(size: nat, inactive: nat, n: nat)
    requires inactive <= size && n <= size
    ensures Depth(size, inactive, n) <= Width(size)
  {
    assert inactive * (size + 1) <= size * (size + 1);
  }

  /** One more level of the bound brings in at least one more subschema that returns, or none ever after. */
  lemma {:induction false} TriesReturnWithin(m: nat, s: Schema, x: Json, at: Path, low: nat)
    requires Grounded(s) && forall k :: LowerWithin(s, Height(x), k, low)
    ensures TriesWithin(s, x, at, m, low + Returned(m, s, x, at) * Width(|s.nodes|))
  {
    if m > 0 {
      var before, width := Returned(m - 1, s, x, at), Width(|s.nodes|);
      var b := low + before * width;
      TriesReturnWithin(m - 1, s, x, at, low);
      LowerStays(s, Height(x), m - 1, low, b);
      ReturningGrows(m, s, x, at, false);
      ReturningGrows(m, s, x, at, true);
      Subset(Returning(m - 1, s, x, at, false), Returning(m, s, x, at, false));
      Subset(Returning(m - 1, s, x, at, true), Returning(m, s, x, at, true));
      var now := Returned(m, s, x, at);
      assert now == before ==> forall tracked :: Returning(m, s, x, at, tracked) == Returning(m - 1, s, x, at, tracked);
      if now > before {
        assert now * width >= before * width + width by {
          Product(before, now, width);
        }
      }
      forall child, tracked | TryRun(m, s, x, at, child, tracked).Some?
        ensures TryRun(low + now * width, s, x, at, child, tracked).Some?
      {
        assert child in Returning(m, s, x, at, tracked);
        if now > before {
          TryReturnsWithin(m, b, low + now * width, s, x, at, child, tracked);
        } else {
          assert child in Returning(m - 1, s, x, at, tracked);
        }
      }
    }
  }

  lemma {:induction false} Product(a: nat, b: nat, c: nat)
    requires a < b
    ensures b * c >= a * c + c
    decreases b - a
  {
    assert b * c == (b - 1) * c + c;
    if a < b - 1 {
      Product(a, b - 1, c);
    }
  }

  lemma LowerStays(s: Schema, h: nat, m: nat, low: nat, b: nat)
    requires LowerWithin(s, h, m, low) && low <= b
    ensures LowerWithin(s, h, m, b)
  {
    forall n, f: Frame, st |
      f.schema == s && f.guarded && !f.inherits && Height(f.instance) < h && RunNode(m, n, f, st).Some?
      ensures RunNode(b, n, f, st).Some?
    {
      NodeMonotone(low, b, n, f, st);
    }
  }

  lemma TryReturnsWithin(m: nat, b: nat, d: nat, s: Schema, x: Json, at: Path, child: nat, tracked: bool)
    requires m > 0 && Settled(TryFrame(s, x, at), m - 1, b) && d >= b + Width(|s.nodes|) && child < |s.nodes|
    requires TryRun(m, s, x, at, child, tracked).Some?
    ensures TryRun(d, s, x, at, child, tracked).Some?
  {
    var f := TryFrame(s, x, at);
    InactiveIsSmall(f);
    DepthWithinWidth(|s.nodes|, |Inactive(f)|, child);
    NodeWithin(m - 1, b, d, m, child, f, State([], if tracked then Some({}) else None));
  }

  // ---------------------------------------------------------------------
  // The bound
  // ---------------------------------------------------------------------

  /** For one instance height: a context for every subschema, tracked or not, and the one the run is in. */
  function Level(size: nat): nat {
    (2 * size + 1) * Width(size)
  }

  /** The depth within which a run on an instance of height `h` returns, if it does. */
  function Bound(size: nat, h: nat): nat {
    if h == 0 then Level(size) else Bound(size, h - 1) + Level(size)
  }

  lemma {:induction false} BoundGrows(size: nat, h: nat, more: nat)
    requires h <= more
    ensures Bound(size, h) <= Bound(size, more)
  {
    if h < more {
      BoundGrows(size, h, more - 1);
    }
  }

  lemma LevelIsEnough(size: nat, returned: nat)
    requires returned <= 2 * size
    ensures returned * Width(size) + Width(size) <= Level(size)
  {
    assert returned * Width(size) <= (2 * size) * Width(size);
    assert (2 * size) * Width(size) + Width(size) == (2 * size + 1) * Width(size);
  }

  /** Every run that returns, from any state of validation, returns within the bound. */
  lemma {:induction false} RunsReturnWithin(fuel: nat, n: nat, f: Frame, st: State)
    requires Grounded(f.schema) && f.guarded && !f.inherits && RunNode(fuel, n, f, st).Some?
    ensures RunNode(Bound(|f.schema.nodes|, Height(f.instance)), n, f, st) == RunNode(fuel, n, f, st)
    decreases Height(f.instance)
  {
    var s, x, size := f.schema, f.instance, |f.schema.nodes|;
    var low := if Height(x) == 0 then 0 else Bound(size, Height(x) - 1);
    forall k
      ensures LowerWithin(s, Height(x), k, low)
    {
      forall m, g: Frame, u |
        g.schema == s && g.guarded && !g.inherits && Height(g.instance) < Height(x) && RunNode(k, m, g, u).Some?
        ensures RunNode(low, m, g, u).Some?
      {
        RunsReturnWithin(k, m, g, u);
        BoundGrows(size, Height(g.instance), Height(x) - 1);
        NodeMonotone(Bound(size, Height(g.instance)), low, m, g, u);
      }
    }
    var b := low + Returned(fuel, s, x, f.at) * Width(size);
    TriesReturnWithin(fuel, s, x, f.at, low);
    LowerStays(s, Height(x), fuel, low, b);
    ReturningIsSmall(fuel, s, x, f.at, false);
    ReturningIsSmall(fuel, s, x, f.at, true);
    LevelIsEnough(size, Returned(fuel, s, x, f.at));
    InactiveIsSmall(f);
    DepthWithinWidth(size, |Inactive(f)|, n);
    NodeWithin(fuel, b, Bound(size, Height(x)), fuel, n, f, st);
  }

  /** Validation returns exactly if it does within the bound: what gets deeper never returns. */
  lemma ReturnsIffWithinBound(schema: Schema, instance: Json, stopOnFirstError: bool)
    requires Grounded(schema)
    ensures Returns(schema, instance, stopOnFirstError) <==>
            RunRoot(Bound(|schema.nodes|, Height(instance)), schema, instance, stopOnFirstError).Some?
  {
    if fuel: nat :| RunRoot(fuel, schema, instance, stopOnFirstError).Some? {
      RunsReturnWithin(fuel, schema.root, RootFrame(schema, instance, stopOnFirstError), State([], None));
    }
  }
}
