/** The logical reading of a schema: what an instance has to satisfy, and which places of it are evaluated. */
module SchemaReading {
  import opened JsonValue
  import opened SchemaGraph
  import opened SchemaTermination

  // ---------------------------------------------------------------------
  // Schemas that have a reading
  // ---------------------------------------------------------------------

  /**
   * Along references and applicators at the same instance path the rank falls:
   * no cycle comes back to an instance path.
   */
  ghost predicate AcyclicAction(rank: seq<nat>, n: nat, x: Json, act: Action)
    requires n < |rank|
    decreases act
  {
    match act
    case Guarded(body) => forall i :: 0 <= i < |body| ==> AcyclicAction(rank, n, x, body[i])
    case Visit(child, instance, step, _) =>
      step == [] ==> child < |rank| && rank[child] < rank[n] && Height(instance) <= Height(x)
    case Unevaluated(_, _, _) => false
    case IfThenElse(_, thenChild, elseChild) =>
      && (thenChild.Some? ==> thenChild.value < |rank| && rank[thenChild.value] < rank[n])
      && (elseChild.Some? ==> elseChild.value < |rank| && rank[elseChild.value] < rank[n])
    case _ => true
  }

  /** The actions of a schema object before unevaluatedProperties / unevaluatedItems. */
  function Front(acts: seq<Action>, tracked: bool): seq<Action> {
    if tracked && acts != [] then acts[..|acts| - 1] else acts
  }

  /** One action per place that unevaluatedProperties / unevaluatedItems looks at; they come last. */
  function Back(acts: seq<Action>, tracked: bool): seq<Action> {
    if tracked && acts != [] && acts[|acts| - 1].Guarded? then acts[|acts| - 1].body else []
  }

  predicate OncePerPlace(back: seq<Action>) {
    && (forall i :: 0 <= i < |back| ==> back[i].Unevaluated?)
    && (forall i, j :: 0 <= i < j < |back| ==> back[i].place != back[j].place)
  }

  ghost predicate AcyclicPlan(rank: seq<nat>, n: nat, x: Json, acts: seq<Action>, tracked: bool)
    requires n < |rank|
  {
    && (forall i :: 0 <= i < |Front(acts, tracked)| ==> AcyclicAction(rank, n, x, Front(acts, tracked)[i]))
    && (tracked ==> acts != [] && acts[|acts| - 1].Guarded? && OncePerPlace(Back(acts, tracked)))
  }

  ghost predicate AcyclicNode(s: Schema, rank: seq<nat>, n: nat)
    requires |rank| == |s.nodes| && n < |rank|
  {
    match s.nodes[n]
    case BooleanSchema(_) => true
    case ObjectSchema(plan, tracked, _) => forall x: Json :: AcyclicPlan(rank, n, x, plan(x), tracked)
    case RefSchema(target, _) => target.Some? ==> target.value < |rank| && rank[target.value] < rank[n]
    case DynamicRefSchema(target, _) => target.None?
  }

  ghost predicate Acyclic(s: Schema, rank: seq<nat>) {
    Stratified(s, rank) && forall n :: 0 <= n < |rank| ==> AcyclicNode(s, rank, n)
  }

  ghost predicate Ready(s: Schema, rank: seq<nat>, n: nat) {
    Acyclic(s, rank) && n < |rank|
  }

  ghost predicate ReadyAction(s: Schema, rank: seq<nat>, n: nat, x: Json, act: Action) {
    Ready(s, rank, n) && StratifiedAction(s, rank, n, x, act) && AcyclicAction(rank, n, x, act)
  }

  ghost predicate ReadyActions(s: Schema, rank: seq<nat>, n: nat, x: Json, acts: seq<Action>) {
    Ready(s, rank, n) && forall i :: 0 <= i < |acts| ==> ReadyAction(s, rank, n, x, acts[i])
  }

  ghost predicate ReadyBack(s: Schema, rank: seq<nat>, n: nat, x: Json, back: seq<Action>) {
    && Ready(s, rank, n) && OncePerPlace(back)
    && forall i :: 0 <= i < |back| ==> back[i].child < |rank| && Height(back[i].instance) < Height(x)
  }

  lemma PlanIsReady(s: Schema, rank: seq<nat>, n: nat, x: Json)
    requires Ready(s, rank, n) && s.nodes[n].ObjectSchema?
    ensures var node := s.nodes[n];
            && ReadyActions(s, rank, n, x, Front(node.plan(x), node.tracked))
            && ReadyBack(s, rank, n, x, Back(node.plan(x), node.tracked))
  {
    assert StratifiedNode(s, rank, n) && AcyclicNode(s, rank, n);
    var node := s.nodes[n];
    var acts := node.plan(x);
    assert AcyclicPlan(rank, n, x, acts, node.tracked);
    if node.tracked {
      assert StratifiedAction(s, rank, n, x, acts[|acts| - 1]);
    }
  }

  // ---------------------------------------------------------------------
  // The reading
  // ---------------------------------------------------------------------

  /**
   * The instance `x` satisfies the schema node `n`. With `leak`, what is
   * evaluated inside a member or element that unevaluatedProperties or
   * unevaluatedItems looks at counts for its later siblings as well; without,
   * the reading is that of the specification.
   */
  ghost predicate Satisfies(leak: bool, s: Schema, rank: seq<nat>, n: nat, x: Json)
    requires Ready(s, rank, n)
    decreases Height(x), rank[n], 3
  {
    assert StratifiedNode(s, rank, n) && AcyclicNode(s, rank, n);
    match s.nodes[n]
    case BooleanSchema(value) => value
    case ObjectSchema(plan, tracked, _) =>
      PlanIsReady(s, rank, n, x);
      var front, back := Front(plan(x), tracked), Back(plan(x), tracked);
      && AllHold(leak, s, rank, n, x, front)
      && SatisfiesBack(leak, s, rank, n, x, front, back, 0)
    case RefSchema(target, _) => target.Some? ==> Satisfies(leak, s, rank, target.value, x)
    case DynamicRefSchema(_, _) => true
  }

  ghost predicate AllHold(leak: bool, s: Schema, rank: seq<nat>, n: nat, x: Json, acts: seq<Action>)
    requires ReadyActions(s, rank, n, x, acts)
    decreases Height(x), rank[n], 2, 0
  {
    forall i :: 0 <= i < |acts| ==> SatisfiesAction(leak, s, rank, n, x, acts[i])
  }

  /** The places of the back from the `i`-th on. */
  ghost predicate SatisfiesBack(leak: bool, s: Schema, rank: seq<nat>, n: nat, x: Json,
                                front: seq<Action>, back: seq<Action>, i: nat)
    requires ReadyActions(s, rank, n, x, front) && ReadyBack(s, rank, n, x, back)
    decreases Height(x), rank[n], 2, |back| + 2
  {
    forall j :: i <= j < |back| ==> SatisfiesOrSeen(leak, s, rank, n, x, front, back, j)
  }

  /** Under unevaluatedProperties / unevaluatedItems: seen when its turn comes, or satisfying its subschema. */
  ghost predicate SatisfiesOrSeen(leak: bool, s: Schema, rank: seq<nat>, n: nat, x: Json,
                                  front: seq<Action>, back: seq<Action>, i: nat)
    requires ReadyActions(s, rank, n, x, front) && ReadyBack(s, rank, n, x, back) && i < |back|
    decreases Height(x), rank[n], 2, i + 2
  {
    Seen(leak, s, rank, n, x, front, back, i, back[i].place) ||
    Satisfies(leak, s, rank, back[i].child, back[i].instance)
  }

  /**
   * Evaluated by the actions of the front or the first `i` of the back. A
   * place of the back counts as evaluated once its turn has come; if it was
   * not seen by then, its subschema is visited, and with `leak` so count the
   * places evaluated there.
   */
  ghost predicate Seen(leak: bool, s: Schema, rank: seq<nat>, n: nat, x: Json,
                       front: seq<Action>, back: seq<Action>, i: nat, p: Place)
    requires ReadyActions(s, rank, n, x, front) && ReadyBack(s, rank, n, x, back) && i <= |back|
    decreases Height(x), rank[n], 2, i + 1
  {
    if i == 0 then EvaluatedBy(leak, s, rank, n, x, front, p)
    else
      var last := back[i - 1];
      || Seen(leak, s, rank, n, x, front, back, i - 1, p)
      || last.place == p
      || (&& leak && !Seen(leak, s, rank, n, x, front, back, i - 1, last.place)
          && EvaluatedAt(leak, s, rank, last.child, last.instance, p))
  }

  ghost predicate SatisfiesAction(leak: bool, s: Schema, rank: seq<nat>, n: nat, x: Json, act: Action)
    requires ReadyAction(s, rank, n, x, act)
    decreases Height(x), rank[n], 1, act
  {
    match act
    case Guarded(body) => forall i :: 0 <= i < |body| ==> SatisfiesAction(leak, s, rank, n, x, body[i])
    case Fail(_) => false
    case Mark(_) => true
    case Visit(child, instance, _, _) => Satisfies(leak, s, rank, child, instance)
    case AnyOf(children) => exists i :: 0 <= i < |children| && Satisfies(leak, s, rank, children[i], x)
    case OneOf(children) =>
      exists i :: 0 <= i < |children| && OnlyChild(leak, s, rank, n, x, children, i)
    case Not(child) => !Satisfies(leak, s, rank, child, x)
    case IfThenElse(condition, thenChild, elseChild) =>
      if Satisfies(leak, s, rank, condition, x) then thenChild.Some? ==> Satisfies(leak, s, rank, thenChild.value, x)
      else elseChild.Some? ==> Satisfies(leak, s, rank, elseChild.value, x)
    case Contains(child, items, minContains, maxContains) =>
      var matching := |Matching(leak, s, rank, n, x, child, items)|;
      minContains <= matching && (maxContains.Some? ==> matching <= maxContains.value)
  }

  /** The `i`-th subschema is satisfied and no other is. */
  ghost predicate OnlyChild(leak: bool, s: Schema, rank: seq<nat>, n: nat, x: Json, children: seq<nat>, i: nat)
    requires Ready(s, rank, n) && i < |children|
    requires forall k :: 0 <= k < |children| ==> children[k] < |rank| && rank[children[k]] < rank[n]
    decreases Height(x), rank[n], 0
  {
    && Satisfies(leak, s, rank, children[i], x)
    && forall j :: 0 <= j < |children| && j != i ==> !Satisfies(leak, s, rank, children[j], x)
  }

  /** The elements that satisfy the "contains" subschema. */
  ghost function Matching(leak: bool, s: Schema, rank: seq<nat>, n: nat, x: Json, child: nat,
                          items: seq<Json>): set<nat>
    requires Ready(s, rank, n) && child < |rank|
    requires forall i :: 0 <= i < |items| ==> Height(items[i]) < Height(x)
    decreases Height(x), rank[n], 0
  {
    set i: nat | i < |items| && Satisfies(leak, s, rank, child, items[i])
  }

  /** A member or element of `x` that schema node `n` evaluates, when `x` satisfies the node. */
  ghost predicate EvaluatedAt(leak: bool, s: Schema, rank: seq<nat>, n: nat, x: Json, p: Place)
    requires Ready(s, rank, n)
    decreases Height(x), rank[n], 3
  {
    assert StratifiedNode(s, rank, n) && AcyclicNode(s, rank, n);
    match s.nodes[n]
    case BooleanSchema(_) => false
    case ObjectSchema(plan, tracked, _) =>
      PlanIsReady(s, rank, n, x);
      var front, back := Front(plan(x), tracked), Back(plan(x), tracked);
      Seen(leak, s, rank, n, x, front, back, |back|, p)
    case RefSchema(target, _) => target.Some? && EvaluatedAt(leak, s, rank, target.value, x, p)
    case DynamicRefSchema(_, _) => false
  }

  ghost predicate EvaluatedBy(leak: bool, s: Schema, rank: seq<nat>, n: nat, x: Json, acts: seq<Action>, p: Place)
    requires ReadyActions(s, rank, n, x, acts)
    decreases Height(x), rank[n], 2, 0
  {
    exists i :: 0 <= i < |acts| && MarkedBy(leak, s, rank, n, x, acts[i], p)
  }

  /** Only subschemas that are satisfied, and applied to this very instance, contribute what they evaluate. */
  ghost predicate MarkedBy(leak: bool, s: Schema, rank: seq<nat>, n: nat, x: Json, act: Action, p: Place)
    requires ReadyAction(s, rank, n, x, act)
    decreases Height(x), rank[n], 1, act
  {
    match act
    case Guarded(body) => exists i :: 0 <= i < |body| && MarkedBy(leak, s, rank, n, x, body[i], p)
    case Fail(_) => false
    case Mark(places) => p in places
    case Visit(child, instance, _, suspended) => !suspended && EvaluatedAt(leak, s, rank, child, instance, p)
    case AnyOf(children) => exists i :: 0 <= i < |children| && Contributes(leak, s, rank, n, x, children[i], p)
    case OneOf(children) => exists i :: 0 <= i < |children| && Contributes(leak, s, rank, n, x, children[i], p)
    case Not(_) => false
    case IfThenElse(condition, thenChild, elseChild) =>
      if Satisfies(leak, s, rank, condition, x) then
        EvaluatedAt(leak, s, rank, condition, x, p) ||
        (thenChild.Some? && EvaluatedAt(leak, s, rank, thenChild.value, x, p))
      else elseChild.Some? && EvaluatedAt(leak, s, rank, elseChild.value, x, p)
    case Contains(child, items, _, _) => p.Item? && p.index in Matching(leak, s, rank, n, x, child, items)
  }

  ghost predicate Contributes(leak: bool, s: Schema, rank: seq<nat>, n: nat, x: Json, child: nat, p: Place)
    requires Ready(s, rank, n) && child < |rank| && rank[child] < rank[n]
    decreases Height(x), rank[n], 0
  {
    Satisfies(leak, s, rank, child, x) && EvaluatedAt(leak, s, rank, child, x, p)
  }

  /** Satisfaction, from the front and the back of the plan. */
  lemma SatisfiesByParts(leak: bool, s: Schema, rank: seq<nat>, n: nat, x: Json)
    requires Ready(s, rank, n) && s.nodes[n].ObjectSchema?
    ensures var acts, tracked := s.nodes[n].plan(x), s.nodes[n].tracked;
            var front, back := Front(acts, tracked), Back(acts, tracked);
            && ReadyActions(s, rank, n, x, front) && ReadyBack(s, rank, n, x, back)
            && (Satisfies(leak, s, rank, n, x) <==>
                && AllHold(leak, s, rank, n, x, front)
                && SatisfiesBack(leak, s, rank, n, x, front, back, 0))
  {
    PlanIsReady(s, rank, n, x);
  }

  lemma SatisfiesBackStep(leak: bool, s: Schema, rank: seq<nat>, n: nat, x: Json,
                          front: seq<Action>, back: seq<Action>, i: nat)
    requires ReadyActions(s, rank, n, x, front) && ReadyBack(s, rank, n, x, back) && i < |back|
    ensures SatisfiesBack(leak, s, rank, n, x, front, back, i) <==>
            SatisfiesOrSeen(leak, s, rank, n, x, front, back, i) &&
            SatisfiesBack(leak, s, rank, n, x, front, back, i + 1)
  {
    if SatisfiesOrSeen(leak, s, rank, n, x, front, back, i) && SatisfiesBack(leak, s, rank, n, x, front, back, i + 1) {
      forall j | i <= j < |back|
        ensures SatisfiesOrSeen(leak, s, rank, n, x, front, back, j)
      {
        assert j > i ==> SatisfiesOrSeen(leak, s, rank, n, x, front, back, j);
      }
    }
  }

  /** Without a leak a place is seen when an action evaluated it or its turn has come. */
  lemma {:induction false} SeenWithoutLeak(s: Schema, rank: seq<nat>, n: nat, x: Json,
                                          front: seq<Action>, back: seq<Action>, i: nat, p: Place)
    requires ReadyActions(s, rank, n, x, front) && ReadyBack(s, rank, n, x, back) && i <= |back|
    ensures Seen(false, s, rank, n, x, front, back, i, p) <==>
            EvaluatedBy(false, s, rank, n, x, front, p) || exists j :: 0 <= j < i && back[j].place == p
  {
    if i > 0 {
      SeenWithoutLeak(s, rank, n, x, front, back, i - 1, p);
    }
  }
}
