/**
 * unevaluatedProperties and unevaluatedItems look at members and elements with
 * the tracker of the enclosing value still attached. When that changes the
 * verdict, and when it does not.
 */
module SchemaLeak {
  import opened JsonValue
  import opened SchemaGraph
  import opened SchemaTermination
  import opened SchemaEntry
  import opened SchemaReading
  import opened SchemaMeaning

  // ---------------------------------------------------------------------
  // Regular schemas
  // ---------------------------------------------------------------------

  /** The places by which evaluation at `x` can matter: its own; at a scalar, such as a member name, all. */
  predicate Relevant(x: Json, p: Place) {
    match x
    case Arr(items) => p.Item? && p.index < |items|
    case Obj(members) => p.Property? && p.name in members
    case _ => true
  }

  /** A tracker is suspended but at the instance itself and at scalars. */
  predicate RegularAction(x: Json, act: Action) {
    match act
    case Guarded(body) => forall i :: 0 <= i < |body| ==> RegularAction(x, body[i])
    case Visit(_, instance, _, suspended) => suspended || instance == x || !instance.IsContainer()
    case _ => true
  }

  predicate HasPlace(back: seq<Action>, p: Place) {
    exists i :: 0 <= i < |back| && back[i].Unevaluated? && back[i].place == p
  }

  /** unevaluatedProperties / unevaluatedItems look at all members or elements, or at none. */
  ghost predicate RegularBack(x: Json, back: seq<Action>) {
    && (forall i :: 0 <= i < |back| ==> back[i].Unevaluated? && Relevant(x, back[i].place))
    && (back != [] ==> forall p :: Relevant(x, p) ==> HasPlace(back, p))
  }

  ghost predicate RegularPlan(x: Json, acts: seq<Action>, tracked: bool) {
    && (forall i :: 0 <= i < |Front(acts, tracked)| ==> RegularAction(x, Front(acts, tracked)[i]))
    && RegularBack(x, Back(acts, tracked))
  }

  ghost predicate RegularNode(node: Node) {
    node.ObjectSchema? ==> forall x: Json :: RegularPlan(x, node.plan(x), node.tracked)
  }

  ghost predicate Regular(s: Schema) {
    forall n :: 0 <= n < |s.nodes| ==> RegularNode(s.nodes[n])
  }

  // ---------------------------------------------------------------------
  // Where the two readings agree
  // ---------------------------------------------------------------------

  /** The validator's reading of node `n` at `x` and the specification's are the same. */
  ghost predicate Agree(s: Schema, rank: seq<nat>, n: nat, x: Json)
    requires Ready(s, rank, n)
  {
    && (Satisfies(true, s, rank, n, x) <==> Satisfies(false, s, rank, n, x))
    && forall p :: Relevant(x, p) ==> (EvaluatedAt(true, s, rank, n, x, p) <==> EvaluatedAt(false, s, rank, n, x, p))
  }

  /** The action applies node `m` to `y`. */
  predicate Applies(x: Json, act: Action, m: nat, y: Json) {
    match act
    case Guarded(body) => exists i :: 0 <= i < |body| && Applies(x, body[i], m, y)
    case Visit(child, instance, _, _) => m == child && y == instance
    case Unevaluated(_, child, instance) => m == child && y == instance
    case AnyOf(children) => m in children && y == x
    case OneOf(children) => m in children && y == x
    case Not(child) => m == child && y == x
    case IfThenElse(condition, thenChild, elseChild) =>
      (m == condition || Some(m) == thenChild || Some(m) == elseChild) && y == x
    case Contains(child, items, _, _) => m == child && y in items
    case _ => false
  }

  /** Node `n` at `x` looks at node `m` at `y`. */
  ghost predicate Looks(s: Schema, n: nat, x: Json, m: nat, y: Json)
    requires n < |s.nodes|
  {
    match s.nodes[n]
    case ObjectSchema(plan, _, _) => exists i :: 0 <= i < |plan(x)| && Applies(x, plan(x)[i], m, y)
    case RefSchema(target, _) => target == Some(m) && y == x
    case _ => false
  }

  ghost predicate AgreeOn(s: Schema, rank: seq<nat>, x: Json, act: Action)
    requires Acyclic(s, rank)
  {
    forall m: nat, y: Json :: m < |rank| && Applies(x, act, m, y) ==> Agree(s, rank, m, y)
  }

  ghost predicate AgreeOnAll(s: Schema, rank: seq<nat>, x: Json, acts: seq<Action>)
    requires Acyclic(s, rank)
  {
    forall i :: 0 <= i < |acts| ==> AgreeOn(s, rank, x, acts[i])
  }

  /** They are the same wherever node `n` at `x` looks. */
  ghost predicate AgreeBelow(s: Schema, rank: seq<nat>, n: nat, x: Json)
    requires Ready(s, rank, n)
  {
    forall m: nat, y: Json :: m < |rank| && Looks(s, n, x, m, y) ==> Agree(s, rank, m, y)
  }

  lemma BodyAgrees(s: Schema, rank: seq<nat>, x: Json, body: seq<Action>)
    requires Acyclic(s, rank) && AgreeOn(s, rank, x, Guarded(body))
    ensures AgreeOnAll(s, rank, x, body)
  {
    forall i, m: nat, y: Json | 0 <= i < |body| && m < |rank| && Applies(x, body[i], m, y)
      ensures Agree(s, rank, m, y)
    {
      assert Applies(x, Guarded(body), m, y);
    }
  }

  /** The parts of a plan look where the plan does. */
  lemma PlanAgrees(s: Schema, rank: seq<nat>, n: nat, x: Json)
    requires Ready(s, rank, n) && AgreeBelow(s, rank, n, x) && s.nodes[n].ObjectSchema?
    ensures var acts, tracked := s.nodes[n].plan(x), s.nodes[n].tracked;
            AgreeOnAll(s, rank, x, Front(acts, tracked)) && AgreeOnAll(s, rank, x, Back(acts, tracked))
  {
    var acts, tracked := s.nodes[n].plan(x), s.nodes[n].tracked;
    forall i, m: nat, y: Json | 0 <= i < |acts| && m < |rank| && Applies(x, acts[i], m, y)
      ensures Agree(s, rank, m, y)
    {
      assert Looks(s, n, x, m, y);
    }
    if tracked && acts != [] && acts[|acts| - 1].Guarded? {
      BodyAgrees(s, rank, x, acts[|acts| - 1].body);
    }
  }

  lemma {:induction false} ActionAgrees(s: Schema, rank: seq<nat>, n: nat, x: Json, act: Action)
    requires ReadyAction(s, rank, n, x, act) && AgreeOn(s, rank, x, act)
    ensures SatisfiesAction(true, s, rank, n, x, act) <==> SatisfiesAction(false, s, rank, n, x, act)
    decreases act
  {
    match act
    case Guarded(body) =>
      BodyAgrees(s, rank, x, body);
      forall i | 0 <= i < |body|
        ensures SatisfiesAction(true, s, rank, n, x, body[i]) <==> SatisfiesAction(false, s, rank, n, x, body[i])
      {
        ActionAgrees(s, rank, n, x, body[i]);
      }
    case Visit(child, instance, _, _) =>
      assert Agree(s, rank, child, instance);
    case AnyOf(children) =>
      assert forall i :: 0 <= i < |children| ==> Agree(s, rank, children[i], x);
    case OneOf(children) => OneOfAgrees(s, rank, n, x, children);
    case Not(child) =>
      assert Agree(s, rank, child, x);
    case IfThenElse(condition, thenChild, elseChild) =>
      assert Agree(s, rank, condition, x);
      assert thenChild.Some? ==> Agree(s, rank, thenChild.value, x);
      assert elseChild.Some? ==> Agree(s, rank, elseChild.value, x);
    case Contains(child, items, _, _) => MatchingAgrees(s, rank, n, x, child, items);
    case _ =>
  }

  lemma OneOfAgrees(s: Schema, rank: seq<nat>, n: nat, x: Json, children: seq<nat>)
    requires ReadyAction(s, rank, n, x, OneOf(children)) && AgreeOn(s, rank, x, OneOf(children))
    ensures SatisfiesAction(true, s, rank, n, x, OneOf(children)) <==>
            SatisfiesAction(false, s, rank, n, x, OneOf(children))
  {
    assert forall i :: 0 <= i < |children| ==> Agree(s, rank, children[i], x);
    forall i | 0 <= i < |children|
      ensures OnlyChild(true, s, rank, n, x, children, i) <==> OnlyChild(false, s, rank, n, x, children, i)
    {
    }
  }

  lemma MatchingAgrees(s: Schema, rank: seq<nat>, n: nat, x: Json, child: nat, items: seq<Json>)
    requires Ready(s, rank, n) && child < |rank| && forall y :: y in items ==> Agree(s, rank, child, y)
    requires forall i :: 0 <= i < |items| ==> Height(items[i]) < Height(x)
    ensures Matching(true, s, rank, n, x, child, items) == Matching(false, s, rank, n, x, child, items)
  {
    assert forall i :: 0 <= i < |items| ==> Agree(s, rank, child, items[i]);
  }

  lemma {:induction false} MarksAgree(s: Schema, rank: seq<nat>, n: nat, x: Json, act: Action, p: Place)
    requires ReadyAction(s, rank, n, x, act) && RegularAction(x, act) && AgreeOn(s, rank, x, act) && Relevant(x, p)
    ensures MarkedBy(true, s, rank, n, x, act, p) <==> MarkedBy(false, s, rank, n, x, act, p)
    decreases act
  {
    match act
    case Guarded(body) =>
      BodyAgrees(s, rank, x, body);
      forall i | 0 <= i < |body|
        ensures MarkedBy(true, s, rank, n, x, body[i], p) <==> MarkedBy(false, s, rank, n, x, body[i], p)
      {
        MarksAgree(s, rank, n, x, body[i], p);
      }
    case Visit(child, instance, _, _) =>
      assert Agree(s, rank, child, instance);
    case AnyOf(children) => ContributionsAgree(s, rank, n, x, children, p);
    case OneOf(children) => ContributionsAgree(s, rank, n, x, children, p);
    case IfThenElse(condition, thenChild, elseChild) =>
      assert Agree(s, rank, condition, x);
      assert thenChild.Some? ==> Agree(s, rank, thenChild.value, x);
      assert elseChild.Some? ==> Agree(s, rank, elseChild.value, x);
    case Contains(child, items, _, _) => MatchingAgrees(s, rank, n, x, child, items);
    case _ =>
  }

  lemma ContributionsAgree(s: Schema, rank: seq<nat>, n: nat, x: Json, children: seq<nat>, p: Place)
    requires Ready(s, rank, n) && Relevant(x, p)
    requires forall i :: 0 <= i < |children| ==>
               children[i] < |rank| && rank[children[i]] < rank[n] && Agree(s, rank, children[i], x)
    ensures forall i :: 0 <= i < |children| ==>
              (Contributes(true, s, rank, n, x, children[i], p) <==> Contributes(false, s, rank, n, x, children[i], p))
  {
    assert forall i :: 0 <= i < |children| ==> Agree(s, rank, children[i], x);
  }

  lemma FrontAgrees(s: Schema, rank: seq<nat>, n: nat, x: Json, front: seq<Action>)
    requires ReadyActions(s, rank, n, x, front) && AgreeOnAll(s, rank, x, front)
    requires forall i :: 0 <= i < |front| ==> RegularAction(x, front[i])
    ensures AllHold(true, s, rank, n, x, front) <==> AllHold(false, s, rank, n, x, front)
    ensures forall p :: Relevant(x, p) ==>
              (EvaluatedBy(true, s, rank, n, x, front, p) <==> EvaluatedBy(false, s, rank, n, x, front, p))
  {
    forall i | 0 <= i < |front|
      ensures SatisfiesAction(true, s, rank, n, x, front[i]) <==> SatisfiesAction(false, s, rank, n, x, front[i])
    {
      ActionAgrees(s, rank, n, x, front[i]);
    }
    forall p | Relevant(x, p)
      ensures EvaluatedBy(true, s, rank, n, x, front, p) <==> EvaluatedBy(false, s, rank, n, x, front, p)
    {
      forall i | 0 <= i < |front|
        ensures MarkedBy(true, s, rank, n, x, front[i], p) <==> MarkedBy(false, s, rank, n, x, front[i], p)
      {
        MarksAgree(s, rank, n, x, front[i], p);
      }
    }
  }

  // ---------------------------------------------------------------------
  // Places hidden by an earlier sibling
  // ---------------------------------------------------------------------

  /** The subschema is visited at the `j`-th place, and evaluates `p` there. */
  ghost predicate LeaksInto(s: Schema, rank: seq<nat>, n: nat, x: Json, front: seq<Action>, back: seq<Action>, j: nat,
                            p: Place)
    requires ReadyActions(s, rank, n, x, front) && ReadyBack(s, rank, n, x, back) && j < |back|
  {
    && !Seen(true, s, rank, n, x, front, back, j, back[j].place)
    && EvaluatedAt(true, s, rank, back[j].child, back[j].instance, p)
  }

  lemma {:induction false} SeenWithLeak(s: Schema, rank: seq<nat>, n: nat, x: Json,
                                       front: seq<Action>, back: seq<Action>, i: nat, p: Place)
    requires ReadyActions(s, rank, n, x, front) && ReadyBack(s, rank, n, x, back) && i <= |back|
    ensures Seen(true, s, rank, n, x, front, back, i, p) <==>
            || EvaluatedBy(true, s, rank, n, x, front, p)
            || (exists j :: 0 <= j < i && back[j].place == p)
            || (exists j :: 0 <= j < i && LeaksInto(s, rank, n, x, front, back, j, p))
  {
    if i > 0 {
      SeenWithLeak(s, rank, n, x, front, back, i - 1, p);
      assert Seen(true, s, rank, n, x, front, back, i, p) <==>
             || Seen(true, s, rank, n, x, front, back, i - 1, p) || back[i - 1].place == p
             || LeaksInto(s, rank, n, x, front, back, i - 1, p);
    }
  }

  /** The `i`-th place is left unevaluated by the keywords, not satisfied, and marked by an earlier sibling's visit. */
  ghost predicate HiddenPlace(s: Schema, rank: seq<nat>, n: nat, x: Json, front: seq<Action>, back: seq<Action>, i: nat)
    requires ReadyActions(s, rank, n, x, front) && ReadyBack(s, rank, n, x, back) && i < |back|
  {
    && !EvaluatedBy(false, s, rank, n, x, front, back[i].place)
    && !Satisfies(false, s, rank, back[i].child, back[i].instance)
    && exists j :: 0 <= j < i && LeaksInto(s, rank, n, x, front, back, j, back[i].place)
  }

  /** A place is all that the instance fails by, and every such place is hidden. */
  ghost predicate HiddenBack(s: Schema, rank: seq<nat>, n: nat, x: Json, front: seq<Action>, back: seq<Action>)
    requires ReadyActions(s, rank, n, x, front) && ReadyBack(s, rank, n, x, back)
  {
    && AllHold(false, s, rank, n, x, front)
    && (exists i :: 0 <= i < |back| && HiddenPlace(s, rank, n, x, front, back, i))
    && (forall i :: 0 <= i < |back| ==>
          || EvaluatedBy(false, s, rank, n, x, front, back[i].place)
          || Satisfies(false, s, rank, back[i].child, back[i].instance)
          || HiddenPlace(s, rank, n, x, front, back, i))
  }

  ghost predicate Hidden(s: Schema, rank: seq<nat>, n: nat, x: Json)
    requires Ready(s, rank, n)
  {
    && s.nodes[n].ObjectSchema?
    && var node := s.nodes[n];
       PlanIsReady(s, rank, n, x);
       HiddenBack(s, rank, n, x, Front(node.plan(x), node.tracked), Back(node.plan(x), node.tracked))
  }

  lemma OnePlaceAgrees(s: Schema, rank: seq<nat>, n: nat, x: Json, front: seq<Action>, back: seq<Action>, i: nat)
    requires ReadyActions(s, rank, n, x, front) && ReadyBack(s, rank, n, x, back) && AgreeOnAll(s, rank, x, front)
    requires AgreeOnAll(s, rank, x, back) && i < |back|
    requires (forall k :: 0 <= k < |front| ==> RegularAction(x, front[k])) && RegularBack(x, back)
    ensures SatisfiesOrSeen(false, s, rank, n, x, front, back, i) <==>
            || EvaluatedBy(false, s, rank, n, x, front, back[i].place)
            || Satisfies(false, s, rank, back[i].child, back[i].instance)
    ensures SatisfiesOrSeen(true, s, rank, n, x, front, back, i) <==>
            SatisfiesOrSeen(false, s, rank, n, x, front, back, i) || HiddenPlace(s, rank, n, x, front, back, i)
  {
    var p := back[i].place;
    SeenWithoutLeak(s, rank, n, x, front, back, i, p);
    SeenWithLeak(s, rank, n, x, front, back, i, p);
    FrontAgrees(s, rank, n, x, front);
    assert Relevant(x, p);
    assert Agree(s, rank, back[i].child, back[i].instance);
  }

  lemma BackAgreesIff(s: Schema, rank: seq<nat>, n: nat, x: Json, front: seq<Action>, back: seq<Action>)
    requires ReadyActions(s, rank, n, x, front) && ReadyBack(s, rank, n, x, back) && AgreeOnAll(s, rank, x, front)
    requires AgreeOnAll(s, rank, x, back)
    requires (forall k :: 0 <= k < |front| ==> RegularAction(x, front[k])) && RegularBack(x, back)
    ensures var strict := AllHold(false, s, rank, n, x, front) && SatisfiesBack(false, s, rank, n, x, front, back, 0);
            var lax := AllHold(true, s, rank, n, x, front) && SatisfiesBack(true, s, rank, n, x, front, back, 0);
            && (strict ==> lax)
            && (lax && !strict <==> HiddenBack(s, rank, n, x, front, back))
  {
    FrontAgrees(s, rank, n, x, front);
    forall i | 0 <= i < |back|
      ensures SatisfiesOrSeen(false, s, rank, n, x, front, back, i) <==>
              || EvaluatedBy(false, s, rank, n, x, front, back[i].place)
              || Satisfies(false, s, rank, back[i].child, back[i].instance)
      ensures SatisfiesOrSeen(true, s, rank, n, x, front, back, i) <==>
              SatisfiesOrSeen(false, s, rank, n, x, front, back, i) || HiddenPlace(s, rank, n, x, front, back, i)
    {
      OnePlaceAgrees(s, rank, n, x, front, back, i);
    }
  }

  /** A place whose turn has come is seen from then on. */
  lemma {:induction false} TurnIsSeen(leak: bool, s: Schema, rank: seq<nat>, n: nat, x: Json,
                                     front: seq<Action>, back: seq<Action>, i: nat, j: nat)
    requires ReadyActions(s, rank, n, x, front) && ReadyBack(s, rank, n, x, back) && j < i <= |back|
    ensures Seen(leak, s, rank, n, x, front, back, i, back[j].place)
  {
    if j < i - 1 {
      TurnIsSeen(leak, s, rank, n, x, front, back, i - 1, j);
    }
  }

  lemma SeenAgrees(s: Schema, rank: seq<nat>, n: nat, x: Json, front: seq<Action>, back: seq<Action>, p: Place)
    requires ReadyActions(s, rank, n, x, front) && ReadyBack(s, rank, n, x, back) && AgreeOnAll(s, rank, x, front)
    requires AgreeOnAll(s, rank, x, back)
    requires (forall k :: 0 <= k < |front| ==> RegularAction(x, front[k])) && RegularBack(x, back) && Relevant(x, p)
    ensures Seen(true, s, rank, n, x, front, back, |back|, p) <==> Seen(false, s, rank, n, x, front, back, |back|, p)
  {
    if back == [] {
      FrontAgrees(s, rank, n, x, front);
    } else {
      assert HasPlace(back, p);
      var j :| 0 <= j < |back| && back[j].Unevaluated? && back[j].place == p;
      TurnIsSeen(true, s, rank, n, x, front, back, |back|, j);
      TurnIsSeen(false, s, rank, n, x, front, back, |back|, j);
    }
  }

  /** Where the readings agree below a node, they agree at it unless a place is hidden there. */
  lemma NodeAgreesIff(s: Schema, rank: seq<nat>, n: nat, x: Json)
    requires Ready(s, rank, n) && Regular(s) && AgreeBelow(s, rank, n, x)
    ensures Satisfies(false, s, rank, n, x) ==> Satisfies(true, s, rank, n, x)
    ensures Agree(s, rank, n, x) <==> !Hidden(s, rank, n, x)
    ensures Hidden(s, rank, n, x) <==> Satisfies(true, s, rank, n, x) && !Satisfies(false, s, rank, n, x)
  {
    assert StratifiedNode(s, rank, n) && AcyclicNode(s, rank, n) && RegularNode(s.nodes[n]);
    match s.nodes[n]
    case ObjectSchema(plan, tracked, _) => ObjectAgreesIff(s, rank, n, x);
    case RefSchema(target, _) =>
      assert target.Some? ==> Agree(s, rank, target.value, x);
    case _ =>
  }

  lemma ObjectAgreesIff(s: Schema, rank: seq<nat>, n: nat, x: Json)
    requires Ready(s, rank, n) && Regular(s) && AgreeBelow(s, rank, n, x) && s.nodes[n].ObjectSchema?
    ensures Satisfies(false, s, rank, n, x) ==> Satisfies(true, s, rank, n, x)
    ensures Agree(s, rank, n, x) <==> !Hidden(s, rank, n, x)
    ensures Hidden(s, rank, n, x) <==> Satisfies(true, s, rank, n, x) && !Satisfies(false, s, rank, n, x)
  {
    var node := s.nodes[n];
    assert RegularNode(node) && RegularPlan(x, node.plan(x), node.tracked);
    var front, back := Front(node.plan(x), node.tracked), Back(node.plan(x), node.tracked);
    PlanIsReady(s, rank, n, x);
    PlanAgrees(s, rank, n, x);
    BackAgreesIff(s, rank, n, x, front, back);
    SatisfiesByParts(true, s, rank, n, x);
    SatisfiesByParts(false, s, rank, n, x);
    forall p | Relevant(x, p)
      ensures EvaluatedAt(true, s, rank, n, x, p) <==> EvaluatedAt(false, s, rank, n, x, p)
    {
      SeenAgrees(s, rank, n, x, front, back, p);
    }
  }

  // ---------------------------------------------------------------------
  // Whole instances
  // ---------------------------------------------------------------------

  ghost predicate Lower(rank: seq<nat>, m: nat, y: Json, n: nat, x: Json)
    requires m < |rank| && n < |rank|
  {
    Height(y) < Height(x) || (Height(y) == Height(x) && rank[m] < rank[n])
  }

  /** The reading of node `n` at `x` comes to node `m` at `y`. */
  ghost predicate Reaches(s: Schema, rank: seq<nat>, n: nat, x: Json, m: nat, y: Json)
    requires Ready(s, rank, n)
    decreases Height(x), rank[n]
  {
    || (m == n && y == x)
    || exists c: nat, z ::
         c < |rank| && Looks(s, n, x, c, z) && Lower(rank, c, z, n, x) && Reaches(s, rank, c, z, m, y)
  }

  lemma {:induction false} AppliedIsLower(s: Schema, rank: seq<nat>, n: nat, x: Json, act: Action, m: nat, y: Json)
    requires Ready(s, rank, n) && StratifiedAction(s, rank, n, x, act) && Applies(x, act, m, y)
    requires AcyclicAction(rank, n, x, act) || act.Unevaluated?
    ensures m < |rank| && Lower(rank, m, y, n, x)
    decreases act
  {
    if act.Guarded? {
      var i :| 0 <= i < |act.body| && Applies(x, act.body[i], m, y);
      AppliedIsLower(s, rank, n, x, act.body[i], m, y);
    }
  }

  lemma LooksLower(s: Schema, rank: seq<nat>, n: nat, x: Json, m: nat, y: Json)
    requires Ready(s, rank, n) && Looks(s, n, x, m, y)
    ensures m < |rank| && Lower(rank, m, y, n, x)
  {
    assert StratifiedNode(s, rank, n) && AcyclicNode(s, rank, n);
    if s.nodes[n].ObjectSchema? {
      var acts, tracked := s.nodes[n].plan(x), s.nodes[n].tracked;
      assert AcyclicPlan(rank, n, x, acts, tracked);
      var i :| 0 <= i < |acts| && Applies(x, acts[i], m, y);
      if tracked && i == |acts| - 1 {
        var j :| 0 <= j < |acts[i].body| && Applies(x, acts[i].body[j], m, y);
        AppliedIsLower(s, rank, n, x, acts[i].body[j], m, y);
      } else {
        assert acts[i] == Front(acts, tracked)[i];
        AppliedIsLower(s, rank, n, x, acts[i], m, y);
      }
    }
  }

  lemma {:induction false} ReachesOn(s: Schema, rank: seq<nat>, n: nat, x: Json, m: nat, y: Json, c: nat, z: Json)
    requires Ready(s, rank, n) && Reaches(s, rank, n, x, m, y) && Ready(s, rank, m) && Reaches(s, rank, m, y, c, z)
    ensures Reaches(s, rank, n, x, c, z)
    decreases Height(x), rank[n]
  {
    if !(m == n && y == x) {
      var k: nat, w :| k < |rank| && Looks(s, n, x, k, w) && Lower(rank, k, w, n, x) && Reaches(s, rank, k, w, m, y);
      ReachesOn(s, rank, k, w, m, y, c, z);
    }
  }

  lemma LooksReaches(s: Schema, rank: seq<nat>, n: nat, x: Json, m: nat, y: Json)
    requires Ready(s, rank, n) && Looks(s, n, x, m, y)
    ensures m < |rank| && Reaches(s, rank, n, x, m, y)
  {
    LooksLower(s, rank, n, x, m, y);
    assert Reaches(s, rank, m, y, m, y);
  }

  /** No place is hidden wherever the reading comes to. */
  ghost predicate NothingHidden(s: Schema, rank: seq<nat>, n: nat, x: Json)
    requires Ready(s, rank, n)
  {
    forall m: nat, y :: m < |rank| && Reaches(s, rank, n, x, m, y) ==> !Hidden(s, rank, m, y)
  }

  ghost predicate AgreeThroughout(s: Schema, rank: seq<nat>, n: nat, x: Json)
    requires Ready(s, rank, n)
  {
    forall m: nat, y :: m < |rank| && Reaches(s, rank, n, x, m, y) ==> Agree(s, rank, m, y)
  }

  lemma HiddenNowhereOn(s: Schema, rank: seq<nat>, n: nat, x: Json, m: nat, y: Json)
    requires Ready(s, rank, n) && NothingHidden(s, rank, n, x) && m < |rank| && Reaches(s, rank, n, x, m, y)
    ensures NothingHidden(s, rank, m, y)
  {
    forall c: nat, z | c < |rank| && Reaches(s, rank, m, y, c, z)
      ensures !Hidden(s, rank, c, z)
    {
      ReachesOn(s, rank, n, x, m, y, c, z);
    }
  }

  lemma {:induction false} AgreesAt(s: Schema, rank: seq<nat>, n: nat, x: Json)
    requires Ready(s, rank, n) && Regular(s) && NothingHidden(s, rank, n, x)
    ensures Agree(s, rank, n, x)
    decreases Height(x), rank[n]
  {
    forall m: nat, y: Json | m < |rank| && Looks(s, n, x, m, y)
      ensures Agree(s, rank, m, y)
    {
      LooksLower(s, rank, n, x, m, y);
      LooksReaches(s, rank, n, x, m, y);
      HiddenNowhereOn(s, rank, n, x, m, y);
      AgreesAt(s, rank, m, y);
    }
    assert Reaches(s, rank, n, x, n, x);
    NodeAgreesIff(s, rank, n, x);
  }

  /** The readings of a node are the same, all the way down, exactly when nothing is hidden on the way. */
  lemma ReadingsAgreeIff(s: Schema, rank: seq<nat>, n: nat, x: Json)
    requires Ready(s, rank, n) && Regular(s)
    ensures AgreeThroughout(s, rank, n, x) <==> NothingHidden(s, rank, n, x)
  {
    if NothingHidden(s, rank, n, x) {
      forall m: nat, y | m < |rank| && Reaches(s, rank, n, x, m, y)
        ensures Agree(s, rank, m, y)
      {
        HiddenNowhereOn(s, rank, n, x, m, y);
        AgreesAt(s, rank, m, y);
      }
    }
    if AgreeThroughout(s, rank, n, x) {
      forall m: nat, y | m < |rank| && Reaches(s, rank, n, x, m, y)
        ensures !Hidden(s, rank, m, y)
      {
        forall c: nat, z: Json | c < |rank| && Looks(s, m, y, c, z)
          ensures Agree(s, rank, c, z)
        {
          LooksReaches(s, rank, m, y, c, z);
          ReachesOn(s, rank, n, x, m, y, c, z);
        }
        NodeAgreesIff(s, rank, m, y);
      }
    }
  }

  /** Where nothing is hidden, the validator decides what the specification says. */
  lemma NothingHiddenDecides(schema: Schema, rank: seq<nat>, instance: Json)
    requires Acyclic(schema, rank) && Regular(schema) && NothingHidden(schema, rank, schema.root, instance)
    ensures Collected(schema, instance, []) <==> Satisfies(false, schema, rank, schema.root, instance)
  {
    ValidatorDecides(schema, rank, instance);
    AgreesAt(schema, rank, schema.root, instance);
  }

  /**
   * Where the readings agree on all that the root looks at, the validator errs
   * exactly when a place is hidden at the root, and then by accepting.
   */
  lemma ErrsExactlyWhenHidden(schema: Schema, rank: seq<nat>, instance: Json)
    requires Acyclic(schema, rank) && Regular(schema) && AgreeBelow(schema, rank, schema.root, instance)
    ensures Hidden(schema, rank, schema.root, instance) <==>
            Collected(schema, instance, []) && !Satisfies(false, schema, rank, schema.root, instance)
    ensures Satisfies(false, schema, rank, schema.root, instance) ==> Collected(schema, instance, [])
  {
    ValidatorDecides(schema, rank, instance);
    NodeAgreesIff(schema, rank, schema.root, instance);
  }
}
