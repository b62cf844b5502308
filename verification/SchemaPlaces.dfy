/** Where in the instance the errors are, and where a fail-fast run stops. */
module SchemaPlaces {
  import opened JsonValue
  import opened SchemaGraph
  import opened SchemaKeywords
  import opened SchemaEntry
  import opened SchemaLaws
  import KeywordLaws = SchemaKeywordLaws

  /** The value an instance path leads to. */
  function ValueAt(x: Json, at: Path): Option<Json> {
    if at == [] then Some(x)
    else
      match at[0]
      case Property(name) => if x.Obj? && name in x.members then ValueAt(x.members[name], at[1..]) else None
      case Item(index) => if x.Arr? && index < |x.items| then ValueAt(x.items[index], at[1..]) else None
  }

  lemma {:induction false} ValueAtConcat(x: Json, a: Path, b: Path)
    ensures ValueAt(x, a + b) == if ValueAt(x, a).None? then None else ValueAt(ValueAt(x, a).value, b)
    decreases |a|
  {
    if a == [] {
      assert a + b == b;
    } else {
      assert (a + b)[0] == a[0] && (a + b)[1..] == a[1..] + b;
      match a[0]
      case Property(name) =>
        if x.Obj? && name in x.members {
          ValueAtConcat(x.members[name], a[1..], b);
        }
      case Item(index) =>
        if x.Arr? && index < |x.items| {
          ValueAtConcat(x.items[index], a[1..], b);
        }
    }
  }

  lemma OneStep(x: Json, place: Place)
    ensures ValueAt(x, [place]) ==
            match place
            case Property(name) => if x.Obj? && name in x.members then Some(x.members[name]) else None
            case Item(index) => if x.Arr? && index < |x.items| then Some(x.items[index]) else None
  {
    assert [place][1..] == [];
  }

  // ---------------------------------------------------------------------
  // Plans that follow the instance
  // ---------------------------------------------------------------------

  /** A subschema meets the value its step leads to; a member's name is looked at where the object is. */
  predicate Follows(x: Json, act: Action) {
    match act
    case Guarded(body) => forall i :: 0 <= i < |body| ==> Follows(x, body[i])
    case Fail(step) => ValueAt(x, step).Some?
    case Visit(_, instance, step, _) => ValueAt(x, step) == Some(instance) || (step == [] && instance.Str?)
    case Unevaluated(place, _, instance) => ValueAt(x, [place]) == Some(instance)
    case _ => true
  }

  predicate AllFollow(x: Json, acts: seq<Action>) {
    forall i :: 0 <= i < |acts| ==> Follows(x, acts[i])
  }

  ghost predicate PlansFollow(s: Schema) {
    forall n, x :: 0 <= n < |s.nodes| && s.nodes[n].ObjectSchema? ==> AllFollow(x, s.nodes[n].plan(x))
  }

  // ---------------------------------------------------------------------
  // Every run
  // ---------------------------------------------------------------------

  /** The nodes that errors of a kind come from. */
  predicate IsSource(node: Node, kind: ErrorKind) {
    match kind
    case KeywordFailed => node.ObjectSchema?
    case SchemaIsFalse => node == BooleanSchema(false)
    case RefCycleDetected => node.RefSchema? || node.DynamicRefSchema?
  }

  predicate HasSource(s: Schema, kind: ErrorKind) {
    exists n :: 0 <= n < |s.nodes| && IsSource(s.nodes[n], kind)
  }

  /** Errors are only added, each at or below `at`, where the root instance has a value, and of a kind with a source. */
  ghost predicate Placed(s: Schema, root: Json, at: Path, before: seq<ValidationError>, after: seq<ValidationError>) {
    && before <= after
    && forall i :: |before| <= i < |after| ==>
         at <= after[i].at && ValueAt(root, after[i].at).Some? && HasSource(s, after[i].kind)
  }

  lemma PlacedTwice(s: Schema, root: Json, at: Path, a: seq<ValidationError>, b: seq<ValidationError>,
                    c: seq<ValidationError>)
    requires Placed(s, root, at, a, b) && Placed(s, root, at, b, c)
    ensures Placed(s, root, at, a, c)
  {
    assert forall i :: |a| <= i < |b| ==> c[i] == b[i];
  }

  lemma PlacedHigher(s: Schema, root: Json, at: Path, step: Path, a: seq<ValidationError>, b: seq<ValidationError>)
    requires Placed(s, root, at + step, a, b)
    ensures Placed(s, root, at, a, b)
  {
    forall i | |a| <= i < |b|
      ensures at <= b[i].at
    {
      assert b[i].at[..|at + step|] == at + step;
    }
  }

  /** The instance of the frame is the value at its path, or the name of a member of that value. */
  predicate Stands(root: Json, f: Frame) {
    ValueAt(root, f.at).Some? && (ValueAt(root, f.at) == Some(f.instance) || f.instance.Str?)
  }

  /** The step an action takes down the instance. */
  function StepOf(act: Action): Path {
    match act
    case Fail(step) => step
    case Visit(_, _, step, _) => step
    case Unevaluated(place, _, _) => [place]
    case _ => []
  }

  /** A step that leads to a value of the frame's instance leads to the same value of the root's. */
  lemma StepStands(root: Json, f: Frame, step: Path)
    requires Stands(root, f) && ValueAt(f.instance, step).Some?
    ensures ValueAt(root, f.at + step).Some?
    ensures step != [] ==> ValueAt(root, f.at + step) == ValueAt(f.instance, step)
  {
    ValueAtConcat(root, f.at, step);
  }

  lemma PushedStands(root: Json, f: Frame, resource: Option<nat>)
    requires PlansFollow(f.schema) && Stands(root, f)
    ensures var g := PushResource(f, resource);
            g.schema == f.schema && g.at == f.at && g.instance == f.instance && Stands(root, g) && PlansFollow(g.schema)
  {
  }

  lemma {:induction false} NodePlaced(fuel: nat, n: nat, f: Frame, st: State, root: Json)
    requires PlansFollow(f.schema) && Stands(root, f) && RunNode(fuel, n, f, st).Some?
    ensures Placed(f.schema, root, f.at, st.errors, RunNode(fuel, n, f, st).value.errors)
    decreases fuel, 0
  {
    match f.schema.nodes[n]
    case BooleanSchema(value) =>
      assert !value ==> IsSource(f.schema.nodes[n], SchemaIsFalse);
    case ObjectSchema(plan, tracked, selfIndex) =>
      var inner := if tracked then State(st.errors, Some({})) else st;
      PushedStands(root, f, selfIndex);
      assert IsSource(f.schema.nodes[n], KeywordFailed);
      assert AllFollow(f.instance, plan(f.instance));
      ActionsPlaced(fuel - 1, plan(f.instance), PushResource(f, selfIndex), inner, root);
    case RefSchema(target, selfIndex) =>
      assert IsSource(f.schema.nodes[n], RefCycleDetected);
      if target.Some? {
        PushedStands(root, f, selfIndex);
        TargetPlaced(fuel - 1, target.value, PushResource(f, selfIndex), st, root);
      }
    case DynamicRefSchema(target, anchor) =>
      assert IsSource(f.schema.nodes[n], RefCycleDetected);
      if target.Some? {
        TargetPlaced(fuel - 1, DynamicTarget(f, target.value, anchor), f, st, root);
      }
  }

  lemma {:induction false} TargetPlaced(fuel: nat, target: nat, f: Frame, st: State, root: Json)
    requires HasSource(f.schema, RefCycleDetected)
    requires PlansFollow(f.schema) && Stands(root, f) && RunTarget(fuel, target, f, st).Some?
    ensures Placed(f.schema, root, f.at, st.errors, RunTarget(fuel, target, f, st).value.errors)
    decreases fuel, 1
  {
    if !(f.guarded && (target, f.at) in f.active) {
      NodePlaced(fuel, target, PushResource(f, Some(target)).(active := f.active + [(target, f.at)]), st, root);
    }
  }

  lemma {:induction false} ActionsPlaced(fuel: nat, acts: seq<Action>, f: Frame, st: State, root: Json)
    requires HasSource(f.schema, KeywordFailed)
    requires PlansFollow(f.schema) && Stands(root, f) && AllFollow(f.instance, acts)
    requires RunActions(fuel, acts, f, st).Some?
    ensures Placed(f.schema, root, f.at, st.errors, RunActions(fuel, acts, f, st).value.errors)
    decreases fuel, 2, acts
  {
    if acts != [] {
      var next := RunAction(fuel, acts[0], f, st).value;
      ActionPlaced(fuel, acts[0], f, st, root);
      ActionsPlaced(fuel, acts[1..], f, next, root);
      PlacedHigher(f.schema, root, f.at, StepOf(acts[0]), st.errors, next.errors);
      PlacedTwice(f.schema, root, f.at, st.errors, next.errors, RunActions(fuel, acts, f, st).value.errors);
    }
  }

  /** The errors of one action are at or below the place its step leads to. */
  lemma {:induction false} ActionPlaced(fuel: nat, act: Action, f: Frame, st: State, root: Json)
    requires HasSource(f.schema, KeywordFailed)
    requires PlansFollow(f.schema) && Stands(root, f) && Follows(f.instance, act) && RunAction(fuel, act, f, st).Some?
    ensures Placed(f.schema, root, f.at + StepOf(act), st.errors, RunAction(fuel, act, f, st).value.errors)
    decreases fuel, 2, act
  {
    assert f.at + [] == f.at;
    match act
    case Guarded(body) =>
      if ShouldContinue(f, st) {
        ActionsPlaced(fuel, body, f, st, root);
      }
    case Fail(step) => StepStands(root, f, step);
    case Mark(_) =>
    case Visit(child, instance, step, suspended) =>
      if step != [] {
        StepStands(root, f, step);
      }
      NodePlaced(fuel, child, f.(instance := instance, at := f.at + step),
                 if suspended then State(st.errors, None) else st, root);
    case Unevaluated(place, child, instance) =>
      StepStands(root, f, [place]);
      if RunNode(fuel, child, f.(instance := instance, at := f.at + [place]), st).Some? {
        NodePlaced(fuel, child, f.(instance := instance, at := f.at + [place]), st, root);
      }
    case _ => ProbingPlaced(fuel, act, f, st, root);
  }

  /** Nothing that a tried subschema reports is kept. */
  lemma {:induction false} ProbingPlaced(fuel: nat, act: Action, f: Frame, st: State, root: Json)
    requires HasSource(f.schema, KeywordFailed)
    requires PlansFollow(f.schema) && Stands(root, f) && act.Probes() && RunAction(fuel, act, f, st).Some?
    ensures Placed(f.schema, root, f.at, st.errors, RunAction(fuel, act, f, st).value.errors)
    decreases fuel, 1
  {
    var probes, limit := ProbesOf(act, f.instance, st.tracker.Some?), LimitOf(act, st.tracker.Some?);
    var hits := RunProbes(fuel, f, probes, 0, limit, []).value;
    var concluded := Conclude(act, hits, f.at, st);
    assert Placed(f.schema, root, f.at, st.errors, concluded.errors);
    if Branch(act, hits).Some? {
      NodePlaced(fuel, Branch(act, hits).value, f, concluded, root);
      PlacedTwice(f.schema, root, f.at, st.errors, concluded.errors, RunAction(fuel, act, f, st).value.errors);
    }
  }

  // ---------------------------------------------------------------------
  // Compiled keywords
  // ---------------------------------------------------------------------

  lemma AllFollowConcat(x: Json, a: seq<Action>, b: seq<Action>)
    requires AllFollow(x, a) && AllFollow(x, b)
    ensures AllFollow(x, a + b)
  {
  }

  lemma MemberFollows(k: Keywords, x: Json, name: Text)
    requires x.Obj? && name in x.members
    ensures AllFollow(x, MemberPart(k, name, x.members[name]))
  {
    OneStep(x, Property(name));
  }

  lemma MembersFollow(k: Keywords, x: Json, names: seq<Text>)
    requires x.Obj? && forall i :: 0 <= i < |names| ==> names[i] in x.members
    ensures AllFollow(x, MembersPart(k, x.members, names))
  {
    forall i | 0 <= i < |names|
      ensures Follows(x, MembersPart(k, x.members, names)[i])
    {
      MemberFollows(k, x, names[i]);
    }
  }

  lemma {:induction false} DependentRequiredFollows(x: Json, required: seq<(Text, seq<Text>)>, m: map<Text, Json>)
    ensures AllFollow(x, DependentRequiredPart(required, m))
  {
    if required != [] {
      DependentRequiredFollows(x, required[1..], m);
    }
  }

  lemma ObjectFollows(k: Keywords, x: Json, names: seq<Text>)
    requires x.Obj? && forall i :: 0 <= i < |names| ==> names[i] in x.members
    ensures AllFollow(x, ObjectPart(k, x, names))
  {
    MembersFollow(k, x, names);
    DependentRequiredFollows(x, k.dependentRequired, x.members);
    var first := Within(|x.members|, k.minProperties, k.maxProperties) + RequiredPart(k.required, x.members);
    AllFollowConcat(x, NamesPart(k, names), MembersPart(k, x.members, names));
    AllFollowConcat(x, DependentRequiredPart(k.dependentRequired, x.members), DependentPart(k, x));
    assert AllFollow(x, first);
  }

  lemma ItemFollows(x: Json, child: nat, i: nat)
    requires x.Arr? && i < |x.items|
    ensures Follows(x, VisitItem(child, x.items, i))
  {
    OneStep(x, Item(i));
  }

  lemma ArrayFollows(k: Keywords, x: Json)
    requires x.Arr?
    ensures AllFollow(x, ArrayPart(k, x.items))
  {
    var prefix, others := PrefixPart(k, x.items), ItemsPart(k, x.items);
    forall i | 0 <= i < |prefix|
      ensures Follows(x, prefix[i])
    {
      ItemFollows(x, k.prefixItems[i], i);
    }
    forall i | 0 <= i < |others|
      ensures Follows(x, others[i])
    {
      ItemFollows(x, k.items.value, |k.prefixItems| + i);
    }
    AllFollowConcat(x, prefix, others);
    AllFollowConcat(x, prefix + others, ContainsPart(k, x.items));
    AllFollowConcat(x, Within(|x.items|, k.minItems, k.maxItems), UniquePart(k, x.items));
  }

  lemma UnevaluatedFollows(k: Keywords, x: Json, names: seq<Text>)
    requires x.Obj? ==> forall i :: 0 <= i < |names| ==> names[i] in x.members
    ensures AllFollow(x, UnevaluatedPart(k, x, names))
  {
    var acts := UnevaluatedPart(k, x, names);
    forall i | 0 <= i < |acts|
      ensures Follows(x, acts[i])
    {
      OneStep(x, acts[i].place);
    }
  }

  lemma PhaseFollows(x: Json, body: seq<Action>)
    requires AllFollow(x, body)
    ensures AllFollow(x, [Guarded(body)])
  {
  }

  /** Whatever the keywords, each subschema they apply meets the value its step leads to. */
  lemma PlanFollows(k: Keywords, order: MemberOrder, x: Json)
    ensures AllFollow(x, Plan(k, order, x))
  {
    var names := NamesOf(order, x);
    if x.Obj? {
      ObjectFollows(k, x, names);
    } else if x.Arr? {
      ArrayFollows(k, x);
    }
    UnevaluatedFollows(k, x, names);
    CombinatorFollows(k, x);
    PhaseFollows(x, TypeSpecificPart(k, x, names));
    PhaseFollows(x, CombinatorPart(k, x));
    PhaseFollows(x, UnevaluatedPart(k, x, names));
    ValueFollows(k, x);
  }

  lemma CombinatorFollows(k: Keywords, x: Json)
    ensures AllFollow(x, CombinatorPart(k, x))
  {
  }

  lemma ValueFollows(k: Keywords, x: Json)
    ensures AllFollow(x, ValuePart(k, x))
  {
  }

  ghost predicate KeywordsCompiled(s: Schema, keywords: seq<Keywords>, order: MemberOrder) {
    && |keywords| == |s.nodes|
    && forall n :: 0 <= n < |s.nodes| && s.nodes[n].ObjectSchema? ==>
         s.nodes[n] == NodeOf(keywords[n], order, s.nodes[n].selfIndex)
  }

  /** Every error of a compiled schema is at a path by which the instance has a value, and of a kind with a source. */
  lemma ErrorsHavePlaces(s: Schema, instance: Json, errors: seq<ValidationError>, keywords: seq<Keywords>,
                         order: MemberOrder)
    requires KeywordsCompiled(s, keywords, order) && Collected(s, instance, errors)
    ensures forall i :: 0 <= i < |errors| ==>
              ValueAt(instance, errors[i].at).Some? && HasSource(s, errors[i].kind)
  {
    forall n: nat, x | n < |s.nodes| && s.nodes[n].ObjectSchema?
      ensures AllFollow(x, s.nodes[n].plan(x))
    {
      PlanFollows(keywords[n], order, x);
      assert s.nodes[n].plan(x) == Plan(keywords[n], order, x);
    }
    var fuel: nat, tracker :| RunRoot(fuel, s, instance, false) == Some(State(errors, tracker));
    NodePlaced(fuel, s.root, RootFrame(s, instance, false), State([], None), instance);
  }

  // ---------------------------------------------------------------------
  // Stopping at the first error
  // ---------------------------------------------------------------------

  predicate AllGuarded(acts: seq<Action>) {
    forall i :: 0 <= i < |acts| ==> acts[i].Guarded?
  }

  lemma {:induction false} StoppedRunsNothing(fuel: nat, acts: seq<Action>, f: Frame, st: State)
    requires AllGuarded(acts) && f.stopOnFirstError && st.errors != []
    ensures RunActions(fuel, acts, f, st) == Some(st)
    decreases acts
  {
    if acts != [] {
      StoppedRunsNothing(fuel, acts[1..], f, st);
    }
  }

  /** A phase of one assertion. */
  lemma PhaseRuns(fuel: nat, holds: bool, rest: seq<Action>, f: Frame, st: State)
    requires AllGuarded(rest) && f.stopOnFirstError && st.IsValid()
    ensures RunActions(fuel, [Guarded([Check(holds)])] + rest, f, st) ==
            if holds then RunActions(fuel, rest, f, st) else Some(st.AddError(f.at, KeywordFailed))
  {
    var phase := Guarded([Check(holds)]);
    assert ([phase] + rest)[1..] == rest && f.at + [] == f.at;
    Singly(fuel, Check(holds), f, st);
    if holds {
      assert st.tracker.Some? ==> st.tracker.value + {} == st.tracker.value;
    } else {
      StoppedRunsNothing(fuel, rest, f, st.AddError(f.at, KeywordFailed));
    }
  }

  lemma ValuePhasesRun(fuel: nat, k: Keywords, rest: seq<Action>, f: Frame, st: State)
    requires AllGuarded(rest) && f.stopOnFirstError && st.IsValid() && !ValueMeaning(k, f.instance)
    ensures RunActions(fuel, ValuePart(k, f.instance) + rest, f, st) == Some(st.AddError(f.at, KeywordFailed))
  {
    var phases := ValuePart(k, f.instance);
    KeywordLaws.ValuesAllowed(k, f.instance);
    assert phases + rest == [phases[0]] + ([phases[1]] + ([phases[2]] + rest));
    PhaseRuns(fuel, k.constValue.Some? ==> Same(f.instance, k.constValue.value), rest, f, st);
    PhaseRuns(fuel, Allowed(k, f.instance), [phases[2]] + rest, f, st);
    PhaseRuns(fuel, !k.typeFails(f.instance), [phases[1]] + ([phases[2]] + rest), f, st);
  }

  /**
   * A fail-fast run looks no further once type, enum or const refuse the value:
   * it reports that one error, and goes to no subschema.
   */
  lemma RefusedValueEnds(fuel: nat, n: nat, f: Frame, st: State, k: Keywords, order: MemberOrder)
    requires fuel > 0 && n < |f.schema.nodes| && f.schema.nodes[n].ObjectSchema?
    requires f.schema.nodes[n] == NodeOf(k, order, f.schema.nodes[n].selfIndex)
    requires f.stopOnFirstError && st.IsValid() && !ValueMeaning(k, f.instance)
    ensures RunNode(fuel, n, f, st) == Some(st.AddError(f.at, KeywordFailed))
  {
    var x, node := f.instance, f.schema.nodes[n];
    var names := NamesOf(order, x);
    var rest := [Guarded(TypeSpecificPart(k, x, names)), Guarded(CombinatorPart(k, x)),
                 Guarded(UnevaluatedPart(k, x, names))];
    assert node.plan(x) == Plan(k, order, x) == ValuePart(k, x) + rest;
    var g, inner := PushResource(f, node.selfIndex), if node.tracked then State(st.errors, Some({})) else st;
    ValuePhasesRun(fuel - 1, k, rest, g, inner);
    assert st.tracker.Some? ==> st.tracker.value + {} == st.tracker.value;
  }

  /** The outcome is clear: one match of anyOf, two of oneOf, or one more element than maxContains allows. */
  predicate Decided(act: Action, tracked: bool, matches: nat) {
    || (act.AnyOf? && !tracked && matches >= 1)
    || (act.OneOf? && matches >= 2)
    || (act.Contains? && act.maxContains.Some? && !tracked && matches > act.maxContains.value)
  }

  /** Then, and only then, no further subschema is tried. With a tracker, anyOf and contains try all. */
  lemma DecidedTriesNoMore(act: Action, tracked: bool, fuel: nat, f: Frame, probes: seq<Probe>, i: nat, hits: seq<Hit>)
    requires i < |probes| && act.Probes()
    ensures Decided(act, tracked, |hits|) ==> RunProbes(fuel, f, probes, i, LimitOf(act, tracked), hits) == Some(hits)
    ensures RunProbes(0, f, probes, i, LimitOf(act, tracked), hits).Some? ==> Decided(act, tracked, |hits|)
  {
    assert RunNode(0, probes[i].child, ProbeFrame(f, probes[i]), ProbeState(probes[i])) == None;
  }
}
